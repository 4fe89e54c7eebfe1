/** The client's authentication store (`useAuthStore`): the signed-in user
    and session token, mirrored in the browser's storage under
    `auth_token`, with the four actions that talk to the auth endpoint.

    The store's state is a class; the browser's storage is its field
    `storedToken`. Each endpoint call is replaced by its outcome, passed in
    as a parameter, and each action returns the call it sent, if any. The
    effect of each action on the whole state is also a function on
    `AuthState`, so that properties spanning several actions can be stated
    as lemmas. */
module AuthStore {
  import opened Base
  import opened Endpoint
  import AuthServer

  type User = AuthServer.PublicUser

  /** A body of the auth endpoint that signs a user in. */
  datatype SignIn = SignIn(user: User, token: string)

  /** A call to the auth endpoint. */
  datatype AuthCall =
    | Verify(token: string)
    | Login(email: string, password: string)
    | Signup(name: string, email: string, password: string)
    | Logout(token: string)

  datatype AuthState = AuthState(
    user: Option<User>, token: Option<string>, isAuthenticated: bool, isLoading: bool,
    storedToken: Option<string>)

  /** Signed in exactly when there is a token, and then there is a user. */
  predicate Consistent(s: AuthState) {
    (s.isAuthenticated <==> s.token.Some?) && (s.isAuthenticated ==> s.user.Some?)
  }

  /** The state a page load starts from, over what storage already holds. */
  function Initial(storedToken: Option<string>): (s: AuthState)
    ensures Consistent(s) && !s.isAuthenticated && s.isLoading
    ensures s.user.None? && s.token.None?
    ensures s.storedToken == storedToken
  {
    AuthState(None, None, false, true, storedToken)
  }

  /** The call `initialize` sends: a `verify` of a truthy stored token. */
  function InitializeCall(s: AuthState): (c: Option<AuthCall>)
    ensures c.Some? <==> Truthy(s.storedToken)
    ensures c.Some? ==> c.value == Verify(s.storedToken.value)
  {
    if Truthy(s.storedToken) then Some(Verify(s.storedToken.value)) else None
  }

  /** `initialize`: adopt the stored token when the endpoint accepts it,
      forget it when the endpoint refuses it. */
  function Initialized(s: AuthState, answer: Reply<User>): (t: AuthState)
    ensures !t.isLoading
    ensures Consistent(s) ==> Consistent(t)
    ensures t.isAuthenticated && !s.isAuthenticated ==> t.token == s.storedToken
    ensures InitializeCall(s).Some? && answer.Rejected? ==> t.storedToken.None?
    ensures !Truthy(s.storedToken) ==> t == s.(isLoading := false)
    ensures Truthy(s.storedToken) && answer.Answered? ==>
      && t.user == Some(answer.body) && t.token == s.storedToken && t.isAuthenticated
      && t.storedToken == s.storedToken
    ensures Truthy(s.storedToken) && answer.Rejected? ==>
      t.user == s.user && t.token == s.token && t.isAuthenticated == s.isAuthenticated
  {
    if !Truthy(s.storedToken) then s.(isLoading := false)
    else match answer
      case Answered(user) =>
        s.(user := Some(user), token := s.storedToken, isAuthenticated := true, isLoading := false)
      case Rejected(_) =>
        s.(storedToken := None, isLoading := false)
  }

  /** `login` and `signup` after their call: store the token and sign in,
      or leave everything as it was and return the error. */
  function SignedIn(s: AuthState, answer: Reply<SignIn>): (r: (AuthState, Option<string>))
    ensures Consistent(s) ==> Consistent(r.0)
    ensures r.1.Some? <==> answer.Rejected?
    ensures answer.Rejected? ==> r.0 == s && r.1.value != ""
    ensures answer.Answered? ==>
      r.0.isAuthenticated && r.0.user == Some(answer.body.user)
      && r.0.token == r.0.storedToken == Some(answer.body.token)
    ensures answer.Answered? ==> r.0.isLoading == s.isLoading
    ensures answer.Rejected? ==> r.1 == Some(Thrown(answer.error))
  {
    match answer
    case Answered(signIn) =>
      (s.(storedToken := Some(signIn.token), user := Some(signIn.user),
          token := Some(signIn.token), isAuthenticated := true), None)
    case Rejected(error) => (s, Some(Thrown(error)))
  }

  /** The call `logout` sends: a `logout` of a truthy token. */
  function LogoutCall(s: AuthState): (c: Option<AuthCall>)
    ensures c.Some? <==> Truthy(s.token)
    ensures c.Some? ==> c.value == Logout(s.token.value)
  {
    if Truthy(s.token) then Some(Logout(s.token.value)) else None
  }

  /** `logout`, whatever the endpoint answered. */
  function LoggedOut(s: AuthState): (t: AuthState)
    ensures Consistent(t) && !t.isAuthenticated
    ensures t.user.None? && t.token.None? && t.storedToken.None?
    ensures t.isLoading == s.isLoading
  {
    s.(storedToken := None, user := None, token := None, isAuthenticated := false)
  }

  class AuthCache {
    var user: Option<User>
    var token: Option<string>
    var isAuthenticated: bool
    var isLoading: bool
    /** `localStorage.getItem('auth_token')` */
    var storedToken: Option<string>

    ghost function State(): AuthState
      reads this
    {
      AuthState(user, token, isAuthenticated, isLoading, storedToken)
    }

    ghost predicate Valid()
      reads this
    {
      Consistent(State())
    }

    /** The store as created on page load. */
    constructor (persisted: Option<string>)
      ensures Valid() && State() == Initial(persisted)
    {
      user := None;
      token := None;
      isAuthenticated := false;
      isLoading := true;
      storedToken := persisted;
    }

    method Initialize(answer: Reply<User>) returns (sent: Option<AuthCall>)
      requires Valid()
      modifies this
      ensures Valid()
      ensures sent == InitializeCall(old(State()))
      ensures State() == Initialized(old(State()), answer)
    {
      if !Truthy(storedToken) {
        isLoading := false;
        return None;
      }
      sent := Some(Verify(storedToken.value));
      match answer
      case Answered(u) =>
        user := Some(u);
        token := storedToken;
        isAuthenticated := true;
        isLoading := false;
      case Rejected(_) =>
        storedToken := None;
        isLoading := false;
    }

    method SignInWith(answer: Reply<SignIn>) returns (error: Option<string>)
      requires Valid()
      modifies this
      ensures Valid()
      ensures (State(), error) == SignedIn(old(State()), answer)
    {
      match answer
      case Answered(signIn) =>
        storedToken := Some(signIn.token);
        user := Some(signIn.user);
        token := Some(signIn.token);
        isAuthenticated := true;
        error := None;
      case Rejected(e) =>
        error := Some(Thrown(e));
    }

    /** `login(email, password)` */
    method LogIn(email: string, password: string, answer: Reply<SignIn>)
      returns (sent: AuthCall, error: Option<string>)
      requires Valid()
      modifies this
      ensures Valid()
      ensures sent == Login(email, password)
      ensures (State(), error) == SignedIn(old(State()), answer)
    {
      sent := Login(email, password);
      error := SignInWith(answer);
    }

    /** `signup(name, email, password)` */
    method SignUp(name: string, email: string, password: string, answer: Reply<SignIn>)
      returns (sent: AuthCall, error: Option<string>)
      requires Valid()
      modifies this
      ensures Valid()
      ensures sent == Signup(name, email, password)
      ensures (State(), error) == SignedIn(old(State()), answer)
    {
      sent := Signup(name, email, password);
      error := SignInWith(answer);
    }

    /** `logout()`: a failed call is only logged; the state is cleared
        either way. */
    method LogOut() returns (sent: Option<AuthCall>)
      requires Valid()
      modifies this
      ensures Valid()
      ensures sent == LogoutCall(old(State()))
      ensures State() == LoggedOut(old(State()))
    {
      sent := if Truthy(token) then Some(Logout(token.value)) else None;
      storedToken := None;
      user := None;
      token := None;
      isAuthenticated := false;
    }
  }

  /** A sign-in survives a page reload: the next page load verifies the
      token the endpoint issued. */
  lemma SignInSurvivesReload(s: AuthState, signIn: SignIn)
    requires signIn.token != ""
    ensures
      var after := SignedIn(s, Answered(signIn)).0;
      InitializeCall(Initial(after.storedToken)) == Some(Verify(signIn.token))
  {
  }

  /** The reload after a sign-in ends signed in as the verified user when
      the endpoint accepts the token. */
  lemma ReloadRestoresSession(s: AuthState, signIn: SignIn, verified: User)
    requires signIn.token != ""
    ensures
      var reloaded := Initialized(Initial(SignedIn(s, Answered(signIn)).0.storedToken), Answered(verified));
      reloaded.isAuthenticated && reloaded.token == Some(signIn.token) && reloaded.user == Some(verified)
  {
  }

  /** A token the endpoint refused is forgotten: the next page load sends
      nothing and stays signed out. */
  lemma RefusedTokenForgotten(stored: string, error: Option<string>)
    requires stored != ""
    ensures
      var after := Initialized(Initial(Some(stored)), Rejected(error));
      !after.isAuthenticated && InitializeCall(Initial(after.storedToken)).None?
  {
  }

  /** Logging out twice is logging out once, and the second time sends
      nothing. */
  lemma LogoutIdempotent(s: AuthState)
    ensures LoggedOut(LoggedOut(s)) == LoggedOut(s)
    ensures LogoutCall(LoggedOut(s)).None?
  {
  }

  /** After a logout the next page load sends nothing and starts signed
      out. */
  lemma LogoutSurvivesReload(s: AuthState)
    ensures InitializeCall(Initial(LoggedOut(s).storedToken)).None?
  {
  }
}
