/** The `mongodb-auth` edge function: the session authority over the
    `users` and `sessions` collections of the `cloudvault` database.

    Each collection is a sequence of documents in insertion order; a
    `findOne` or `deleteOne` without a sort reaches the first matching
    document. The SHA-256 hex digest is a parameter of the authority, and
    the clock (`now`, in milliseconds), `crypto.randomUUID()` (`newId`) and
    `crypto.getRandomValues` (`random`) are parameters of each call. */
module AuthServer {
  import opened Base
  import opened Seqs
  import Hex
  import MongoConfig

  /** Seven days, in milliseconds: the lifetime of every session. */
  const SessionLifetimeMs: int := 7 * 24 * 60 * 60 * 1000

  const NotConfigured := "MONGODB_URI is not configured"
  const UserExists := "User already exists"
  const BadCredentials := "Invalid email or password"
  const BadSession := "Invalid or expired session"
  const NoUser := "User not found"
  const InvalidAction := "Invalid action"
  /** The driver's error when an inserted `_id` is already present. */
  const DuplicateKey := "E11000 duplicate key error"

  /** The 32 random bytes a token is made from. */
  type TokenBytes = s: seq<byte> | |s| == 32 witness seq(32, i => 0 as byte)

  /** `generateToken`: 32 random bytes as 64 lowercase hex characters. */
  function GenerateToken(random: TokenBytes): (token: string)
    ensures |token| == 64
    ensures forall i :: 0 <= i < |token| ==> Hex.IsHexDigit(token[i])
    ensures Hex.Decode(token) == Some(random)
  {
    Hex.DecodeEncode(random);
    Hex.Encode(random)
  }

  /** Different random bytes never give the same token. */
  lemma TokensDiffer(a: TokenBytes, b: TokenBytes)
    requires a != b
    ensures GenerateToken(a) != GenerateToken(b)
  {
    if GenerateToken(a) == GenerateToken(b) {
      Hex.EncodeInjective(a, b);
    }
  }

  /** A document of `users`; `passwordHash` is the stored `password`. */
  datatype UserRecord = UserRecord(
    id: string, email: string, passwordHash: string, name: string,
    avatarUrl: Option<string>, createdAt: int, updatedAt: int)

  /** A document of `sessions`. */
  datatype Session = Session(token: string, userId: string, createdAt: int, expiresAt: int)

  /** The user object of a response: no password hash. */
  datatype PublicUser = PublicUser(id: string, email: string, name: string, avatarUrl: Option<string>)

  /** The request body. Absent fields are not modelled. */
  datatype AuthRequest = AuthRequest(action: string, email: string, password: string, name: string, token: string)

  /** The response: three kinds of 200 body, or an error body and status. */
  datatype AuthReply =
    | Issued(user: PublicUser, token: string)
    | Profile(user: PublicUser)
    | LoggedOut
    | Failure(status: nat, message: string)

  function Public(u: UserRecord): PublicUser {
    PublicUser(u.id, u.email, u.name, u.avatarUrl)
  }

  /** Every `_id` in `users` is distinct, as MongoDB enforces. */
  ghost predicate UniqueIds(users: seq<UserRecord>) {
    forall i, j :: 0 <= i < j < |users| ==> users[i].id != users[j].id
  }

  /** No two users share an email. */
  ghost predicate UniqueEmails(users: seq<UserRecord>) {
    forall i, j :: 0 <= i < j < |users| ==> users[i].email != users[j].email
  }

  /** The filter `{ token, expires_at: { $gt: now } }`. */
  predicate Live(s: Session, token: string, now: int) {
    s.token == token && s.expiresAt > now
  }

  /** `users.findOne({ email })`: the first user with exactly that email. */
  function FindEmail(users: seq<UserRecord>, email: string): (r: Option<nat>)
    ensures r.Some? ==> r.value < |users| && users[r.value].email == email
    ensures r.Some? ==> forall j :: 0 <= j < r.value ==> users[j].email != email
    ensures r.None? <==> forall j :: 0 <= j < |users| ==> users[j].email != email
  {
    FirstIndex(users, (u: UserRecord) => u.email == email)
  }

  /** `users.findOne({ _id: id })` */
  function FindId(users: seq<UserRecord>, id: string): (r: Option<nat>)
    ensures r.Some? ==> r.value < |users| && users[r.value].id == id
    ensures r.Some? ==> forall j :: 0 <= j < r.value ==> users[j].id != id
    ensures r.None? <==> forall j :: 0 <= j < |users| ==> users[j].id != id
  {
    FirstIndex(users, (u: UserRecord) => u.id == id)
  }

  /** `sessions.findOne({ token, expires_at: { $gt: now } })` */
  function FindLive(sessions: seq<Session>, token: string, now: int): (r: Option<nat>)
    ensures r.Some? ==> r.value < |sessions| && Live(sessions[r.value], token, now)
    ensures r.Some? ==> forall j :: 0 <= j < r.value ==> !Live(sessions[j], token, now)
    ensures r.None? <==> forall j :: 0 <= j < |sessions| ==> !Live(sessions[j], token, now)
  {
    FirstIndex(sessions, (s: Session) => Live(s, token, now))
  }

  /** The session `deleteOne({ token })` reaches. */
  function FindToken(sessions: seq<Session>, token: string): (r: Option<nat>)
    ensures r.Some? ==> r.value < |sessions| && sessions[r.value].token == token
    ensures r.Some? ==> forall j :: 0 <= j < r.value ==> sessions[j].token != token
    ensures r.None? <==> forall j :: 0 <= j < |sessions| ==> sessions[j].token != token
  {
    FirstIndex(sessions, (s: Session) => s.token == token)
  }

  /** The `verify` branch as a function of the collections. */
  function VerifyReply(users: seq<UserRecord>, sessions: seq<Session>, token: string, now: int): (r: AuthReply)
    ensures r.Profile? || r == Failure(401, BadSession) || r == Failure(404, NoUser)
    ensures r == Failure(401, BadSession) <==> forall i :: 0 <= i < |sessions| ==> !Live(sessions[i], token, now)
    ensures r.Profile? ==>
      exists i, j :: 0 <= i < |sessions| && 0 <= j < |users| &&
        Live(sessions[i], token, now) && users[j].id == sessions[i].userId && r.user == Public(users[j])
    ensures FindLive(sessions, token, now).Some? ==>
      var owner := sessions[FindLive(sessions, token, now).value].userId;
      && (r == Failure(404, NoUser) <==> forall j :: 0 <= j < |users| ==> users[j].id != owner)
      && (r.Profile? ==> FindId(users, owner).Some? && r.user == Public(users[FindId(users, owner).value]))
  {
    match FindLive(sessions, token, now)
    case None => Failure(401, BadSession)
    case Some(i) =>
      match FindId(users, sessions[i].userId)
      case None => Failure(404, NoUser)
      case Some(j) => Profile(Public(users[j]))
  }

  /** `deleteOne({ token })`: the first session with that token goes. */
  function RemoveToken(sessions: seq<Session>, token: string): (r: seq<Session>)
    ensures (forall i :: 0 <= i < |sessions| ==> sessions[i].token != token) ==> r == sessions
    ensures (exists i :: 0 <= i < |sessions| && sessions[i].token == token) ==> |r| == |sessions| - 1
    ensures forall s :: s in sessions && s.token != token ==> s in r
    ensures forall s :: s in r ==> s in sessions
    ensures FindToken(sessions, token).Some? ==>
      var i := FindToken(sessions, token).value;
      multiset(r) == multiset(sessions) - multiset{sessions[i]} && IsSubsequence(r, sessions)
  {
    match FindToken(sessions, token)
    case None => sessions
    case Some(i) =>
      RemoveAt(sessions, i)
  }

  /** What `signup` does to the collections and answers. */
  ghost predicate SignedUp(
    users0: seq<UserRecord>, sessions0: seq<Session>, users1: seq<UserRecord>, sessions1: seq<Session>,
    sha256Hex: string -> string, email: string, password: string, name: string,
    now: int, newId: string, random: TokenBytes, r: AuthReply)
    ensures SignedUp(users0, sessions0, users1, sessions1, sha256Hex, email, password, name, now, newId, random, r) ==>
      && users0 <= users1 && sessions0 <= sessions1
      && (r.Issued? <==> |users1| == |users0| + 1)
      && (!r.Issued? ==> users1 == users0 && sessions1 == sessions0)
      && (r.Issued? ==>
        && |sessions1| == |sessions0| + 1 && users1[|users0|].id == r.user.id
        && sessions1[|sessions0|].userId == r.user.id && sessions1[|sessions0|].token == r.token)
  {
    if FindEmail(users0, email).Some? then
      r == Failure(400, UserExists) && users1 == users0 && sessions1 == sessions0
    else if FindId(users0, newId).Some? then
      r == Failure(500, DuplicateKey) && users1 == users0 && sessions1 == sessions0
    else
      var token := GenerateToken(random);
      && users1 == users0 + [UserRecord(newId, email, sha256Hex(password), name, None, now, now)]
      && sessions1 == sessions0 + [Session(token, newId, now, now + SessionLifetimeMs)]
      && r == Issued(PublicUser(newId, email, name, None), token)
  }

  /** What `login` does to `sessions` and answers; `users` is only read. */
  ghost predicate LoggedIn(
    users: seq<UserRecord>, sessions0: seq<Session>, sessions1: seq<Session>,
    sha256Hex: string -> string, email: string, password: string,
    now: int, random: TokenBytes, r: AuthReply)
    ensures LoggedIn(users, sessions0, sessions1, sha256Hex, email, password, now, random, r) ==>
      && sessions0 <= sessions1
      && (r.Issued? <==> |sessions1| == |sessions0| + 1)
      && (!r.Issued? ==> r == Failure(401, BadCredentials) && sessions1 == sessions0)
      && (r.Issued? ==> sessions1[|sessions0|].userId == r.user.id && sessions1[|sessions0|].token == r.token)
  {
    match FindEmail(users, email)
    case None => r == Failure(401, BadCredentials) && sessions1 == sessions0
    case Some(i) =>
      if users[i].passwordHash != sha256Hex(password) then
        r == Failure(401, BadCredentials) && sessions1 == sessions0
      else
        var token := GenerateToken(random);
        && sessions1 == sessions0 + [Session(token, users[i].id, now, now + SessionLifetimeMs)]
        && r == Issued(Public(users[i]), token)
  }

  class SessionAuthority {
    /** `MONGODB_URI` after the load-time rewrite. */
    const uri: Option<string>
    /** `hashPassword`: the SHA-256 digest of the password, in hex. */
    const sha256Hex: string -> string
    var users: seq<UserRecord>
    var sessions: seq<Session>

    ghost predicate Valid()
      reads this
    {
      UniqueIds(users)
    }

    constructor (env: Option<string>, sha256Hex: string -> string, users: seq<UserRecord>, sessions: seq<Session>)
      requires UniqueIds(users)
      ensures Valid()
      ensures this.uri == MongoConfig.LoadUri(env) && this.sha256Hex == sha256Hex
      ensures this.users == users && this.sessions == sessions
    {
      this.uri := MongoConfig.LoadUri(env);
      this.sha256Hex := sha256Hex;
      this.users := users;
      this.sessions := sessions;
    }

    method Signup(email: string, password: string, name: string, now: int, newId: string, random: TokenBytes)
      returns (r: AuthReply)
      requires Valid()
      modifies this
      ensures Valid()
      ensures SignedUp(old(users), old(sessions), users, sessions, sha256Hex, email, password, name, now, newId, random, r)
    {
      if FindEmail(users, email).Some? {
        return Failure(400, UserExists);
      }
      var hashed := sha256Hex(password);
      var token := GenerateToken(random);
      if FindId(users, newId).Some? {
        return Failure(500, DuplicateKey);
      }
      users := users + [UserRecord(newId, email, hashed, name, None, now, now)];
      sessions := sessions + [Session(token, newId, now, now + SessionLifetimeMs)];
      r := Issued(PublicUser(newId, email, name, None), token);
    }

    method Login(email: string, password: string, now: int, random: TokenBytes) returns (r: AuthReply)
      requires Valid()
      modifies this
      ensures Valid() && users == old(users)
      ensures LoggedIn(users, old(sessions), sessions, sha256Hex, email, password, now, random, r)
    {
      var found := FindEmail(users, email);
      if found.None? || users[found.value].passwordHash != sha256Hex(password) {
        return Failure(401, BadCredentials);
      }
      var user := users[found.value];
      var token := GenerateToken(random);
      sessions := sessions + [Session(token, user.id, now, now + SessionLifetimeMs)];
      r := Issued(Public(user), token);
    }

    method Verify(token: string, now: int) returns (r: AuthReply)
      ensures r == VerifyReply(users, sessions, token, now)
    {
      var found := FindLive(sessions, token, now);
      if found.None? {
        return Failure(401, BadSession);
      }
      var owner := FindId(users, sessions[found.value].userId);
      if owner.None? {
        return Failure(404, NoUser);
      }
      r := Profile(Public(users[owner.value]));
    }

    method Logout(token: string) returns (r: AuthReply)
      requires Valid()
      modifies this
      ensures Valid() && users == old(users)
      ensures sessions == RemoveToken(old(sessions), token)
      ensures r == LoggedOut
    {
      sessions := RemoveToken(sessions, token);
      r := LoggedOut;
    }

    /** The request handler after the CORS preflight: the configuration
        check comes before the body is read, then the `action` dispatch. */
    method Handle(req: AuthRequest, now: int, newId: string, random: TokenBytes) returns (r: AuthReply)
      requires Valid()
      modifies this
      ensures Valid()
      ensures !Truthy(uri) ==> r == Failure(500, NotConfigured) && unchanged(this)
      ensures Truthy(uri) && req.action == "signup" ==>
        SignedUp(old(users), old(sessions), users, sessions, sha256Hex, req.email, req.password, req.name, now, newId, random, r)
      ensures Truthy(uri) && req.action == "login" ==>
        users == old(users) && LoggedIn(users, old(sessions), sessions, sha256Hex, req.email, req.password, now, random, r)
      ensures Truthy(uri) && req.action == "verify" ==>
        r == VerifyReply(users, sessions, req.token, now) && unchanged(this)
      ensures Truthy(uri) && req.action == "logout" ==>
        r == LoggedOut && users == old(users) && sessions == RemoveToken(old(sessions), req.token)
      ensures Truthy(uri) && req.action !in {"signup", "login", "verify", "logout"} ==>
        r == Failure(400, InvalidAction) && unchanged(this)
    {
      if !Truthy(uri) {
        return Failure(500, NotConfigured);
      }
      match req.action
      case "signup" =>
        r := Signup(req.email, req.password, req.name, now, newId, random);
      case "login" =>
        r := Login(req.email, req.password, now, random);
      case "verify" =>
        r := Verify(req.token, now);
      case "logout" =>
        r := Logout(req.token);
      case _ =>
        r := Failure(400, InvalidAction);
    }
  }

  /** A successful signup rejects a second signup with the same email, and
      never creates a second user with an email already taken. */
  lemma SignupKeepsEmailsUnique(
    users0: seq<UserRecord>, sessions0: seq<Session>, users1: seq<UserRecord>, sessions1: seq<Session>,
    sha256Hex: string -> string, email: string, password: string, name: string,
    now: int, newId: string, random: TokenBytes, r: AuthReply)
    requires UniqueEmails(users0)
    requires SignedUp(users0, sessions0, users1, sessions1, sha256Hex, email, password, name, now, newId, random, r)
    ensures UniqueEmails(users1)
  {
    if r.Issued? {
      assert FindEmail(users0, email).None?;
    }
  }

  /** A session appended after no live one is the first live one. */
  lemma FindLiveAppend(sessions: seq<Session>, x: Session, token: string, now: int)
    requires forall i :: 0 <= i < |sessions| ==> !Live(sessions[i], token, now)
    requires Live(x, token, now)
    ensures FindLive(sessions + [x], token, now) == Some(|sessions|)
  {
    assert (sessions + [x])[|sessions|] == x;
  }

  /** A user appended with an id not yet taken is the one found by it. */
  lemma FindIdAppend(users: seq<UserRecord>, x: UserRecord)
    requires FindId(users, x.id).None?
    ensures FindId(users + [x], x.id) == Some(|users|)
  {
    assert (users + [x])[|users|] == x;
  }

  /** The token a signup issues verifies, until it expires, as the user the
      signup created. */
  lemma SignupThenVerify(
    users0: seq<UserRecord>, sessions0: seq<Session>, users1: seq<UserRecord>, sessions1: seq<Session>,
    sha256Hex: string -> string, email: string, password: string, name: string,
    now: int, newId: string, random: TokenBytes, r: AuthReply, later: int)
    requires SignedUp(users0, sessions0, users1, sessions1, sha256Hex, email, password, name, now, newId, random, r)
    requires r.Issued?
    requires forall i :: 0 <= i < |sessions0| ==> !Live(sessions0[i], r.token, later)
    requires now <= later < now + SessionLifetimeMs
    ensures VerifyReply(users1, sessions1, r.token, later) == Profile(r.user)
  {
    assert FindEmail(users0, email).None? && FindId(users0, newId).None?;
    var token := GenerateToken(random);
    var user := UserRecord(newId, email, sha256Hex(password), name, None, now, now);
    var session := Session(token, newId, now, now + SessionLifetimeMs);
    assert users1 == users0 + [user] && sessions1 == sessions0 + [session];
    assert r == Issued(Public(user), token);
    FindLiveAppend(sessions0, session, token, later);
    FindIdAppend(users0, user);
  }

  /** The token a login issues verifies, until it expires, as the user who
      logged in. */
  lemma LoginThenVerify(
    users: seq<UserRecord>, sessions0: seq<Session>, sessions1: seq<Session>,
    sha256Hex: string -> string, email: string, password: string,
    now: int, random: TokenBytes, r: AuthReply, later: int)
    requires UniqueIds(users)
    requires LoggedIn(users, sessions0, sessions1, sha256Hex, email, password, now, random, r)
    requires r.Issued?
    requires forall i :: 0 <= i < |sessions0| ==> !Live(sessions0[i], r.token, later)
    requires now <= later < now + SessionLifetimeMs
    ensures VerifyReply(users, sessions1, r.token, later) == Profile(r.user)
  {
    var k := FindEmail(users, email).value;
    var n := |sessions0|;
    assert Live(sessions1[n], r.token, later);
    assert FindLive(sessions1, r.token, later) == Some(n);
    var j := FindId(users, users[k].id);
    assert j.Some?;
    assert j == Some(k);
  }

  /** Login fails alike for an unknown email and for a wrong password. */
  lemma LoginFailureHidesExistence(
    users: seq<UserRecord>, sessions0: seq<Session>, sessions1: seq<Session>,
    sha256Hex: string -> string, email: string, password: string,
    now: int, random: TokenBytes, r: AuthReply)
    requires LoggedIn(users, sessions0, sessions1, sha256Hex, email, password, now, random, r)
    requires forall i :: 0 <= i < |users| && users[i].email == email ==> users[i].passwordHash != sha256Hex(password)
    ensures r == Failure(401, BadCredentials) && sessions1 == sessions0
  {
    match FindEmail(users, email)
    case None =>
    case Some(i) =>
      assert users[i].email == email;
  }

  /** After logout a token that named at most one session no longer
      verifies. */
  lemma LogoutThenVerify(users: seq<UserRecord>, sessions: seq<Session>, token: string, later: int)
    requires forall i, j :: 0 <= i < j < |sessions| ==> sessions[i].token == token ==> sessions[j].token != token
    ensures VerifyReply(users, RemoveToken(sessions, token), token, later) == Failure(401, BadSession)
  {
    var after := RemoveToken(sessions, token);
    match FindToken(sessions, token)
    case None =>
      assert forall i :: 0 <= i < |after| ==> after[i].token != token;
    case Some(k) =>
      assert after == RemoveAt(sessions, k);
      forall i | 0 <= i < |after|
        ensures after[i].token != token
      {
        if i < k {
          assert sessions[i].token != token;
        } else {
          assert after[i] == sessions[i + 1];
        }
      }
  }

  /** A second logout with the same token changes nothing, when the token
      named at most one session. */
  lemma LogoutIdempotent(sessions: seq<Session>, token: string)
    requires forall i, j :: 0 <= i < j < |sessions| ==> sessions[i].token == token ==> sessions[j].token != token
    ensures RemoveToken(RemoveToken(sessions, token), token) == RemoveToken(sessions, token)
  {
    LogoutThenVerify([], sessions, token, 0);
    var after := RemoveToken(sessions, token);
    assert forall i :: 0 <= i < |after| ==> !Live(after[i], token, 0) || after[i].token != token;
    match FindToken(sessions, token)
    case None =>
    case Some(k) =>
      forall i | 0 <= i < |after|
        ensures after[i].token != token
      {
        if i < k {
          assert sessions[i].token != token;
        } else {
          assert after[i] == sessions[i + 1];
        }
      }
  }

  /** The verify response depends on users only through their public
      fields: changing any stored password hash cannot change it. */
  lemma VerifyIgnoresPasswords(users: seq<UserRecord>, other: seq<UserRecord>, sessions: seq<Session>, token: string, now: int)
    requires |users| == |other|
    requires forall i :: 0 <= i < |users| ==> Public(users[i]) == Public(other[i])
    ensures VerifyReply(users, sessions, token, now) == VerifyReply(other, sessions, token, now)
  {
    match FindLive(sessions, token, now)
    case None =>
    case Some(i) =>
      var owner := sessions[i].userId;
      FirstIndexPointwise(users, (u: UserRecord) => u.id == owner, other, (u: UserRecord) => u.id == owner);
  }
}
