/** The `MONGODB_URI` set-up shared by the auth and files handlers: the raw
    environment value gets the `mongodb+srv://` scheme when it carries
    neither accepted scheme, and an absent or empty value leaves the handler
    unconfigured. */
module MongoConfig {
  import opened Base

  const Plain := "mongodb://"
  const Srv := "mongodb+srv://"

  predicate HasScheme(uri: string) {
    StartsWith(uri, Plain) || StartsWith(uri, Srv)
  }

  /** The load-time rewrite of a present value. The empty string is falsy,
      so it is left as it is. */
  function NormaliseUri(raw: string): (uri: string)
    ensures raw != "" ==> HasScheme(uri)
    ensures HasScheme(raw) ==> uri == raw
    ensures raw == "" <==> uri == ""
  {
    if raw != "" && !HasScheme(raw) then Srv + raw else raw
  }

  /** The environment lookup followed by the rewrite. */
  function LoadUri(env: Option<string>): (uri: Option<string>)
    ensures env.None? <==> uri.None?
    ensures Truthy(env) <==> Truthy(uri)
    ensures Truthy(uri) ==> HasScheme(uri.value)
  {
    match env
    case None => None
    case Some(raw) => Some(NormaliseUri(raw))
  }

  /** Normalising twice is normalising once. */
  lemma NormaliseIdempotent(raw: string)
    ensures NormaliseUri(NormaliseUri(raw)) == NormaliseUri(raw)
  {
  }

  /** A value without either scheme keeps all of its text after the added
      `mongodb+srv://`. */
  lemma NormaliseKeepsText(raw: string)
    requires raw != "" && !HasScheme(raw)
    ensures NormaliseUri(raw)[..|Srv|] == Srv
    ensures NormaliseUri(raw)[|Srv|..] == raw
  {
  }
}
