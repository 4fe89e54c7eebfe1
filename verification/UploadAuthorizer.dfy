/** The `cloudinary-upload` edge function: signing upload grants and
    destroy requests for the media host without handing out its secret.

    The SHA-1 hex digest is a parameter (`sha1Hex`), the clock is `nowMs`
    (`Date.now()`), and the host's answer to a destroy request is the
    parameter `destroyAnswer`. */
module UploadAuthorizer {
  import opened Base
  import opened StringOrder
  import Decimal

  const Namespace := "cloudvault/"
  const NotConfigured := "Cloudinary credentials are not configured"
  const InvalidAction := "Invalid action"
  /** The media host's API root. */
  const HostApi := "https://api.cloudinary.com/v1_1/"

  /** A `Record<string, string>`: its entries in insertion order. */
  type Params = seq<(string, string)>

  /** `Object.keys(params)` */
  function Keys(p: Params): (ks: seq<string>)
    ensures |ks| == |p|
    ensures forall i :: 0 <= i < |p| ==> ks[i] == p[i].0
  {
    if p == [] then [] else [p[0].0] + Keys(p[1..])
  }

  /** An object never holds a key twice. */
  ghost predicate DistinctKeys(p: Params) {
    Distinct(Keys(p))
  }

  /** `params[key]` for a key the object holds. */
  function Lookup(p: Params, k: string): (v: string)
    requires k in Keys(p)
    ensures (k, v) in p
  {
    if p[0].0 == k then p[0].1 else Lookup(p[1..], k)
  }

  /** In an object, the value stored under a key is the one looked up. */
  lemma LookupUnique(p: Params, k: string, v: string)
    requires DistinctKeys(p) && (k, v) in p
    ensures k in Keys(p) && Lookup(p, k) == v
  {
    var i :| 0 <= i < |p| && p[i] == (k, v);
    assert Keys(p)[i] == k;
    var j :| 0 <= j < |p| && p[j] == (k, Lookup(p, k));
    assert Keys(p)[j] == k;
    assert i == j;
  }

  /** `keys.map(key => `${key}=${params[key]}`).join("&")` */
  function Render(p: Params, keys: seq<string>): string
    requires forall k :: k in keys ==> k in Keys(p)
  {
    if keys == [] then ""
    else
      var pair := keys[0] + "=" + Lookup(p, keys[0]);
      if |keys| == 1 then pair else pair + "&" + Render(p, keys[1..])
  }

  /** The canonical string: the keys sorted ascending, rendered and
      joined. */
  function StringToSign(p: Params): string {
    Render(p, Sort(Keys(p)))
  }

  /** `generateSignature`: the digest of the canonical string followed by
      the secret. */
  function Sign(p: Params, secret: string, sha1Hex: string -> string): string {
    sha1Hex(StringToSign(p) + secret)
  }

  /** Two objects holding the same entries get the same signature, in
      whatever order their keys were inserted. */
  lemma SignPermutationInvariant(p: Params, q: Params, secret: string, sha1Hex: string -> string)
    requires DistinctKeys(p) && DistinctKeys(q) && multiset(p) == multiset(q)
    ensures Sign(p, secret, sha1Hex) == Sign(q, secret, sha1Hex)
  {
    StringToSignPermutationInvariant(p, q);
  }

  lemma {:induction false} RenderAgrees(p: Params, q: Params, keys: seq<string>)
    requires forall k :: k in keys ==> k in Keys(p) && k in Keys(q) && Lookup(p, k) == Lookup(q, k)
    ensures Render(p, keys) == Render(q, keys)
  {
    if keys != [] {
      RenderAgrees(p, q, keys[1..]);
    }
  }

  /** The canonical string, and so the signature, does not depend on the
      order in which the parameters were inserted. */
  lemma StringToSignPermutationInvariant(p: Params, q: Params)
    requires DistinctKeys(p) && DistinctKeys(q)
    requires multiset(p) == multiset(q)
    ensures StringToSign(p) == StringToSign(q)
  {
    forall k
      ensures k in Keys(p) <==> k in Keys(q)
    {
      if k in Keys(p) {
        var i :| 0 <= i < |p| && Keys(p)[i] == k;
        assert p[i] in multiset(q);
        var j :| 0 <= j < |q| && q[j] == p[i];
        assert Keys(q)[j] == k;
      }
      if k in Keys(q) {
        var j :| 0 <= j < |q| && Keys(q)[j] == k;
        assert q[j] in multiset(p);
        var i :| 0 <= i < |p| && p[i] == q[j];
        assert Keys(p)[i] == k;
      }
    }
    SortPermutationInvariant(Keys(p), Keys(q));
    var keys := Sort(Keys(p));
    forall k | k in keys
      ensures k in Keys(p) && k in Keys(q) && Lookup(p, k) == Lookup(q, k)
    {
      var v := Lookup(p, k);
      assert (k, v) in multiset(q);
      LookupUnique(q, k, v);
    }
    RenderAgrees(p, q, keys);
  }

  /** `Math.floor(Date.now() / 1000).toString()` */
  function Timestamp(nowMs: nat): (ts: string)
    ensures Decimal.AllDigits(ts) && Decimal.Decode(ts) == nowMs / 1000
  {
    Decimal.DecodeEncode(nowMs / 1000);
    Decimal.Encode(nowMs / 1000)
  }

  /** The parameters an upload grant signs. */
  function UploadParams(folder: string, timestamp: string): Params {
    [("folder", folder), ("timestamp", timestamp)]
  }

  /** The parameters a destroy request signs. */
  function DestroyParams(publicId: string, timestamp: string): Params {
    [("public_id", publicId), ("timestamp", timestamp)]
  }

  /** The canonical string of two parameters whose keys are already in
      order. */
  lemma TwoParamString(k1: string, v1: string, k2: string, v2: string)
    requires Less(k1, k2)
    ensures StringToSign([(k1, v1), (k2, v2)]) == k1 + "=" + v1 + "&" + k2 + "=" + v2
  {
    var p := [(k1, v1), (k2, v2)];
    LessIrreflexive(k1);
    LessAsymmetric(k1, k2);
    assert Keys(p) == [k1, k2] by {
      assert Keys(p[1..]) == [k2];
    }
    assert Sort([k1, k2]) == [k1, k2] by {
      assert [k1, k2][1..] == [k2];
      assert Sort([k2]) == Insert(k2, Sort([])) == [k2];
    }
    assert Lookup(p, k2) == v2 by {
      assert p[1..] == [(k2, v2)];
    }
    assert Render(p, [k2]) == k2 + "=" + v2;
    assert [k1, k2][1..] == [k2];
  }

  lemma UploadStringToSign(folder: string, timestamp: string)
    ensures StringToSign(UploadParams(folder, timestamp)) == "folder=" + folder + "&timestamp=" + timestamp
  {
    assert Less("folder", "timestamp");
    TwoParamString("folder", folder, "timestamp", timestamp);
  }

  lemma DestroyStringToSign(publicId: string, timestamp: string)
    ensures StringToSign(DestroyParams(publicId, timestamp)) == "public_id=" + publicId + "&timestamp=" + timestamp
  {
    assert Less("public_id", "timestamp");
    TwoParamString("public_id", publicId, "timestamp", timestamp);
  }

  /** The environment's credentials, each possibly absent. */
  datatype Credentials = Credentials(cloudName: Option<string>, apiKey: Option<string>, apiSecret: Option<string>)

  predicate Configured(c: Credentials) {
    Truthy(c.cloudName) && Truthy(c.apiKey) && Truthy(c.apiSecret)
  }

  /** The request body. */
  datatype UploadRequest = UploadRequest(action: string, userId: string, publicId: string)

  /** The `get_signature` response body. */
  datatype Grant = Grant(signature: string, timestamp: string, apiKey: string, cloudName: string, folder: string)

  /** The form posted to the host's destroy endpoint. */
  datatype DestroyForm = DestroyForm(publicId: string, signature: string, apiKey: string, timestamp: string)

  datatype UploadReply =
    | Granted(grant: Grant)
    /** The destroy request sent, and the host's answer passed back with
        status 200. */
    | Destroyed(url: string, form: DestroyForm, answer: string)
    | Failure(status: nat, message: string)

  /** The request handler after the CORS preflight. */
  function Handle(
    creds: Credentials, req: UploadRequest, nowMs: nat,
    sha1Hex: string -> string, destroyAnswer: Result<string>): (r: UploadReply)
    ensures !Configured(creds) ==> r == Failure(500, NotConfigured)
    ensures Configured(creds) && req.action == "get_signature" ==>
      var ts := Timestamp(nowMs);
      var folder := Namespace + req.userId;
      r == Granted(Grant(
        sha1Hex("folder=" + folder + "&timestamp=" + ts + creds.apiSecret.value),
        ts, creds.apiKey.value, creds.cloudName.value, folder))
    ensures Configured(creds) && req.action == "delete" ==>
      var ts := Timestamp(nowMs);
      var form := DestroyForm(req.publicId,
        sha1Hex("public_id=" + req.publicId + "&timestamp=" + ts + creds.apiSecret.value),
        creds.apiKey.value, ts);
      var url := HostApi + creds.cloudName.value + "/image/destroy";
      r == match destroyAnswer
        case Ok(answer) => Destroyed(url, form, answer)
        case Err(message) => Failure(500, message)
    ensures Configured(creds) && req.action !in {"get_signature", "delete"} ==> r == Failure(400, InvalidAction)
  {
    if !Configured(creds) then Failure(500, NotConfigured)
    else
      var secret := creds.apiSecret.value;
      var timestamp := Timestamp(nowMs);
      if req.action == "get_signature" then
        var folder := Namespace + req.userId;
        var signature := Sign(UploadParams(folder, timestamp), secret, sha1Hex);
        UploadStringToSign(folder, timestamp);
        Granted(Grant(signature, timestamp, creds.apiKey.value, creds.cloudName.value, folder))
      else if req.action == "delete" then
        var signature := Sign(DestroyParams(req.publicId, timestamp), secret, sha1Hex);
        DestroyStringToSign(req.publicId, timestamp);
        var form := DestroyForm(req.publicId, signature, creds.apiKey.value, timestamp);
        match destroyAnswer
        case Ok(answer) =>
          Destroyed(HostApi + creds.cloudName.value + "/image/destroy", form, answer)
        case Err(message) => Failure(500, message)
      else Failure(400, InvalidAction)
  }

  /** The reply with every signature blanked out. */
  function Redacted(r: UploadReply): UploadReply {
    match r
    case Granted(g) => Granted(g.(signature := ""))
    case Destroyed(url, form, answer) => Destroyed(url, form.(signature := ""), answer)
    case Failure(_, _) => r
  }

  /** The secret reaches the reply only through the signature: two secrets
      give replies that differ in nothing else. */
  lemma SecretOnlyInSignature(
    creds: Credentials, secret: string, req: UploadRequest, nowMs: nat,
    sha1Hex: string -> string, destroyAnswer: Result<string>)
    requires Configured(creds) && secret != ""
    ensures Redacted(Handle(creds, req, nowMs, sha1Hex, destroyAnswer))
         == Redacted(Handle(creds.(apiSecret := Some(secret)), req, nowMs, sha1Hex, destroyAnswer))
  {
  }

  /** The host, recomputing the signature from the parameters the client
      uploads with, in whatever order it lists them, gets the grant's
      signature back. */
  lemma GrantVerifies(
    creds: Credentials, req: UploadRequest, nowMs: nat,
    sha1Hex: string -> string, destroyAnswer: Result<string>, uploaded: Params)
    requires Configured(creds) && req.action == "get_signature"
    requires Handle(creds, req, nowMs, sha1Hex, destroyAnswer).Granted?
    requires
      var g := Handle(creds, req, nowMs, sha1Hex, destroyAnswer).grant;
      uploaded == [("folder", g.folder), ("timestamp", g.timestamp)] ||
      uploaded == [("timestamp", g.timestamp), ("folder", g.folder)]
    ensures
      var g := Handle(creds, req, nowMs, sha1Hex, destroyAnswer).grant;
      Sign(uploaded, creds.apiSecret.value, sha1Hex) == g.signature
  {
    var g := Handle(creds, req, nowMs, sha1Hex, destroyAnswer).grant;
    var p := UploadParams(g.folder, g.timestamp);
    UploadStringToSign(g.folder, g.timestamp);
    assert Keys(uploaded) == [uploaded[0].0, uploaded[1].0];
    assert multiset(uploaded) == multiset(p);
    StringToSignPermutationInvariant(p, uploaded);
  }

  lemma DigitAt(x: string, t: string, k: nat)
    requires |x| <= k < |x| + |t| && Decimal.AllDigits(t)
    ensures Decimal.IsDigit((x + t)[k])
  {
    assert (x + t)[k] == t[k - |x|];
  }

  /** Two strings that each end in `=` followed by digits split alike. */
  lemma DigitTail(x1: string, t1: string, x2: string, t2: string)
    requires |x1| > 0 && x1[|x1| - 1] == '=' && |x2| > 0 && x2[|x2| - 1] == '='
    requires Decimal.AllDigits(t1) && Decimal.AllDigits(t2)
    requires x1 + t1 == x2 + t2
    ensures x1 == x2 && t1 == t2
  {
    var s := x1 + t1;
    if |t1| < |t2| {
      DigitAt(x2, t2, |x1| - 1);
      assert false;
    } else if |t2| < |t1| {
      DigitAt(x1, t1, |x2| - 1);
      assert false;
    } else {
      assert x1 == s[..|x1|] == x2;
      assert t1 == s[|x1|..] == t2;
    }
  }

  /** The signed string determines the folder and the timestamp: a grant
      whose folder or timestamp was tampered with signs a different
      string. */
  lemma UploadStringInjective(folder1: string, ts1: string, folder2: string, ts2: string)
    requires Decimal.AllDigits(ts1) && Decimal.AllDigits(ts2)
    requires StringToSign(UploadParams(folder1, ts1)) == StringToSign(UploadParams(folder2, ts2))
    ensures folder1 == folder2 && ts1 == ts2
  {
    UploadStringToSign(folder1, ts1);
    UploadStringToSign(folder2, ts2);
    var x1 := "folder=" + folder1 + "&timestamp=";
    var x2 := "folder=" + folder2 + "&timestamp=";
    DigitTail(x1, ts1, x2, ts2);
    assert folder1 == x1[7..|x1| - 11];
    assert folder2 == x2[7..|x2| - 11];
  }
}
