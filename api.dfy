/**
 * What the two vault routes share: JSON values and stored documents, the
 * request and response shapes, the backend services the routes call into
 * (token verifier, cipher, database), bearer-token extraction and the
 * owner-scoped `find`.
 */
module Api {

  import opened Wrappers
  import JsStrings
  import Seqs

  /**
   * A JSON value with integer numbers. An object's members are not kept, except
   * whether it has its own `toString` member: a JSON value is never callable,
   * so such an object's `toString()` throws; any other object converts to the
   * same text.
   */
  datatype Json = JStr(s: string) | JNum(n: int) | JBool(b: bool) | JNull | JObject(ownToString: bool)

  /** A JSON object or a stored document: field name to value. */
  type Doc = map<string, Json>

  /** `v.toString()`: `None` when it throws, which is for `null` and for an object with its own `toString` member. */
  function ToString(v: Json): (r: Option<string>)
    ensures r.None? <==> v.JNull? || (v.JObject? && v.ownToString)
    ensures v.JStr? ==> r == Some(v.s)
  {
    match v
    case JStr(s) => Some(s)
    case JNum(n) => Some(JsStrings.IntToString(n))
    case JBool(b) => Some(if b then "true" else "false")
    case JNull => None
    case JObject(ownToString) => if ownToString then None else Some("[object Object]")
  }

  /** Distinct numbers convert to distinct texts. */
  lemma NumberTextsDistinct(a: int, b: int)
    requires a != b
    ensures ToString(JNum(a)) != ToString(JNum(b))
  {
    if ToString(JNum(a)) == ToString(JNum(b)) {
      JsStrings.IntToStringInjective(a, b);
    }
  }

  /** The request as the routes see it: its `Authorization` header and its JSON object body, `None` when `req.json()` throws. */
  datatype Request = Request(authorization: Option<string>, body: Option<Doc>)

  /** A route's answer: the JSON payload with status 200, or an error status with its `error` text. */
  datatype Response<T> = Ok(payload: T) | Fail(status: nat, error: string)

  const Unauthorized: string := "Unauthorized"

  /**
   * The services behind the routes. `verify` is `jwt.verify` (the token's
   * `userId`, `None` when it throws), `encrypt`/`decrypt` are AES under the
   * server key (`decrypt` is `None` when it throws), and `storeUp` says whether
   * connecting to and writing the database succeeds.
   */
  datatype Backend = Backend(verify: string -> Option<string>, encrypt: string -> string,
                             decrypt: string -> Option<string>, storeUp: bool)

  /** The cipher's round-trip property: decryption undoes encryption. */
  ghost predicate CipherRoundTrips(b: Backend)
  {
    forall s :: b.decrypt(b.encrypt(s)) == Some(s)
  }

  /**
   * `req.headers.get("authorization")?.split(" ")[1]`, kept only when it is
   * truthy: the second space-separated piece of the header.
   */
  function BearerToken(authorization: Option<string>): (token: Option<string>)
    ensures token.Some? ==> token.value != "" && ' ' !in token.value
  {
    match authorization
    case None => None
    case Some(header) =>
      var parts := JsStrings.Split(header, ' ');
      if |parts| >= 2 && parts[1] != "" then Some(parts[1]) else None
  }

  /** The client's `Bearer ${token}` header yields the token back; the scheme word itself is not checked. */
  lemma BearerRoundTrip(scheme: string, token: string)
    requires ' ' !in scheme && ' ' !in token && token != ""
    ensures BearerToken(Some(scheme + " " + token)) == Some(token)
  {
    JsStrings.SplitTwo(scheme, token, ' ');
    assert scheme + " " + token == scheme + [' '] + token;
  }

  /** A header without a space carries no token. */
  lemma NoTokenWithoutSpace(header: string)
    requires ' ' !in header
    ensures BearerToken(Some(header)) == None
  {
    assert JsStrings.IndexOf(header, ' ') == |header|;
  }

  /** Nothing, or a second space, right after the first space leaves the token empty, which is refused. */
  lemma NoTokenAfterDoubleSpace(scheme: string, rest: string)
    requires ' ' !in scheme && (rest == [] || rest[0] == ' ')
    ensures BearerToken(Some(scheme + " " + rest)) == None
  {
    var header := scheme + " " + rest;
    assert header[|scheme|] == ' ';
    assert forall j :: 0 <= j < |scheme| ==> header[j] == scheme[j];
    assert JsStrings.IndexOf(header, ' ') == |scheme|;
    assert header[..|scheme|] == scheme && header[|scheme| + 1..] == rest;
    if rest != [] {
      assert JsStrings.IndexOf(rest, ' ') == 0;
    }
    assert JsStrings.Split(header, ' ') == [scheme] + JsStrings.Split(rest, ' ');
    assert JsStrings.Split(rest, ' ')[0] == [];
  }

  /** The fields the routes never encrypt: the document id, the owner and the version key. */
  const IdentityKeys: set<string> := {"_id", "userId", "__v"}

  /**
   * The key that a JavaScript assignment never makes an own field of a plain
   * object: `obj["__proto__"] = v` runs `Object.prototype`'s setter, which
   * ignores a string and turns an object into the prototype.
   */
  const ProtoKey: string := "__proto__"

  /** `obj[key] = v` on a plain object, as the routes' loops fill `encryptedData` and `decryptedItem`. */
  function Assign<V>(obj: map<string, V>, key: string, v: V): (r: map<string, V>)
    ensures key == ProtoKey ==> r == obj
    ensures key != ProtoKey ==> r.Keys == obj.Keys + {key} && r[key] == v
    ensures forall k :: k in obj && k != key ==> k in r && r[k] == obj[k]
  {
    if key == ProtoKey then obj else obj[key := v]
  }

  /** The document belongs to `uid`. */
  predicate OwnedByUser(uid: string, d: Doc)
  {
    "userId" in d && d["userId"] == JStr(uid)
  }

  /** `VaultItem.find({ userId })`: the documents of `uid`, in store order. */
  function OwnedBy(store: seq<Doc>, uid: string): (r: seq<Doc>)
    ensures |r| <= |store|
    ensures forall d :: d in r ==> d in store && OwnedByUser(uid, d)
  {
    Seqs.Filter(store, d => OwnedByUser(uid, d))
  }

  /** Every document of `uid` in the store is found. */
  lemma OwnedByComplete(store: seq<Doc>, uid: string, d: Doc)
    requires d in store && OwnedByUser(uid, d)
    ensures d in OwnedBy(store, uid)
  {
    Seqs.FilterComplete(store, d => OwnedByUser(uid, d), d);
  }

  /** The found documents keep their store order. */
  lemma OwnedByKeepsOrder(store: seq<Doc>, uid: string)
    ensures Seqs.IsSubsequence(OwnedBy(store, uid), store)
  {
    Seqs.FilterIsSubsequence(store, d => OwnedByUser(uid, d));
  }

  /** Appending a document extends the owner's list by it and leaves every other owner's list as it was. */
  lemma OwnedByAppend(store: seq<Doc>, d: Doc, uid: string)
    ensures OwnedBy(store + [d], uid) == OwnedBy(store, uid) + (if OwnedByUser(uid, d) then [d] else [])
  {
    Seqs.FilterAppend(store, [d], x => OwnedByUser(uid, x));
    assert Seqs.Filter([d], x => OwnedByUser(uid, x)) == (if OwnedByUser(uid, d) then [d] else []) + Seqs.Filter([], x => OwnedByUser(uid, x));
  }
}
