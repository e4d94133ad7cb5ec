/**
 * `POST /api/vault/add`: take the caller's id from the bearer token, encrypt
 * every field of the JSON body one by one, and store the encrypted fields
 * stamped with the caller's id.
 */
module AddRoute {

  import opened Wrappers
  import opened Api

  const AddFailed: string := "Failed to add vault item"
  const ItemAdded: string := "Item added"

  /** The success payload `{ message, item }`: the stored, still encrypted document. */
  datatype Added = Added(message: string, item: Doc)

  /**
   * The encryption loop throws: calling `body.hasOwnProperty` fails when the
   * body has its own `hasOwnProperty` field (a JSON value is not callable), and
   * `toString` fails on a `null` field or an object field with its own
   * `toString` member.
   */
  predicate LoopThrows(body: Doc)
    ensures LoopThrows(body) ==> body != map[]
  {
    "hasOwnProperty" in body || exists k :: k in body && ToString(body[k]).None?
  }

  /**
   * `enc` holds exactly the body's fields except `__proto__`, each one the
   * encryption of the field's text; every field's text, `__proto__`'s
   * included, was computed without throwing.
   */
  predicate Seals(encrypt: string -> string, body: Doc, enc: map<string, string>)
  {
    enc.Keys == body.Keys - {ProtoKey} &&
    (forall k :: k in body ==> ToString(body[k]).Some?) &&
    forall k :: k in enc ==> enc[k] == encrypt(ToString(body[k]).value)
  }

  /**
   * The `for...in` loop that fills `encryptedData`, one own key at a time, in
   * an order the model leaves open. `None` when the loop throws. The
   * assignment to `encryptedData["__proto__"]` stores nothing.
   */
  method EncryptFields(body: Doc, encrypt: string -> string) returns (enc: Option<map<string, string>>)
    ensures enc.None? <==> LoopThrows(body)
    ensures enc.Some? ==> Seals(encrypt, body, enc.value)
  {
    var encrypted: map<string, string> := map[];
    var remaining := body.Keys;
    while remaining != {}
      invariant remaining <= body.Keys
      invariant encrypted.Keys == (body.Keys - remaining) - {ProtoKey}
      invariant forall k :: k in body.Keys - remaining ==> ToString(body[k]).Some?
      invariant forall k :: k in encrypted ==>
        k in body && ToString(body[k]).Some? && encrypted[k] == encrypt(ToString(body[k]).value)
      invariant remaining != body.Keys ==> "hasOwnProperty" !in body
      decreases remaining
    {
      var key :| key in remaining;
      if "hasOwnProperty" in body {
        return None;
      }
      match ToString(body[key])
      case None =>
        return None;
      case Some(text) =>
        encrypted := Assign(encrypted, key, encrypt(text));
      remaining := remaining - {key};
    }
    return Some(encrypted);
  }

  /** `VaultItem.create({ ...encryptedData, userId })`: the store adds the document id and the version key. */
  function NewRecord(enc: map<string, string>, uid: string, id: string): (d: Doc)
    ensures d.Keys == enc.Keys + IdentityKeys
    ensures OwnedByUser(uid, d) && d["_id"] == JStr(id) && d["__v"] == JNum(0)
    ensures forall k :: k in enc && k !in IdentityKeys ==> d[k] == JStr(enc[k])
  {
    (map k | k in enc :: JStr(enc[k]))["userId" := JStr(uid)]["_id" := JStr(id)]["__v" := JNum(0)]
  }

  /**
   * `item` is what the add route stores for `body` on behalf of `uid`: the body's
   * fields other than `__proto__` plus the identity fields, the owner stamped
   * from the token whatever the body says, and every other field encrypted.
   */
  predicate StoredFrom(encrypt: string -> string, body: Doc, uid: string, id: string, item: Doc)
  {
    item.Keys == (body.Keys - {ProtoKey}) + IdentityKeys &&
    OwnedByUser(uid, item) && item["_id"] == JStr(id) && item["__v"] == JNum(0) &&
    (forall k :: k in body ==> ToString(body[k]).Some?) &&
    forall k :: k in body && k !in IdentityKeys && k != ProtoKey ==>
      item[k] == JStr(encrypt(ToString(body[k]).value))
  }

  /** The encrypted fields, stamped, are a document stored from the body. */
  lemma NewRecordStoredFrom(encrypt: string -> string, body: Doc, enc: map<string, string>, uid: string, id: string)
    requires Seals(encrypt, body, enc)
    ensures StoredFrom(encrypt, body, uid, id, NewRecord(enc, uid, id))
  {
  }

  /** The add route succeeds: a token that verifies, a JSON object body, a reachable database and a loop that does not throw. */
  predicate Accepted(req: Request, backend: Backend)
  {
    BearerToken(req.authorization).Some? && backend.verify(BearerToken(req.authorization).value).Some? &&
    req.body.Some? && backend.storeUp && !LoopThrows(req.body.value)
  }

  /**
   * The route. `newId` is the id the database gives the new document. A
   * missing token is 401; every later failure (token verification, a body
   * that is not JSON, the database, the encryption loop) is the same 500. The
   * store changes only on success, by appending the new document.
   */
  method Post(req: Request, backend: Backend, store: seq<Doc>, newId: string)
    returns (resp: Response<Added>, store': seq<Doc>)
    ensures BearerToken(req.authorization).None? ==> resp == Fail(401, Unauthorized)
    ensures BearerToken(req.authorization).Some? && resp.Fail? ==> resp == Fail(500, AddFailed)
    ensures resp.Ok? <==> Accepted(req, backend)
    ensures resp.Fail? ==> store' == store
    ensures resp.Ok? ==>
      var uid := backend.verify(BearerToken(req.authorization).value).value;
      resp.payload.message == ItemAdded &&
      StoredFrom(backend.encrypt, req.body.value, uid, newId, resp.payload.item) &&
      store' == store + [resp.payload.item]
  {
    store' := store;
    var token := BearerToken(req.authorization);
    if token.None? {
      return Fail(401, Unauthorized), store';
    }
    var decoded := backend.verify(token.value);
    if decoded.None? {
      return Fail(500, AddFailed), store';
    }
    if req.body.None? || !backend.storeUp {
      return Fail(500, AddFailed), store';
    }
    var encrypted := EncryptFields(req.body.value, backend.encrypt);
    if encrypted.None? {
      return Fail(500, AddFailed), store';
    }
    var item := NewRecord(encrypted.value, decoded.value, newId);
    NewRecordStoredFrom(backend.encrypt, req.body.value, encrypted.value, decoded.value, newId);
    store' := store + [item];
    resp := Ok(Added(ItemAdded, item));
  }

  /** A body's own `userId` never decides the owner: the token's id is stored. */
  lemma OwnerFromTokenOnly(encrypt: string -> string, body: Doc, uid: string, id: string, item: Doc)
    requires StoredFrom(encrypt, body, uid, id, item)
    requires "userId" in body
    ensures item["userId"] == JStr(uid)
  {
  }

  /** Fields the body does not have are not invented: the stored keys are the body's and the identity keys. */
  lemma NoFieldInvented(encrypt: string -> string, body: Doc, uid: string, id: string, item: Doc, k: string)
    requires StoredFrom(encrypt, body, uid, id, item)
    requires k !in body && k !in IdentityKeys
    ensures k !in item
  {
  }

  /** A body field named `__proto__` is not stored. */
  lemma ProtoKeyDropped(encrypt: string -> string, body: Doc, uid: string, id: string, item: Doc)
    requires StoredFrom(encrypt, body, uid, id, item)
    ensures ProtoKey !in item
  {
  }

  /**
   * No field other than the identity keys is kept as the body's text when the
   * cipher never returns its input: every such field but `__proto__` is stored
   * encrypted, and `__proto__` is not stored.
   */
  lemma NothingStoredInPlaintext(encrypt: string -> string, body: Doc, uid: string, id: string, item: Doc, k: string)
    requires StoredFrom(encrypt, body, uid, id, item)
    requires forall s :: encrypt(s) != s
    requires k in body && k !in IdentityKeys
    ensures k in item <==> k != ProtoKey
    ensures k in item ==> item[k] != JStr(ToString(body[k]).value)
  {
    var text := ToString(body[k]).value;
    assert encrypt(text) != text;
  }
}
