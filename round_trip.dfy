/**
 * The two routes together: what the add route stores, the get route gives
 * back to the same owner as the body's field texts.
 */
module RoundTrip {

  import opened Wrappers
  import opened Api
  import opened AddRoute
  import opened GetRoute

  /**
   * A stored document decrypts to the body it was stored from: the body's
   * keys but `__proto__` plus the identity keys, the caller as owner, and
   * every other body field as its text.
   */
  lemma StoredDocumentOpens(backend: Backend, body: Doc, uid: string, id: string, item: Doc)
    requires CipherRoundTrips(backend)
    requires StoredFrom(backend.encrypt, body, uid, id, item)
    ensures DecryptedRecord(backend.decrypt, item).Keys == (body.Keys - {ProtoKey}) + IdentityKeys
    ensures OwnedByUser(uid, DecryptedRecord(backend.decrypt, item))
    ensures forall k :: k in body && k !in IdentityKeys && k != ProtoKey ==>
      DecryptedRecord(backend.decrypt, item)[k] == JStr(ToString(body[k]).value)
  {
    forall k | k in body && k !in IdentityKeys && k != ProtoKey
      ensures DecryptedRecord(backend.decrypt, item)[k] == JStr(ToString(body[k]).value)
    {
      var text := ToString(body[k]).value;
      assert backend.decrypt(backend.encrypt(text)) == Some(text);
    }
  }

  /**
   * Adding and then listing with the same header: the list is the owner's
   * earlier list, decrypted, followed by the new document, whose fields read
   * back as the body's texts.
   */
  method AddThenGet(req: Request, backend: Backend, store: seq<Doc>, newId: string)
    returns (added: Response<Added>, listed: Response<seq<Doc>>)
    requires CipherRoundTrips(backend)
    ensures added.Ok? <==> Accepted(req, backend)
    ensures Accepted(req, backend) ==> listed.Ok?
    ensures Accepted(req, backend) ==>
      var uid := backend.verify(BearerToken(req.authorization).value).value;
      var before := OwnedBy(store, uid);
      var body := req.body.value;
      listed.Ok? && |listed.payload| == |before| + 1 &&
      (forall i :: 0 <= i < |before| ==> listed.payload[i] == DecryptedRecord(backend.decrypt, before[i])) &&
      listed.payload[|before|].Keys == (body.Keys - {ProtoKey}) + IdentityKeys &&
      OwnedByUser(uid, listed.payload[|before|]) &&
      forall k :: k in body && k !in IdentityKeys && k != ProtoKey ==> listed.payload[|before|][k] == JStr(ToString(body[k]).value)
  {
    var store';
    added, store' := Post(req, backend, store, newId);
    listed := Get(req, backend, store');
    if added.Ok? {
      var uid := backend.verify(BearerToken(req.authorization).value).value;
      var item := added.payload.item;
      OwnedByAppend(store, item, uid);
      StoredDocumentOpens(backend, req.body.value, uid, newId, item);
    }
  }

  /** Adding for one owner leaves every other owner's list unchanged. */
  lemma OtherOwnersUnaffected(encrypt: string -> string, body: Doc, uid: string, id: string, item: Doc,
                              store: seq<Doc>, other: string)
    requires StoredFrom(encrypt, body, uid, id, item)
    requires other != uid
    ensures OwnedBy(store + [item], other) == OwnedBy(store, other)
  {
    OwnedByAppend(store, item, other);
  }
}
