/**
 * `GET /api/vault/get`: find the caller's documents and decrypt each of them
 * field by field, keeping the identity fields as they are and falling back to
 * the stored value for a field that does not decrypt.
 */
module GetRoute {

  import opened Wrappers
  import opened Api

  const FetchFailed: string := "Failed to fetch vault items"

  /** One encrypted field after the per-key `try`: its plaintext, or the stored value when decryption throws. */
  function Opened(decrypt: string -> Option<string>, v: Json): (r: Json)
    ensures v.JStr? && decrypt(v.s).Some? ==> r == JStr(decrypt(v.s).value)
    ensures !(v.JStr? && decrypt(v.s).Some?) ==> r == v
  {
    if v.JStr? && decrypt(v.s).Some? then JStr(decrypt(v.s).value) else v
  }

  /**
   * The document the `items.map` callback returns for `d`: every key but
   * `__proto__`, whose assignment creates no own field.
   */
  function DecryptedRecord(decrypt: string -> Option<string>, d: Doc): (r: Doc)
    ensures r.Keys == d.Keys - {ProtoKey}
  {
    map k | k in d && k != ProtoKey :: if k in IdentityKeys then d[k] else Opened(decrypt, d[k])
  }

  /**
   * The `for...in` loop over `item._doc` that fills `decryptedItem`, one key at
   * a time in an order the model leaves open.
   */
  method DecryptItem(d: Doc, decrypt: string -> Option<string>) returns (out: Doc)
    ensures out.Keys == d.Keys - {ProtoKey}
    ensures forall k :: k in d && k in IdentityKeys ==> out[k] == d[k]
    ensures forall k :: k in d && k !in IdentityKeys && k != ProtoKey ==> out[k] == Opened(decrypt, d[k])
    ensures out == DecryptedRecord(decrypt, d)
  {
    out := map[];
    var remaining := d.Keys;
    while remaining != {}
      invariant remaining <= d.Keys
      invariant out.Keys == (d.Keys - remaining) - {ProtoKey}
      invariant forall k :: k in out ==> out[k] == DecryptedRecord(decrypt, d)[k]
      decreases remaining
    {
      var key :| key in remaining;
      if key == "_id" || key == "userId" || key == "__v" {
        out := Assign(out, key, d[key]);
      } else {
        var v := d[key];
        var plain := if v.JStr? then decrypt(v.s) else None;
        if plain.Some? {
          out := Assign(out, key, JStr(plain.value));
        } else {
          out := Assign(out, key, v);
        }
      }
      remaining := remaining - {key};
    }
  }

  /**
   * The route. A missing token is 401; a token that does not verify or a
   * database that cannot be reached is 500. Otherwise the caller's documents,
   * in store order, each decrypted.
   */
  method Get(req: Request, backend: Backend, store: seq<Doc>) returns (resp: Response<seq<Doc>>)
    ensures BearerToken(req.authorization).None? ==> resp == Fail(401, Unauthorized)
    ensures BearerToken(req.authorization).Some? && resp.Fail? ==> resp == Fail(500, FetchFailed)
    ensures resp.Ok? <==>
      BearerToken(req.authorization).Some? && backend.verify(BearerToken(req.authorization).value).Some? &&
      backend.storeUp
    ensures resp.Ok? ==>
      var found := OwnedBy(store, backend.verify(BearerToken(req.authorization).value).value);
      |resp.payload| == |found| &&
      forall i :: 0 <= i < |found| ==> resp.payload[i] == DecryptedRecord(backend.decrypt, found[i])
  {
    var token := BearerToken(req.authorization);
    if token.None? {
      return Fail(401, Unauthorized);
    }
    var decoded := backend.verify(token.value);
    if decoded.None? || !backend.storeUp {
      return Fail(500, FetchFailed);
    }
    var items := OwnedBy(store, decoded.value);
    var decrypted: seq<Doc> := [];
    var i := 0;
    while i < |items|
      invariant 0 <= i <= |items|
      invariant |decrypted| == i
      invariant forall j :: 0 <= j < i ==> decrypted[j] == DecryptedRecord(backend.decrypt, items[j])
    {
      var item := DecryptItem(items[i], backend.decrypt);
      decrypted := decrypted + [item];
      i := i + 1;
    }
    return Ok(decrypted);
  }

  /** Decryption keeps the owner, so every returned document is the caller's. */
  lemma DecryptedStaysOwned(decrypt: string -> Option<string>, uid: string, d: Doc)
    requires OwnedByUser(uid, d)
    ensures OwnedByUser(uid, DecryptedRecord(decrypt, d))
  {
  }

  /** Only the caller's documents come back. */
  lemma OnlyCallersDocuments(decrypt: string -> Option<string>, store: seq<Doc>, uid: string, i: nat)
    requires i < |OwnedBy(store, uid)|
    ensures OwnedByUser(uid, DecryptedRecord(decrypt, OwnedBy(store, uid)[i]))
  {
    var d := OwnedBy(store, uid)[i];
    assert d in OwnedBy(store, uid);
    DecryptedStaysOwned(decrypt, uid, d);
  }

  /** Fields are decrypted independently: changing one stored field changes no other returned field. */
  lemma FieldsIndependent(decrypt: string -> Option<string>, d: Doc, k: string, v: Json, j: string)
    requires j in DecryptedRecord(decrypt, d) && j != k
    ensures DecryptedRecord(decrypt, d[k := v])[j] == DecryptedRecord(decrypt, d)[j]
  {
  }

  /** A returned field other than the identity fields that decrypts comes back as its plaintext. */
  lemma DecryptableOpened(decrypt: string -> Option<string>, d: Doc, k: string, p: string)
    requires k in DecryptedRecord(decrypt, d) && k !in IdentityKeys
    requires d[k].JStr? && decrypt(d[k].s) == Some(p)
    ensures DecryptedRecord(decrypt, d)[k] == JStr(p)
  {
  }

  /** A returned field that does not decrypt comes back as stored. */
  lemma UndecryptableKeptRaw(decrypt: string -> Option<string>, d: Doc, k: string)
    requires k in DecryptedRecord(decrypt, d) && d[k].JStr? && decrypt(d[k].s).None?
    ensures DecryptedRecord(decrypt, d)[k] == d[k]
  {
  }
}
