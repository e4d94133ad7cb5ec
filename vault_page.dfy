/**
 * The vault page's list bookkeeping: the search filter, merging an edit into
 * the items with the same id, appending an added item, deleting by id, and
 * filling the form from an item. The page's state lives in `Page`; each
 * handler ends with the search effect, which React runs because the handler
 * changed `items`.
 */
module VaultPage {

  import opened Wrappers
  import JsStrings
  import Seqs
  import opened Api
  import AddRoute
  import GetRoute
  import RoundTrip

  /** `VaultItemType` as the page reads it from JSON: a field is present only when it is a string. */
  datatype Item = Item(id: Option<string>, title: Option<string>, username: Option<string>,
                       password: Option<string>, url: Option<string>, notes: Option<string>)

  /** `FormType`: the five text inputs of the modal. */
  datatype Form = Form(title: string, username: string, password: string, url: string, notes: string)

  const EmptyForm: Form := Form("", "", "", "", "")

  /** A string-valued field of a JSON object. */
  function Field(d: Doc, k: string): (r: Option<string>)
    ensures r.Some? <==> k in d && d[k].JStr?
    ensures r.Some? ==> d[k] == JStr(r.value)
  {
    if k in d && d[k].JStr? then Some(d[k].s) else None
  }

  /** A JSON object read as a `VaultItemType`. */
  function ItemOfJson(d: Doc): (r: Item)
  {
    Item(Field(d, "_id"), Field(d, "title"), Field(d, "username"),
         Field(d, "password"), Field(d, "url"), Field(d, "notes"))
  }

  /** `JSON.stringify(form)`, the body the page sends. */
  function FormJson(f: Form): (d: Doc)
    ensures d.Keys == {"title", "username", "password", "url", "notes"}
    ensures Field(d, "title") == Some(f.title) && Field(d, "username") == Some(f.username)
    ensures Field(d, "password") == Some(f.password) && Field(d, "url") == Some(f.url)
    ensures Field(d, "notes") == Some(f.notes)
  {
    map["title" := JStr(f.title), "username" := JStr(f.username), "password" := JStr(f.password),
        "url" := JStr(f.url), "notes" := JStr(f.notes)]
  }

  // ---------------------------------------------------------------- search

  /** The search predicate: the lowercased title or, failing that, the lowercased username contains the lowercased query. */
  predicate Matches(i: Item, query: string)
    ensures Matches(i, query) ==> i.title.Some? || i.username.Some?
  {
    var q := JsStrings.Lower(query);
    (i.title.Some? && JsStrings.Includes(JsStrings.Lower(i.title.value), q)) ||
    (i.username.Some? && JsStrings.Includes(JsStrings.Lower(i.username.value), q))
  }

  /** The search effect's `items.filter(...)`. */
  function Search(items: seq<Item>, query: string): (r: seq<Item>)
    ensures |r| <= |items|
    ensures forall i :: i in r ==> i in items && Matches(i, query)
  {
    Seqs.Filter(items, i => Matches(i, query))
  }

  /** An item is listed exactly when it is one of the items and matches the query. */
  lemma SearchMembers(items: seq<Item>, query: string, i: Item)
    ensures i in Search(items, query) <==> i in items && Matches(i, query)
  {
    if i in items && Matches(i, query) {
      Seqs.FilterComplete(items, x => Matches(x, query), i);
    }
  }

  /** The listed items keep the order of `items`. */
  lemma SearchKeepsOrder(items: seq<Item>, query: string)
    ensures Seqs.IsSubsequence(Search(items, query), items)
  {
    Seqs.FilterIsSubsequence(items, i => Matches(i, query));
  }

  /** The empty query lists exactly the items that have a title or a username. */
  lemma EmptyQueryMatches(i: Item)
    ensures Matches(i, "") <==> i.title.Some? || i.username.Some?
  {
    if i.title.Some? {
      JsStrings.IncludesAt(JsStrings.Lower(i.title.value), "");
    }
    if i.username.Some? {
      JsStrings.IncludesAt(JsStrings.Lower(i.username.value), "");
    }
  }

  /** An item with neither a title nor a username is never listed, whatever the query. */
  lemma UntitledNeverListed(items: seq<Item>, query: string, i: Item)
    requires i.title.None? && i.username.None?
    ensures i !in Search(items, query)
  {
    SearchMembers(items, query, i);
  }

  /** The search ignores the case of the query. */
  lemma SearchIgnoresQueryCase(items: seq<Item>, query: string)
    ensures Search(items, JsStrings.Lower(query)) == Search(items, query)
  {
    JsStrings.LowerIdempotent(query);
    Seqs.FilterAgree(items, i => Matches(i, JsStrings.Lower(query)), i => Matches(i, query));
  }

  /** Searching what a search listed, with the same query, changes nothing. */
  lemma SearchIdempotent(items: seq<Item>, query: string)
    ensures Search(Search(items, query), query) == Search(items, query)
  {
    var listed := Search(items, query);
    forall i | i in listed
      ensures Matches(i, query)
    {
      SearchMembers(items, query, i);
    }
    Seqs.FilterKeepsAll(listed, i => Matches(i, query));
  }

  // ----------------------------------------------------------- list edits

  /** `{ ...i, ...form }`: the form's five fields over the item's, the id kept. */
  function Merge(i: Item, f: Form): (r: Item)
    ensures r.id == i.id
    ensures r.title == Some(f.title) && r.username == Some(f.username) && r.password == Some(f.password)
    ensures r.url == Some(f.url) && r.notes == Some(f.notes)
  {
    i.(title := Some(f.title), username := Some(f.username), password := Some(f.password),
       url := Some(f.url), notes := Some(f.notes))
  }

  /**
   * `handleEdit`'s form: each field is the item's, or `""` when the item lacks it
   * (`item.title || ""`; an empty string gives `""` either way).
   */
  function FormOf(i: Item): (f: Form)
    ensures i.title.Some? ==> f.title == i.title.value
    ensures i.title.None? ==> f.title == ""
    ensures i.username.Some? ==> f.username == i.username.value
    ensures i.username.None? ==> f.username == ""
    ensures i.password.Some? ==> f.password == i.password.value
    ensures i.password.None? ==> f.password == ""
    ensures i.url.Some? ==> f.url == i.url.value
    ensures i.url.None? ==> f.url == ""
    ensures i.notes.Some? ==> f.notes == i.notes.value
    ensures i.notes.None? ==> f.notes == ""
  {
    Form(i.title.GetOr(""), i.username.GetOr(""), i.password.GetOr(""), i.url.GetOr(""), i.notes.GetOr(""))
  }

  /** The form an edit produced is the form of the edited item. */
  lemma FormOfMerge(i: Item, f: Form)
    ensures FormOf(Merge(i, f)) == f
    ensures Merge(i, f).id == i.id
  {
  }

  /** Saving an untouched form changes an item that has all five fields in nothing. */
  lemma MergeFormOf(i: Item)
    requires i.title.Some? && i.username.Some? && i.password.Some? && i.url.Some? && i.notes.Some?
    ensures Merge(i, FormOf(i)) == i
  {
  }

  /** `prev.map(i => i._id === editItem._id ? { ...i, ...form } : i)`. */
  function ReplaceEdited(items: seq<Item>, id: Option<string>, f: Form): (r: seq<Item>)
    ensures |r| == |items|
    ensures forall k :: 0 <= k < |items| ==> r[k].id == items[k].id
    ensures forall k :: 0 <= k < |items| && items[k].id != id ==> r[k] == items[k]
    ensures forall k :: 0 <= k < |items| && items[k].id == id ==> r[k] == Merge(items[k], f) && FormOf(r[k]) == f
  {
    seq(|items|, k requires 0 <= k < |items| => if items[k].id == id then Merge(items[k], f) else items[k])
  }

  /** Saving the same edit twice is saving it once. */
  lemma ReplaceEditedIdempotent(items: seq<Item>, id: Option<string>, f: Form)
    ensures ReplaceEdited(ReplaceEdited(items, id, f), id, f) == ReplaceEdited(items, id, f)
  {
  }

  /** An edited item has a title and a username, so the empty query still lists it. */
  lemma ReplaceEditedListed(items: seq<Item>, id: Option<string>, f: Form, k: nat)
    requires k < |items| && items[k].id == id
    ensures ReplaceEdited(items, id, f)[k] in Search(ReplaceEdited(items, id, f), "")
  {
    var r := ReplaceEdited(items, id, f);
    EmptyQueryMatches(r[k]);
    SearchMembers(r, "", r[k]);
  }

  /** `prev.filter(i => i._id !== id)`. */
  function WithoutId(items: seq<Item>, id: Option<string>): (r: seq<Item>)
    ensures |r| <= |items|
    ensures forall i :: i in r ==> i in items && i.id != id
  {
    Seqs.Filter(items, (i: Item) => i.id != id)
  }

  /** Deleting keeps exactly the items with another id, in their order. */
  lemma WithoutIdMembers(items: seq<Item>, id: Option<string>, i: Item)
    ensures i in WithoutId(items, id) <==> i in items && i.id != id
    ensures Seqs.IsSubsequence(WithoutId(items, id), items)
  {
    if i in items && i.id != id {
      Seqs.FilterComplete(items, (x: Item) => x.id != id, i);
    }
    Seqs.FilterIsSubsequence(items, (x: Item) => x.id != id);
  }

  /** Deleting an id no item has changes nothing. */
  lemma WithoutAbsentId(items: seq<Item>, id: Option<string>)
    requires forall k :: 0 <= k < |items| ==> items[k].id != id
    ensures WithoutId(items, id) == items
  {
    Seqs.FilterKeepsAll(items, (i: Item) => i.id != id);
  }

  /** Deletion and search commute: deleting from the listed items is listing the remaining items. */
  lemma DeleteThenSearch(items: seq<Item>, id: Option<string>, query: string)
    ensures WithoutId(Search(items, query), id) == Search(WithoutId(items, id), query)
  {
    FilterCommute(items, i => Matches(i, query), (i: Item) => i.id != id);
  }

  /** Two filters applied in either order give the same sequence. */
  lemma {:induction false} FilterCommute<T>(s: seq<T>, p: T -> bool, q: T -> bool)
    ensures Seqs.Filter(Seqs.Filter(s, p), q) == Seqs.Filter(Seqs.Filter(s, q), p)
  {
    if s != [] {
      FilterCommute(s[1..], p, q);
      Seqs.FilterAppend([s[0]], s[1..], p);
      Seqs.FilterAppend([s[0]], s[1..], q);
      assert s == [s[0]] + s[1..];
      var fp := Seqs.Filter([s[0]], p);
      var fq := Seqs.Filter([s[0]], q);
      assert Seqs.Filter([s[0]], p) == (if p(s[0]) then [s[0]] else []) + Seqs.Filter([], p);
      assert Seqs.Filter([s[0]], q) == (if q(s[0]) then [s[0]] else []) + Seqs.Filter([], q);
      Seqs.FilterAppend(fp, Seqs.Filter(s[1..], p), q);
      Seqs.FilterAppend(fq, Seqs.Filter(s[1..], q), p);
      assert Seqs.Filter(fp, q) == Seqs.Filter(fq, p) by {
        if p(s[0]) {
          assert Seqs.Filter([s[0]], q) == (if q(s[0]) then [s[0]] else []) + Seqs.Filter([], q);
        }
        if q(s[0]) {
          assert Seqs.Filter([s[0]], p) == (if p(s[0]) then [s[0]] else []) + Seqs.Filter([], p);
        }
      }
    }
  }

  // -------------------------------------------------------------- requests

  /** A `fetch` call the page makes: verb, URL, authorization header and JSON body. */
  datatype Fetch = Fetch(verb: string, url: string, authorization: string, body: Option<Doc>)

  /** A template-literal `${id}`: an absent id is spelled `undefined`. */
  function IdText(id: Option<string>): string
  {
    match id
    case Some(s) => s
    case None => "undefined"
  }

  /** `handleAddEdit`'s request: `PATCH` to the update route when editing, otherwise `POST` to the add route. */
  function SaveRequest(editItem: Option<Item>, f: Form, token: string): (r: Fetch)
    ensures editItem.Some? ==> r.verb == "PATCH" && r.url == "/api/vault/update/" + IdText(editItem.value.id)
    ensures editItem.None? ==> r.verb == "POST" && r.url == "/api/vault/add"
    ensures r.body == Some(FormJson(f))
  {
    var auth := "Bearer " + token;
    if editItem.Some? then Fetch("PATCH", "/api/vault/update/" + IdText(editItem.value.id), auth, Some(FormJson(f)))
    else Fetch("POST", "/api/vault/add", auth, Some(FormJson(f)))
  }

  /** `handleDelete`'s request. */
  function DeleteRequest(id: Option<string>, token: string): (r: Fetch)
    ensures r.verb == "DELETE" && r.url == "/api/vault/delete/" + IdText(id) && r.body == None
  {
    Fetch("DELETE", "/api/vault/delete/" + IdText(id), "Bearer " + token, None)
  }

  /** The routes read the page's token back from its `Bearer` header. */
  lemma HeaderCarriesToken(editItem: Option<Item>, f: Form, token: string)
    requires token != "" && ' ' !in token
    ensures BearerToken(Some(SaveRequest(editItem, f, token).authorization)) == Some(token)
  {
    BearerRoundTrip("Bearer", token);
    assert "Bearer " + token == "Bearer" + " " + token;
  }

  // --------------------------------------------------- the appended item

  /** The JSON the add route answers with, `{ message, item }`. */
  function AddedJson(r: AddRoute.Added): (d: Doc)
    ensures d.Keys == {"message", "item"}
  {
    map["message" := JStr(r.message), "item" := JObject(false)]
  }

  /** The page appends that answer itself, read as an item: it has no id, title or username. */
  lemma AddedJsonIsBlank(r: AddRoute.Added)
    ensures ItemOfJson(AddedJson(r)) == Item(None, None, None, None, None, None)
  {
  }

  /** So the appended answer never survives the search effect, whatever the query: the list looks unchanged. */
  lemma AppendedAnswerHidden(items: seq<Item>, r: AddRoute.Added, query: string)
    ensures Search(items + [ItemOfJson(AddedJson(r))], query) == Search(items, query)
  {
    var blank := ItemOfJson(AddedJson(r));
    AddedJsonIsBlank(r);
    Seqs.FilterAppend(items, [blank], i => Matches(i, query));
    assert Seqs.Filter([blank], i => Matches(i, query)) == Seqs.Filter([], i => Matches(i, query));
  }

  /** The item the page means to append: the stored document's id with the form's plaintext fields. */
  function AddedItem(r: AddRoute.Added, f: Form): (i: Item)
    ensures i.id == Field(r.item, "_id")
    ensures i.title == Some(f.title) && i.username == Some(f.username) && i.password == Some(f.password)
    ensures i.url == Some(f.url) && i.notes == Some(f.notes)
    ensures FormOf(i) == f
  {
    Merge(ItemOfJson(r.item), f)
  }

  /** The corrected item has a title, so the empty query lists it, and it is listed whenever the title matches. */
  lemma AddedItemListed(items: seq<Item>, r: AddRoute.Added, f: Form, query: string)
    requires JsStrings.Includes(JsStrings.Lower(f.title), JsStrings.Lower(query)) || query == ""
    ensures AddedItem(r, f) in Search(items + [AddedItem(r, f)], query)
  {
    var i := AddedItem(r, f);
    if query == "" {
      EmptyQueryMatches(i);
    }
    SearchMembers(items + [i], query, i);
  }

  /** A string field of a stored body comes back from the get route as it was sent. */
  lemma FieldOpens(backend: Backend, body: Doc, uid: string, id: string, stored: Doc, k: string)
    requires CipherRoundTrips(backend)
    requires AddRoute.StoredFrom(backend.encrypt, body, uid, id, stored)
    requires k in body && body[k].JStr? && k !in IdentityKeys && k != ProtoKey
    ensures Field(GetRoute.DecryptedRecord(backend.decrypt, stored), k) == Field(body, k)
  {
    RoundTrip.StoredDocumentOpens(backend, body, uid, id, stored);
  }

  /** The get route copies the document id as stored. */
  lemma IdKept(decrypt: string -> Option<string>, stored: Doc)
    ensures Field(GetRoute.DecryptedRecord(decrypt, stored), "_id") == Field(stored, "_id")
  {
    assert "_id" in IdentityKeys && "_id" != ProtoKey;
  }

  /** The reload of a stored body that carries the form's five texts is the corrected item. */
  lemma ReloadedItemOf(backend: Backend, body: Doc, f: Form, uid: string, id: string, stored: Doc)
    requires CipherRoundTrips(backend)
    requires AddRoute.StoredFrom(backend.encrypt, body, uid, id, stored)
    requires Field(body, "title") == Some(f.title) && Field(body, "username") == Some(f.username)
    requires Field(body, "password") == Some(f.password) && Field(body, "url") == Some(f.url)
    requires Field(body, "notes") == Some(f.notes)
    ensures ItemOfJson(GetRoute.DecryptedRecord(backend.decrypt, stored)) ==
            AddedItem(AddRoute.Added(AddRoute.ItemAdded, stored), f)
  {
    FieldOpens(backend, body, uid, id, stored, "title");
    FieldOpens(backend, body, uid, id, stored, "username");
    FieldOpens(backend, body, uid, id, stored, "password");
    FieldOpens(backend, body, uid, id, stored, "url");
    FieldOpens(backend, body, uid, id, stored, "notes");
    IdKept(backend.decrypt, stored);
  }

  /**
   * The corrected item is what the get route gives back for the stored
   * document: adding the form shows the same entry a reload would.
   */
  lemma AddedItemIsReloadedItem(backend: Backend, f: Form, uid: string, id: string, stored: Doc)
    requires CipherRoundTrips(backend)
    requires AddRoute.StoredFrom(backend.encrypt, FormJson(f), uid, id, stored)
    ensures ItemOfJson(GetRoute.DecryptedRecord(backend.decrypt, stored)) ==
            AddedItem(AddRoute.Added(AddRoute.ItemAdded, stored), f)
  {
    ReloadedItemOf(backend, FormJson(f), f, uid, id, stored);
  }

  // ------------------------------------------------------------- the page

  /** `!token` is false: the stored login token is present and not the empty string. */
  predicate LoggedIn(token: Option<string>)
  {
    token.Some? && token.value != ""
  }

  /** The page component's state. */
  class Page {
    var items: seq<Item>
    var filtered: seq<Item>
    var search: string
    var modalOpen: bool
    var editItem: Option<Item>
    var form: Form

    /** After the search effect has run, the displayed list is the search over the items. */
    predicate Valid()
      reads this
    {
      filtered == Search(items, search)
    }

    /** The initial state: nothing loaded, empty search and form, modal closed. */
    constructor ()
      ensures Valid()
      ensures items == [] && filtered == [] && search == ""
      ensures !modalOpen && editItem == None && form == EmptyForm
    {
      items, filtered, search := [], [], "";
      modalOpen, editItem, form := false, None, EmptyForm;
    }

    /** The effect on `[search, items]`. */
    method RefreshFiltered()
      modifies this
      ensures Valid()
      ensures filtered == Search(items, search)
      ensures items == old(items) && search == old(search) && modalOpen == old(modalOpen)
      ensures editItem == old(editItem) && form == old(form)
    {
      filtered := Search(items, search);
    }

    /** Typing into the search box, followed by the effect. */
    method SetSearch(query: string)
      modifies this
      ensures Valid()
      ensures search == query && filtered == Search(items, query)
      ensures items == old(items) && modalOpen == old(modalOpen)
      ensures editItem == old(editItem) && form == old(form)
    {
      search := query;
      RefreshFiltered();
    }

    /**
     * `handleAddEdit`. `token` is the stored login token, `ok` whether the
     * server accepted the request and `answer` the add route's payload. Returns
     * the request sent, `None` when there is no token or it is empty. On success an edit merges
     * the form into every item with the edited item's id, an add appends the
     * stored item with the form's fields, and the form and modal are reset.
     */
    method HandleAddEdit(token: Option<string>, ok: bool, answer: AddRoute.Added) returns (sent: Option<Fetch>)
      requires Valid()
      modifies this
      ensures Valid()
      ensures !LoggedIn(token) ==> sent == None
      ensures LoggedIn(token) ==> sent == Some(SaveRequest(old(editItem), old(form), token.value))
      ensures search == old(search)
      ensures !LoggedIn(token) || !ok ==>
        items == old(items) && modalOpen == old(modalOpen) && editItem == old(editItem) && form == old(form)
      ensures LoggedIn(token) && ok && old(editItem).Some? ==>
        items == ReplaceEdited(old(items), old(editItem).value.id, old(form))
      ensures LoggedIn(token) && ok && old(editItem).None? ==>
        items == old(items) + [AddedItem(answer, old(form))]
      ensures LoggedIn(token) && ok ==> !modalOpen && editItem == None && form == EmptyForm
    {
      if !LoggedIn(token) {
        return None;
      }
      sent := Some(SaveRequest(editItem, form, token.value));
      if !ok {
        return;
      }
      if editItem.Some? {
        items := ReplaceEdited(items, editItem.value.id, form);
        filtered := ReplaceEdited(filtered, editItem.value.id, form);
      } else {
        var added := AddedItem(answer, form);
        items := items + [added];
        filtered := filtered + [added];
      }
      modalOpen := false;
      editItem := None;
      form := EmptyForm;
      RefreshFiltered();
    }

    /**
     * `handleDelete`. Nothing is sent without a non-empty token or when the user does
     * not confirm; on success every item with the id is removed.
     */
    method HandleDelete(id: Option<string>, token: Option<string>, confirmed: bool, ok: bool)
      returns (sent: Option<Fetch>)
      requires Valid()
      modifies this
      ensures Valid()
      ensures sent == (if LoggedIn(token) && confirmed then Some(DeleteRequest(id, token.value)) else None)
      ensures items == (if sent.Some? && ok then WithoutId(old(items), id) else old(items))
      ensures search == old(search) && modalOpen == old(modalOpen)
      ensures editItem == old(editItem) && form == old(form)
    {
      if !LoggedIn(token) || !confirmed {
        return None;
      }
      sent := Some(DeleteRequest(id, token.value));
      if ok {
        items := WithoutId(items, id);
        filtered := WithoutId(filtered, id);
        RefreshFiltered();
      }
    }

    /** `handleEdit`: remember the item, fill the form from it and open the modal. */
    method HandleEdit(item: Item)
      requires Valid()
      modifies this
      ensures Valid()
      ensures editItem == Some(item) && form == FormOf(item) && modalOpen
      ensures items == old(items) && filtered == old(filtered) && search == old(search)
    {
      editItem := Some(item);
      form := FormOf(item);
      modalOpen := true;
    }
  }
}
