# Vault: a verified model of the password generator, the vault routes and the vault page

The Vault app is a small Next.js password manager. This project models its four
pieces of sequential logic in Dafny and proves what each promises.

- **Password generator** (`generatePassword`, module `Generator`):
  - builds the alphabet from the upper-case, lower-case, digit and symbol classes;
  - optionally removes the look-alikes `O I o l 0 1`;
  - draws `length` characters.
  `Math.random()` is replaced by `random`, a sequence of indices into the alphabet.
- **Add route** (`POST /api/vault/add`, module `AddRoute`):
  - takes the token from the `Authorization` header;
  - encrypts every field of the JSON body in a `for...in` loop;
  - stores the result stamped with the verified caller's id;
  - maps a missing token to 401 and every later failure to one 500.
- **Get route** (`GET /api/vault/get`, module `GetRoute`):
  - finds the caller's documents in store order;
  - decrypts each field independently, keeping `_id`, `userId` and `__v` as stored;
  - falls back to the stored value when a field does not decrypt.
- **Round trip** (module `RoundTrip`): adding and then listing with the same
  header gives the owner's earlier list followed by the new document. Under the
  cipher's round-trip property, the new document's fields read back as the
  body's texts.
- **Vault page** (module `VaultPage`): a `Page` class holds the component's
  `items`, `filtered`, `search`, `modalOpen`, `editItem` and `form` state. Its
  methods are the handlers `handleAddEdit`, `handleDelete` and `handleEdit`.
  A handler that changes `items` ends with the search effect React then runs;
  `handleEdit` leaves `items` alone and so needs no such step. The
  list transforms are pure functions with their properties proved: search,
  merge-on-edit, append-on-add, delete-by-id and form population.

Supporting modules:
- `Wrappers`: `Option`.
- `Seqs`: `Filter` and order-preserving subsequences.
- `JsStrings`: the JavaScript string built-ins used: `replace` with a character
  class, `split`, `toLowerCase`, `includes` and integer `toString`.
- `Api`: JSON values, requests, responses, the backend services and the bearer token.

The backend services are the token verifier, the AES cipher and the database.
They are fields of the `Backend` datatype: `verify`, `encrypt`, `decrypt` and
`storeUp`. Two properties of the cipher are assumed, each as a precondition of
the members that need it:
- `Api.CipherRoundTrips`: decryption undoes encryption. `RoundTrip.StoredDocumentOpens`,
  `RoundTrip.AddThenGet` and `VaultPage.AddedItemIsReloadedItem` assume it.
- Encryption never returns its input (`forall s :: encrypt(s) != s`). Only
  `AddRoute.NothingStoredInPlaintext` assumes it.

## Model

| member | source | states |
|---|---|---|
| `Generator.ClassesSpelledOut` | src/utils/generator.ts:9-11 | the three class strings are exactly `A`–`Z`, `a`–`z` and `0`–`9` |
| `Generator.FilteredUpper` | src/utils/generator.ts:16 | removing `[OI]` from the upper-case class drops exactly those two letters and leaves 24 |
| `Generator.FilteredLower` | src/utils/generator.ts:17 | removing `[ol]` from the lower-case class drops exactly those two letters and leaves 24 |
| `Generator.FilteredNumbers` | src/utils/generator.ts:18 | removing `[01]` from the digits leaves `2`–`9`, 8 characters |
| `Generator.Alphabet` | src/utils/generator.ts:9-25 | the alphabet `chars`: the enabled classes in the order upper, lower, numbers, symbols, the first three filtered when look-alikes are excluded; the symbols always come last and unfiltered, and no class enabled gives `""` |
| `Generator.AlphabetSize` | src/utils/generator.ts:9-25 | the alphabet's length is the sum of the enabled classes' sizes: 26 or 24, 26 or 24, 10 or 8, and always 24 |
| `Generator.AlphabetEmptyIff` | src/utils/generator.ts:21-27 | the alphabet is empty exactly when no class is enabled |
| `Generator.ExclusionRemovesExactlyLookAlikes` | src/utils/generator.ts:14-19 | with look-alikes excluded, a character is in the alphabet iff it is in the unfiltered alphabet and is not one of `O I o l 0 1` |
| `Generator.SymbolsNeverFiltered` | src/utils/generator.ts:12-25 | every symbol is in the alphabet when symbols are enabled, whether or not look-alikes are excluded |
| `Generator.AlphabetWithinEnabledClasses` | src/utils/generator.ts:21-25 | the alphabet is an order-preserving subsequence of the enabled classes concatenated in the order upper, lower, numbers, symbols |
| `Generator.AlphabetWithinEnabled` | src/utils/generator.ts:14-25 | every alphabet character belongs to an enabled class |
| `Generator.AssembleAlphabet` | src/utils/generator.ts:9-25 | the statements that filter the classes and append the enabled ones build exactly the alphabet `Alphabet` describes |
| `Generator.SymbolsAreNotLookAlikes` | src/utils/generator.ts:12-19 | no symbol is one of the look-alike characters, so removing look-alikes cannot touch the symbols |
| `Generator.GeneratePassword` | src/utils/generator.ts:1-34 | no class enabled gives `""` whatever the length; otherwise the length is `length` (0 when negative); character `i` is the alphabet's character at draw `i`; every character is in the enabled classes; `excludeLookAlikes` defaults to `true` |
| `JsStrings.Without` | src/utils/generator.ts:16-18 | `replace(/[...]/g, "")`: the result is no longer than the input and holds only input characters outside the class |
| `JsStrings.WithoutMembers` | src/utils/generator.ts:16-18 | `replace(/[...]/g, "")` keeps exactly the characters outside the class |
| `JsStrings.WithoutIsSubsequence` | src/utils/generator.ts:16-18 | the characters it keeps stay in order |
| `JsStrings.Split` | src/app/api/vault/add/route.ts:16 | `split(" ")`: at least one piece, and no piece contains the separator |
| `JsStrings.JoinSplit` | src/app/api/vault/add/route.ts:16 | `split` loses nothing: joining the pieces with the separator gives the header back |
| `JsStrings.SplitTwo` | src/app/api/vault/add/route.ts:16 | two space-free pieces joined by one space split into exactly those pieces |
| `JsStrings.Lower` | src/app/vault/page.tsx:64-69 | `toLowerCase()`: same length, and no upper-case ASCII letter is left |
| `JsStrings.LowerIdempotent` | src/app/vault/page.tsx:64 | lowercasing twice is lowercasing once |
| `JsStrings.Includes` | src/app/vault/page.tsx:68-69 | `includes`: a text includes only queries no longer than itself |
| `JsStrings.IncludesAt` | src/app/vault/page.tsx:68-69 | `includes` holds iff the query starts at some position of the text |
| `JsStrings.IntToString` | src/app/api/vault/add/route.ts:34 | a number's `toString()`: non-empty, and every character after the first is a decimal digit |
| `JsStrings.ParseNatToString` | src/app/api/vault/add/route.ts:34 | the decimal spelling of a number reads back as that number |
| `JsStrings.IntToStringInjective` | src/app/api/vault/add/route.ts:34 | distinct integers have distinct `toString` texts |
| `Api.ToString` | src/app/api/vault/add/route.ts:34 | `toString` throws exactly on `null` and on an object with its own `toString` member, and returns a string field as it is |
| `Api.NumberTextsDistinct` | src/app/api/vault/add/route.ts:34 | two different numeric body fields are never encrypted from the same text |
| `Api.BearerToken` | src/app/api/vault/add/route.ts:16-17 | a token taken from the header is non-empty and has no space |
| `Api.BearerRoundTrip` | src/app/api/vault/get/route.ts:13 | the header `<scheme> <token>` yields the token; the scheme word is not checked |
| `Api.NoTokenWithoutSpace` | src/app/api/vault/add/route.ts:16-18 | a header without a space yields no token, so 401 |
| `Api.NoTokenAfterDoubleSpace` | src/app/api/vault/get/route.ts:13-15 | a header whose first space is followed by nothing or by another space yields no token, so 401 |
| `Api.OwnedBy` | src/app/api/vault/get/route.ts:24 | `find({ userId })` returns at most the store's documents and only those of the caller |
| `Api.OwnedByComplete` | src/app/api/vault/get/route.ts:24 | every document of the caller is found |
| `Api.OwnedByKeepsOrder` | src/app/api/vault/get/route.ts:24 | the found documents keep their store order |
| `Api.OwnedByAppend` | src/app/api/vault/add/route.ts:41-44 | storing a document extends its owner's list by it at the end and leaves every other owner's list unchanged |
| `Api.Assign` | src/app/api/vault/add/route.ts:33 | `obj[key] = v` adds or overwrites the key, except that `__proto__` never becomes an own field; every other key is unchanged |
| `AddRoute.LoopThrows` | src/app/api/vault/add/route.ts:31-36 | the loop throws when the body has its own `hasOwnProperty` field or a field whose `toString()` throws; an empty body never throws |
| `AddRoute.EncryptFields` | src/app/api/vault/add/route.ts:30-38 | the loop throws exactly when the body has its own `hasOwnProperty` field, a `null` field, or an object field with its own `toString` member; otherwise the encrypted map has exactly the body's keys but `__proto__`, each one `encrypt(toString(body[k]))` |
| `AddRoute.NewRecord` | src/app/api/vault/add/route.ts:41-44 | the created document has the encrypted keys plus `_id`, `userId`, `__v`; `userId` is the token's id whatever the body said; every other field is the encrypted value |
| `AddRoute.NewRecordStoredFrom` | src/app/api/vault/add/route.ts:30-44 | encrypting and then creating gives a document stored from the body |
| `AddRoute.Post` | src/app/api/vault/add/route.ts:13-56 | no token gives 401 "Unauthorized"; after that every failure (verification, body, database, loop) gives 500 "Failed to add vault item" and leaves the store unchanged; success iff all steps succeed; it answers "Item added" with the stored, still encrypted document, which is appended to the store |
| `AddRoute.OwnerFromTokenOnly` | src/app/api/vault/add/route.ts:41-44 | a body's own `userId` never becomes the owner |
| `AddRoute.NoFieldInvented` | src/app/api/vault/add/route.ts:31-32 | a key that is neither in the body nor an identity key is not stored |
| `AddRoute.ProtoKeyDropped` | src/app/api/vault/add/route.ts:33-44 | a body field named `__proto__` is not stored |
| `AddRoute.NothingStoredInPlaintext` | src/app/api/vault/add/route.ts:33-36 | with a cipher that never returns its input, every non-identity body field but `__proto__` is stored, and none as the body's text |
| `GetRoute.Opened` | src/app/api/vault/get/route.ts:34-41 | a string field that decrypts becomes its plaintext; any other field stays as stored |
| `GetRoute.DecryptedRecord` | src/app/api/vault/get/route.ts:29-43 | the decrypted document has exactly the stored document's keys but `__proto__` |
| `GetRoute.DecryptItem` | src/app/api/vault/get/route.ts:29-43 | the loop gives the same keys but `__proto__`, copies `_id`, `userId`, `__v` unchanged and opens every other field |
| `GetRoute.Get` | src/app/api/vault/get/route.ts:10-56 | no token gives 401; a failed verification or database gives 500 "Failed to fetch vault items"; otherwise the caller's documents, same number and order as `find`, each decrypted |
| `GetRoute.DecryptedStaysOwned` | src/app/api/vault/get/route.ts:30-32 | decryption keeps the owner |
| `GetRoute.OnlyCallersDocuments` | src/app/api/vault/get/route.ts:24-44 | every returned document belongs to the caller |
| `GetRoute.FieldsIndependent` | src/app/api/vault/get/route.ts:34-41 | changing one stored field changes no other returned field |
| `GetRoute.DecryptableOpened` | src/app/api/vault/get/route.ts:34-38 | a returned non-identity field whose stored text decrypts to `p` comes back as `p` |
| `GetRoute.UndecryptableKeptRaw` | src/app/api/vault/get/route.ts:39-41 | a field that fails to decrypt comes back as stored |
| `RoundTrip.StoredDocumentOpens` | src/app/api/vault/get/route.ts:34-38 | under the cipher's round trip, a stored document decrypts to the body's keys but `__proto__` plus the identity keys, owned by the caller, each body field as its text |
| `RoundTrip.AddThenGet` | src/app/api/vault/add/route.ts:13-56 | adding succeeds iff the add route accepts; then listing with the same header gives the owner's earlier list, decrypted, followed by the new document whose fields are the body's texts |
| `RoundTrip.OtherOwnersUnaffected` | src/app/api/vault/get/route.ts:24 | adding for one owner leaves every other owner's list unchanged |
| `VaultPage.FormJson` | src/app/vault/page.tsx:93 | the JSON body holds exactly the five form fields as strings |
| `VaultPage.Matches` | src/app/vault/page.tsx:66-70 | the filter's test: an item without a title and without a username never matches |
| `VaultPage.Search` | src/app/vault/page.tsx:66-71 | `items.filter(...)`: no longer than the items, and every listed item is one of the items and matches |
| `VaultPage.SearchMembers` | src/app/vault/page.tsx:63-72 | an item is listed iff it is one of the items and its lowercased title or username includes the lowercased query |
| `VaultPage.SearchKeepsOrder` | src/app/vault/page.tsx:66-71 | the listed items keep the items' order |
| `VaultPage.EmptyQueryMatches` | src/app/vault/page.tsx:66-70 | the empty query matches exactly the items with a title or a username |
| `VaultPage.UntitledNeverListed` | src/app/vault/page.tsx:66-70 | an item with neither title nor username is never listed, even for the empty query |
| `VaultPage.SearchIgnoresQueryCase` | src/app/vault/page.tsx:64 | searching for the lowercased query is searching for the query |
| `VaultPage.SearchIdempotent` | src/app/vault/page.tsx:65-71 | searching the search result again changes nothing |
| `VaultPage.FormOf` | src/app/vault/page.tsx:139-145 | each form field is the item's field, or `""` when the item lacks it |
| `VaultPage.Merge` | src/app/vault/page.tsx:101 | `{ ...i, ...form }` keeps the id and stores each of the five form texts, an empty one included |
| `VaultPage.FormOfMerge` | src/app/vault/page.tsx:101 | `{ ...i, ...form }` keeps the id, and its form is the form that was merged |
| `VaultPage.MergeFormOf` | src/app/vault/page.tsx:101 | saving an untouched form over an item with all five fields gives the item back |
| `VaultPage.ReplaceEdited` | src/app/vault/page.tsx:100-102 | same length, every id unchanged, items with another id untouched, each item with the edited id replaced by its merge with the form |
| `VaultPage.ReplaceEditedListed` | src/app/vault/page.tsx:100-102 | an edited item has a title and a username, so the empty query lists it even when the form's texts are empty |
| `VaultPage.ReplaceEditedIdempotent` | src/app/vault/page.tsx:107-109 | saving the same edit twice is saving it once |
| `VaultPage.WithoutId` | src/app/vault/page.tsx:130-131 | `prev.filter(i => i._id !== id)`: no longer than the items, and every kept item is one of them with another id |
| `VaultPage.WithoutIdMembers` | src/app/vault/page.tsx:130-131 | deletion keeps exactly the items with another id, in their order |
| `VaultPage.WithoutAbsentId` | src/app/vault/page.tsx:130 | deleting an id no item has changes nothing |
| `VaultPage.DeleteThenSearch` | src/app/vault/page.tsx:131 | deleting from the listed items gives the listing of the remaining items |
| `VaultPage.SaveRequest` | src/app/vault/page.tsx:82-94 | an edit sends `PATCH /api/vault/update/<id>`, an add sends `POST /api/vault/add`, both with the form as JSON |
| `VaultPage.DeleteRequest` | src/app/vault/page.tsx:124-127 | a delete sends `DELETE /api/vault/delete/<id>` without a body |
| `VaultPage.HeaderCarriesToken` | src/app/vault/page.tsx:91 | the routes read the page's token back from its `Bearer` header |
| `VaultPage.AddedJson` | src/app/api/vault/add/route.ts:47 | the add route answers with an object holding only `message` and `item` |
| `VaultPage.Field` | src/app/vault/page.tsx:96 | a field of the JSON is read exactly when it is present and a string, and then as that string |
| `VaultPage.ItemOfJson` | src/app/vault/page.tsx:96 | `res.json()` read as a `VaultItemType`: each of the six fields is present exactly when the JSON has it as a string |
| `VaultPage.AddedJsonIsBlank` | src/app/vault/page.tsx:96 | that answer read as a `VaultItemType` has no id, title, username, password, url or notes |
| `VaultPage.AppendedAnswerHidden` | src/app/vault/page.tsx:103-111 | appending that answer leaves every search result unchanged: the new entry is never displayed |
| `VaultPage.AddedItem` | src/app/vault/page.tsx:103-105 | the corrected appended item has the stored document's id and stores each of the five form texts, an empty one included |
| `VaultPage.AddedItemListed` | src/app/vault/page.tsx:103-110 | the corrected item is listed for the empty query and whenever its title matches |
| `VaultPage.AddedItemIsReloadedItem` | src/app/vault/page.tsx:103-105 | the corrected item is exactly what the get route returns for the stored document, so adding shows what a reload shows |
| `VaultPage.LoggedIn` | src/app/vault/page.tsx:79-80 | `!token` is false: the stored token is present and is not `""` |
| `VaultPage.Page.constructor` | src/app/vault/page.tsx:24-36 | empty items, list, search and form; modal closed; nothing being edited |
| `VaultPage.Page.RefreshFiltered` | src/app/vault/page.tsx:63-72 | the displayed list becomes the search over the items; nothing else changes |
| `VaultPage.Page.SetSearch` | src/app/vault/page.tsx:157 | typing a query sets it and the list becomes the search for it |
| `VaultPage.Page.HandleAddEdit` | src/app/vault/page.tsx:78-116 | without a token, or with the empty token, nothing is sent or changed; otherwise the save request is sent; on a failed response nothing changes; on success an edit merges the form into every item with the edited id, an add appends the corrected item, and the modal, edit item and form are reset; the list stays the search over the items |
| `VaultPage.Page.HandleDelete` | src/app/vault/page.tsx:118-135 | no token, the empty token or no confirmation sends nothing; otherwise the delete request is sent and, on success, every item with the id is removed; the list stays the search over the items |
| `VaultPage.Page.HandleEdit` | src/app/vault/page.tsx:137-147 | the item becomes the edit item, the form is filled from it and the modal opens; the lists are unchanged |

## Left out

- AES itself and src/utils/crypto.ts: the cipher is the pair `encrypt`/`decrypt`. The model assumes only the two properties named above. Random initialisation vectors and wrong-key behaviour are library behaviour and are not modelled.
- JWT signing and verification: `verify` is an abstract function from token to caller id. A token that verifies but has no `userId` claim is not modelled.
- bcrypt, the login and signup routes, the pages around them, src/models/User.ts and the connection cache of src/lib/db.ts: foreign calls and I/O plumbing. Whether the database can be reached is the single flag `storeUp`.
- Mongoose:
  - The database is an in-memory sequence of documents: `find` filters it and `create` appends to it.
  - The new document's id is the parameter `newId`, and its uniqueness is not modelled.
  - Schema-strict dropping of unknown keys is not modelled.
  - Casting `userId` to an ObjectId is not modelled.
  - A body `_id` or `__v` would fail to cast; the model instead overwrites it with the generated id and 0.
- JSON values:
  - Numbers are unbounded integers. Fractions, exponent notation in the request and `-0` are not modelled.
  - Arrays are not modelled.
  - An object is kept only as its text `[object Object]`, plus whether it has its own `toString` member (which makes `toString()` throw). Its other members are not kept.
  - A request body that is valid JSON but not an object (a number, string, array or `null`) is not modelled.
  - Item fields on the page are read only when they are strings.
- `Api.ToString`: a JSON number is a double, but the model keeps the whole integer. `req.json()` rounds an integer literal beyond 2^53, so two different literals can become the same number and encrypt the same text. The model does not capture this.
- `Api.ToString`: `toString` writes a number of magnitude 1e21 or more in exponent form (`"1e+21"`), while `JsStrings.IntToString` writes every digit.
- `Api.NumberTextsDistinct`: holds for the model's integers only. It does not cover two literals that the double rounding merges into one number.
- `JsStrings.IntToStringInjective`: holds for unbounded integers. It is not a claim about JavaScript's double-precision numbers.
- Error responses carry their `error` text and status; the `details` field and the `console.error` logging are left out.
- `Math.random()` and the floor of the product: they are replaced by the index sequence `random`. A non-integer or `NaN` `length` is not modelled.
- `toLowerCase` is ASCII lowercasing only.
- The page's initial load (`fetchItems` and its effect), `handleChange`, the `loading` flag, rendering, `alert`, `confirm` and `localStorage`. The token, the confirmation and the response's `ok` are parameters of the handlers.
- A handler's own `setFiltered(...)`: React shows its result for one render before the search effect replaces it. The model keeps the state after the effect.
- `GetRoute.Opened`: for a stored field named `__proto__`, the source reads `item["__proto__"]`, which is the Mongoose document's prototype and not the stored field. The model records only that the key is missing from the result, which holds whatever is read.
- The update and delete server routes are not part of this model; the page's requests to them are.
- `VaultPage.Page.HandleAddEdit`: appends the corrected item `AddedItem` instead of the route's answer as written (see Findings).

## Findings

| source | as written | input that shows it | evidently intended | confidence | as-written member | corrected member |
|---|---|---|---|---|---|---|
| src/app/vault/page.tsx:96-110 | the page appends the add route's answer, `{ message, item }` (src/app/api/vault/add/route.ts:47), as if it were the item; it has no id, title or username, so the search effect never lists it | any successful add, e.g. form title `mail` with the search box empty: the list looks as before the add | append the stored document with the form's plaintext fields, which is what a reload would show | not executed | `VaultPage.AppendedAnswerHidden` | `VaultPage.AddedItemIsReloadedItem` |
