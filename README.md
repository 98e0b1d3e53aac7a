# In-memory goods/users catalog and its client list bookkeeping, in Dafny

This project models the CRUD core of a small Express + React practice project. Nothing
here runs; the verifier checks the model against its contracts.

- **Goods server** (`prak2-express/app.js`). A module-level array of
  `{ id, name, price }` goods sits behind `GET /goods`, `GET /goods/:id`, `POST /goods`,
  `PATCH /goods/:id` and `DELETE /goods/:id`. Module `Goods` models it as the class
  `Goods.Store`. The array is its `goods: seq<Good>` field, and each route is a method
  that returns a `Http.Response` (a status code and a value, `{ error }` or `{ message }`
  body).
  - POST rejects a falsy `name` (absent or empty) and a falsy `price` (absent or the
    JSON number 0) with 400.
  - GET and PATCH act on the first good with the id (`find`).
  - DELETE filters out every good with the id. It answers 404 exactly when the array
    kept its length.
- **Users server** (`app.js`). This has the same routes under `/users`, modelled by
  `Users.Store`.
  - POST validates nothing.
  - PATCH goes through `findIndex`.
  - DELETE always answers with a success message.
- **Client page** (`prak4-frontend/src/pages/UsersPage/UsersPage.jsx`). Class
  `UsersPage.Page` holds the local `goods` list and the modal state (`modalOpen`,
  `modalMode`, `editingGood`). Its handlers are methods, and the outcome of each server
  call is a parameter.
  - The list updaters passed to `setGoods` are the pure functions of module `Lists`:
    - `FilterOut` for the delete `filter`;
    - `+ [x]` for the create spread;
    - `ReplaceWhere` for the update `map`.

Module `Lists` holds the array operations both tiers share, generic over the record
type and its id projection:
- `FindIndex` is `find`/`findIndex`.
- `FilterOut` is `filter` by id.
- `ReplaceWhere` is `map`-replace by id.

The module also holds the lemmas that relate these operations:
- Removal keeps the order of the remaining records and is idempotent.
- Looking an id up after deleting it finds nothing.
- Looking an id up after appending finds the earlier record or the new one.
- With unique ids:
  - delete removes exactly one record;
  - delete, update and append keep ids unique;
  - the client's map-replace equals the server's in-place update of the first match.

Ids from `Date.now()` are the `now` parameter of `Create`. Body fields are `Option`s,
with `None` for a field the client did not send. Numbers are the already-parsed `int`s.

## Model

| member | source | states |
|---|---|---|
| `Lists.FindIndex` | prak2-express/app.js:34 | returns -1 exactly when no record has the id; otherwise the returned index holds the id and no earlier index does (the first match) |
| `Lists.FilterOut` | prak2-express/app.js:95 | keeps exactly the records whose id differs, never grows; equals the input exactly when no record had the id, and keeps its length only then; their order and repeated copies are fixed together with `Lists.FilterOutConcat` |
| `Lists.ReplaceWhere` | prak4-frontend/src/pages/UsersPage/UsersPage.jsx:67-69 | same length; each position holds the replacement if its id matched, the old record otherwise; no match leaves the list unchanged |
| `Lists.FilterOutConcat` | prak4-frontend/src/pages/UsersPage/UsersPage.jsx:53 | filtering distributes over concatenation, so surviving records keep their order |
| `Lists.FilterOutIdempotent` | app.js:67 | filtering an id out twice gives the same list as once |
| `Lists.FindIndexAfterFilterOut` | prak2-express/app.js:95 | after the id is filtered out, looking it up yields -1 (a later GET is 404) |
| `Lists.FindIndexAfterAppend` | prak2-express/app.js:60 | after an append, lookup finds the earlier match if any, else the appended record's index if it has the id, else -1 |
| `Lists.FilterOutRemovesOne` | prak2-express/app.js:92-98 | with unique ids and the id present, delete shortens the list by exactly one |
| `Lists.FilterOutKeepsUnique` | prak2-express/app.js:95 | filtering keeps ids unique |
| `Lists.ReplaceWhereKeepsUnique` | prak4-frontend/src/pages/UsersPage/UsersPage.jsx:67-69 | replacing the records of an id by a record with that id keeps ids unique |
| `Lists.AppendKeepsUnique` | prak2-express/app.js:53-60 | appending a record with an unused id keeps ids unique |
| `Lists.ReplaceWhereIsUpdateAtFirst` | prak4-frontend/src/pages/UsersPage/UsersPage.jsx:66-69 | with unique ids, the client's map-replace equals overwriting the server's first match in place |
| `Lists.FilterOutAfterReplace` | prak4-frontend/src/pages/UsersPage/UsersPage.jsx:53 | deleting an id after replacing its records by a record with that id equals deleting it directly |
| `Goods.Patched` | prak2-express/app.js:76-82 | a patched good keeps its id; an empty body leaves it unchanged |
| `Goods.PatchedTwice` | prak2-express/app.js:75-82 | two patches compose into one with the later field winning; a field neither body mentions keeps its value |
| `Goods.Store.constructor` | prak2-express/app.js:12-15 | the store starts with the two seed goods |
| `Goods.Store.List` | prak2-express/app.js:27-29 | 200 with the whole array in insertion order |
| `Goods.Store.Get` | prak2-express/app.js:32-41 | 404 with the error text exactly when no good has the id; otherwise 200 with the first good having the id |
| `Goods.Store.Create` | prak2-express/app.js:44-64 | absent or empty name, or absent or JSON-number-0 price: 400, store unchanged; otherwise appends `{now, name, price}` at the end, earlier goods unchanged, 201 with it |
| `Goods.Store.Patch` | prak2-express/app.js:67-85 | unknown id: 404, store unchanged; otherwise only the first match changes, by exactly the supplied fields, ids and other goods unchanged, 200 with the updated good; empty body changes nothing |
| `Goods.Store.Delete` | prak2-express/app.js:88-103 | the array becomes the filtered one; 404 exactly when the length is unchanged, which is exactly when no good had the id; afterwards no good has the id |
| `Users.Patched` | app.js:56-58 | a patched user keeps its id; an empty body leaves it unchanged |
| `Users.Store.constructor` | app.js:17-21 | the store starts with the three seed users |
| `Users.Store.List` | app.js:33-35 | 200 with the whole array in insertion order |
| `Users.Store.Get` | app.js:38-42 | 404 exactly when no user has the id; otherwise 200 with the first user having the id |
| `Users.Store.Create` | app.js:45-50 | no validation: always appends `{now, name, age}` at the end and answers 201 with it |
| `Users.Store.Patch` | app.js:53-63 | unknown id: 404, store unchanged; otherwise the user at `findIndex` gets exactly the supplied fields, ids and other users unchanged, 200 with it |
| `Users.Store.Delete` | app.js:66-69 | the array becomes the filtered one, order kept; always 200 with the success message; afterwards no user has the id |
| `Users.DeleteTwice` | app.js:67 | two deletes of the same id leave the store that one delete leaves |
| `UsersPage.Page.constructor` | prak4-frontend/src/pages/UsersPage/UsersPage.jsx:8-12 | empty list, modal closed in create mode, nothing being edited |
| `UsersPage.Page.OpenCreate` | prak4-frontend/src/pages/UsersPage/UsersPage.jsx:31-35 | mode create, no editing good, modal open, list unchanged |
| `UsersPage.Page.OpenEdit` | prak4-frontend/src/pages/UsersPage/UsersPage.jsx:37-41 | mode edit, editing the given good, modal open, list unchanged |
| `UsersPage.Page.CloseModal` | prak4-frontend/src/pages/UsersPage/UsersPage.jsx:43-46 | modal closed and editing good cleared; mode and list unchanged |
| `UsersPage.Page.HandleDelete` | prak4-frontend/src/pages/UsersPage/UsersPage.jsx:48-58 | declined: no request, nothing changes; confirmed: a delete request is sent, and the list loses every entry with the id only if it succeeded |
| `UsersPage.Page.HandleSubmitModal` | prak4-frontend/src/pages/UsersPage/UsersPage.jsx:60-76 | create mode sends a create request and appends the reply; edit mode sends an update and replaces every entry with `payload.id` by the reply; success closes the modal; failure changes nothing |

Every `UsersPage.Page` method keeps the invariant `Valid()`: a good is being edited only
while the modal is open in edit mode. It is a stated invariant of the UI state and
nothing more: no other contract depends on it.

## Left out

- Express plumbing is left out, because it is I/O. This covers `app.listen`, the JSON,
  form and static middleware, the request logger and the `/` pages.
- The clock is not modelled. `Date.now()` is the `now` parameter, and nothing makes it
  unique: the uniqueness lemmas take unique ids as a hypothesis.
- JavaScript coercion is not modelled: `+req.params.id`, `Number(...)`, `parseInt`, NaN
  and the loose `==`/`!=` of the users server. Ids, prices and ages are `int`s, and a
  stored age that `parseInt` would make NaN is `None`.
  - `Goods.Store.Create`: the falsiness test sees only an absent or empty name and an
    absent or zero price, so its price-0 rejection holds only for a price sent as a JSON
    number. A price sent as a non-empty string, as every field of a urlencoded form is,
    is truthy even when it is `"0"` or `" "`. The source lets it through the guard and
    stores `Number` of it, which is 0 for those two and NaN for a non-numeric string.
    None of these string prices is representable. Other falsy JavaScript values
    (`null`, `false`, NaN) are not representable either.
  - `Users.Store.Patch`: an `age` sent but unparsable (stored as NaN by the source)
    cannot be expressed, because a sent age is already an `int`.
- Non-string names are not modelled: `name` is a `string` whenever it is sent.
- The page's `loadGoods` and the `loading` flag are left out. They are a fetch that
  replaces the list by the server's reply, plus a UI flag.
- `window.confirm`, `alert`, `console.error` and the async sequencing of the page are
  UI effects. The confirmation answer and the call outcomes are parameters.
- `UserModal.jsx` is left out: the form, its trimming and price checks, and `FormData`
  uploads. Only its payload shape is kept, as `UsersPage.Payload` with an optional id.
- `api/index.js` (the axios wrapper), `UserItem.jsx` and `UsersList.jsx` (rendering) are
  not part of this model.
- Prices are `int`. The source's JavaScript numbers are floating point.
