# status-worker, modelled in Dafny

This project models a small status-page backend. The backend is a Cloudflare Worker that keeps "status" records in a key-value namespace. Anyone can read the records. An operator who holds the configured secret can create, update and delete them.

There are two modules:

- `StatusModel` (`status_model.dfy`) models `src/model.ts`.
  - The key-value namespace is the value `Namespace`. It holds a map from keys to stored values, and a key list that gives the model's listing order. The backend's lexicographic order is not modelled; see "## Left out".
  - A stored value is either `Blank` or `Json(status)`. `Blank` is the empty string, which the store treats as absent. JSON text stands for the record itself, because serialisation is modelled as the identity.
  - Every record lives under `GenerateID(id)`, which is `"v1:status:" + id`.
  - The store's operations are pure specification functions: `Listing`, `Find`, `Create`, `Update` and `Delete`. Their contracts and the lemmas beside them state what `model.ts` promises.
  - The class `StatusStore` holds the namespace handle `kv`. Its methods run the steps of `model.ts` one after another: the listing loop, get, put and delete. Each method's postcondition ties its result and the new namespace to the matching specification function.
- `Gateway` (`gateway.dfy`) models `src/index.ts`.
  - `Dispatch` is the pure decision function. It takes the store state, the method, the path shape, the `Authorization` header, the configured secret and the body fields. It returns the HTTP code, the response body and the new store state.
  - It runs the `app.use("*")` gate, then tries the routes in the order they are registered.
  - `Handle` is the same request path written imperatively over a `StatusStore`, with early returns. Its postcondition says that it agrees with `Dispatch`.

Inputs from outside the program are parameters:

- `uuid` stands for `crypto.randomUUID()`. It is assumed fresh: no record is stored under its key yet.
- `now` stands for `new Date().toISOString()`.
- `secret` is the `STATUS_SECRET` binding. `None` means it is undefined.
- The request's path shape, headers and parsed JSON body.

Request-body fields are strings. A missing field reads as `""`, which is falsy in the TypeScript code just as the empty string is. A body that is JSON `null` is `None`.

Some behaviour of the code that the model keeps as written:

- `GET /status` on an empty store answers 200 with an undefined `status`. It does not answer 404.
- Creation answers 200.
- The routes are `/statuses`, `/status` and `/status/:id`.
- A listing skips only absent or empty values. It does not skip values that fail to parse.
- A `PUT` body with an empty title or body still answers 200 "Status updated successfully.". Nothing is stored in that case, because the result of `updateStatus` is ignored.

## Model

| member | source | states |
|---|---|---|
| `StatusModel.GenerateID` | src/model.ts:16-18 | the key of `id` starts with the prefix `"v1:status:"` and the rest of the key is `id` itself |
| `StatusModel.GenerateIDRoundTrip` | src/model.ts:1-18 | every key with the prefix is the key of exactly one id, namely the key with the prefix removed |
| `StatusModel.Prefixed` | src/model.ts:21 | the listed keys are exactly the keys that carry the prefix, and listing keeps keys distinct |
| `StatusModel.Collect` | src/model.ts:25-32 | the loop pushes at most one status per listed key |
| `StatusModel.CollectMembership` | src/model.ts:26-31 | a status is collected exactly when some walked key holds it as a non-empty value |
| `StatusModel.Find` | src/model.ts:37-47 | `getStatus` returns nothing exactly when the key of `id` is absent or holds the empty value; otherwise it returns the record stored there |
| `StatusModel.Create` | src/model.ts:49-66 | an empty title or body (or a null body) returns nothing and changes nothing; otherwise it returns `{id: uuid, title, body, date: now}`, a following `getStatus(uuid)` finds that record, and no other key or id changes |
| `StatusModel.Update` | src/model.ts:68-83 | returns true exactly when the body is valid and a record exists; on false nothing changes; on true the record has the new title and body and keeps its stored `id` and `date`; no other key changes and the key list is unchanged |
| `StatusModel.Delete` | src/model.ts:85-95 | returns true exactly when a record exists; on false nothing changes; on true exactly that key is removed; afterwards nothing is found under `id` and every other id is unaffected |
| `StatusModel.UpdateKeepsIdAndDate` | src/model.ts:76-80 | a successful update leaves the stored record's `id` and `date` as they were |
| `StatusModel.DeleteTwice` | src/model.ts:89-90 | a second delete of the same id returns false and changes nothing |
| `StatusModel.ListingMembership` | src/model.ts:20-35 | a status is listed exactly when some key in the key list carries the prefix and holds that status; keys of other namespaces never show up |
| `StatusModel.ListedIffFound` | src/model.ts:20-47 | in a well-formed namespace, a status is listed exactly when `getStatus` finds it under some id |
| `StatusModel.ListingInKeyOrder` | src/model.ts:23-32 | when every listed key holds a record, the listing has one entry per key, in key-list order |
| `StatusModel.ListingIgnoresForeignKeys` | src/model.ts:21 | putting or deleting a key without the prefix leaves the listing unchanged |
| `StatusModel.ListingAfterCreate` | src/model.ts:54-63 | a successful create with a fresh id adds exactly the new record to the listing, as a multiset; where it is listed is left to the backend's key order |
| `StatusModel.ListingAfterDelete` | src/model.ts:89-92 | a successful delete removes exactly the deleted record from the listing, as a multiset |
| `StatusModel.StatusStore.constructor` | src/model.ts:20-95 | a store over a well-formed namespace handle holds exactly that handle and is valid |
| `StatusModel.StatusStore.GetStatuses` | src/model.ts:20-35 | the loop over the listed keys returns exactly `Listing(kv)` and does not modify the store |
| `StatusModel.StatusStore.GetStatus` | src/model.ts:37-47 | returns `Find(kv, id)` and does not modify the store |
| `StatusModel.StatusStore.CreateStatus` | src/model.ts:49-66 | result and new namespace are those of `Create`; a success adds exactly the new record to the listing, as a multiset |
| `StatusModel.StatusStore.UpdateStatus` | src/model.ts:68-83 | result and new namespace are those of `Update` |
| `StatusModel.StatusStore.DeleteStatus` | src/model.ts:85-95 | result and new namespace are those of `Delete`; a success removes the record from the listing |
| `Gateway.Latest` | src/index.ts:51-52 | `statuses[0]` is undefined exactly on an empty listing and is otherwise its first entry |
| `Gateway.Dispatch` | src/index.ts:27-39 | an undefined secret answers the plain-text "Secret is not defined" reply to every request and changes nothing; a method other than GET or HEAD whose `Authorization` header is not exactly the secret answers 401 `{code: "401 Unauthorized", message: "Unauthorized"}` and changes nothing; GET and HEAD never change the store |
| `Gateway.Route` | src/index.ts:44-159 | GET and HEAD requests that reach the routes never change the store; every route keeps the namespace well formed |
| `Gateway.Handle` | src/index.ts:27-159 | running the middleware and then the handlers against the store gives the response and new store state of `Dispatch` |
| `Gateway.SafeIgnoresAuthorization` | src/index.ts:34 | GET and HEAD get the same answer whatever `Authorization` header they carry |
| `Gateway.UnknownIdIsNotFound` | src/index.ts:78-130 | GET, HEAD, PUT or DELETE on `/status/:id` with no record answers 404 "Unable to find a status with that ID." and changes nothing |
| `Gateway.PutAnswersWithSnapshotBefore` | src/index.ts:95-116 | PUT on an existing id answers 200 with the record as it was before the update; a valid body stores the new title and body; an invalid body still answers 200 and changes nothing |
| `Gateway.DeleteAnswersWithSnapshotBefore` | src/index.ts:118-138 | DELETE on an existing id answers 200 with the deleted record, removes exactly its key, and nothing is found under the id afterwards |
| `Gateway.PostCreates` | src/index.ts:57-68 | POST `/status` without a non-empty title and body answers 400 and changes nothing; with both it answers 200 with the new record, which is then stored under `uuid` |
| `Gateway.LatestIsFirstListed` | src/index.ts:50-55 | GET `/status` always answers 200; its `status` is the first listed record, or undefined exactly when nothing is listed |
| `Gateway.UnmatchedIs405` | src/index.ts:140-159 | POST to any path but `/status` answers 405 "Did you mean PUT?"; unknown methods, GET or HEAD on unknown paths, and PUT or DELETE without an id answer the generic 405; neither changes anything |
| `Gateway.RequestsTouchOnlyTheirRecord` | src/index.ts:57-138 | no request changes a key outside the status namespace, and none changes the record of any id other than the one it names (or `uuid` for a create) |
| `Gateway.PostThenGet` | src/index.ts:57-93 | a valid POST followed by GET `/status/<uuid>` answers 200 with the record the POST returned |
| `Gateway.PutThenGet` | src/index.ts:78-116 | a valid PUT followed by GET on the same id shows the new title and body with the original `id` and `date` |
| `Gateway.DeleteThenNotFound` | src/index.ts:78-138 | after a DELETE, both GET and a second DELETE on the same id answer 404, and the second changes nothing |

## Left out

- Framework plumbing is not modelled. This covers Hono's route matching, its context and response objects, and the `cors()` middleware on `/statuses/*` (src/index.ts:42). An `OPTIONS` request under `/statuses` that passes the gate gets the CORS preflight answer from that middleware; the model gives it the generic 405 instead. Routing is an explicit match on the method and the path shape.
- Path parameters are not decoded. An `ItemPath` carries the id that the framework would have extracted. `ItemPath("")` stands for no request: `/status/` does not match `/status/:id` and falls through to the generic 405.
- `Other` method names are taken as the framework sees them, after the runtime has upper-cased the standard methods. A lower- or mixed-case spelling of GET, HEAD, POST, PUT or DELETE (`Other("get")`) stands for no request.
- HEAD is served by the GET handlers, which is the framework's convention. The model does not strip the response body for HEAD.
- The `Vary: Authorization` response header (src/index.ts:28) is not modelled, because header manipulation is framework plumbing.
- `JSON.parse` and `JSON.stringify` are the identity. The following are therefore not modelled:
  - the exceptions raised by `c.req.json()` in `POST /status`, which the `catch` at src/index.ts:69-75 turns into 422 `{message: "Cannot create new status.", error}`;
  - the uncaught `c.req.json()` failure at src/index.ts:109;
  - the invalid-JSON values that `JSON.parse` would throw on in `getStatuses` and `getStatus`.
- Body fields that are truthy but not strings, such as numbers or objects, are not modelled. Title and body are strings, and a missing field is `""`.
- `crypto.randomUUID()` and the clock are parameters. The collision-freedom of the UUID is the precondition that its key is not yet stored.
- The backend's own key-listing order is not modelled. The backend lists keys in lexicographic order, so a new random-UUID key may be listed anywhere. The model's key list puts a newly put key at the end. So the listing lemmas state where a created record is listed only as a multiset. Likewise, `Gateway.LatestIsFirstListed` says only that `GET /status` answers with the first listed record; that this is the earliest-stored record holds in the model's order, not in the backend's.
- The backend returns at most 1000 keys per `list` call, and `getStatuses` does not follow the cursor. The model lists every key.
- Every `KV.list`, `KV.get`, `KV.put` and `KV.delete` call is assumed to succeed. In the code, a rejected `KV.put` inside `createStatus` (src/model.ts:63) is caught by the `catch` of `POST /status` (src/index.ts:69-75), which answers 422 `{message: "Cannot create new status.", error: e.message}`. On every other route a rejected KV call escapes the handler (src/index.ts:45, 51, 81, 98, 110, 121, 132).
- Async execution and the eventual consistency of the key-value store are not modelled. This covers stale listings and races between the read and the write in update and delete. Each request is atomic and sequential.
