# Service layer of an e-commerce REST backend, in Dafny

This project models the service layer of a small REST backend: users, products, orders and categories kept in a document store. It covers four parts:

- **The generic resource service** (`BaseService`, module `Base`). It runs `add`, `get`, `getById`, `update` and `delete` over one collection. It maps store outcomes to errors in a fixed way: a duplicate key becomes `InvalidDuplicateEntry`, any other create failure becomes `InternalServerError`, and a missing target becomes `NotFound`.
- **The product service** (module `Products`). It is the generic service over the product collection, except that `get` joins each product's category.
- **The order service** (module `Orders`). It is the generic service over the order collection, with three differences:
  - `add` resolves every referenced product before it creates the order.
  - `deleteOwnOrder` checks ownership before it deletes.
  - `getMostOrderedProduct` counts how often each product was ordered and returns the most frequent one.
- **The error records** (module `Errors`). A `BaseError` carries a message and a code, and `toJSON` projects it.

The injected collection (`this.model`) is the class `Store.Collection`:

- `docs` maps each `_id` to its document.
- `nextId` allocates ids. Ascending id is creation order, and that is the order in which `find` returns documents.
- `uniqueIndexes` is the abstract "duplicate key" predicate. A create collides with an index when a stored document agrees with the new one on every field of that index. A missing field counts as `null`, as in a non-sparse unique index. The store reports the first index that collides.

`create` can also fail for a reason other than a duplicate key (validation, connection). That failure is an input, `fault`, because its cause is I/O. Inheritance becomes composition: `ProductServices` and `OrderServices` each hold a `BaseService`. Like the source's `productServices.getById`, the order service reaches product records through the product service's embedded `BaseService`.

Three behaviours of the code are easy to miss, and the model follows the code in each:

- The product `get` never fails. Its emptiness check compares a query result, which is always an array, with `null` (services/product.js:12).
- A new order stores the resolved product records, not the product ids (services/order.js:12-15). The aggregation reads `$products._id`, and the model assumes the stored list holds those embedded records (see "## Left out").
- With no ordered products, `getMostOrderedProduct` fails with a runtime error while reading the missing first row. The model makes this an explicit outcome, `TypeError(NoRowMessage)`. When the top group's key is `null` (an element that is not a document), the code fails on `toString`, and the model returns `TypeError(NullKeyMessage)`.

## Model

| member | source | states |
|---|---|---|
| Errors.NewBaseError | errors/BaseError.js:3-7 | the message is kept; an omitted code gives `STATUS_CODES.Default`, a given code is kept |
| Errors.ToJson | errors/BaseError.js:9-14 | `toJSON` gives exactly `{errorMessage: message, errorCode: code}` |
| Errors.ToJsonIsFaithful | errors/BaseError.js:9-14 | two errors have the same JSON form if and only if they are equal |
| Errors.ToJsonOfNew | errors/BaseError.js:3-14 | the JSON form of a new error carries the given message and the given or default code |
| Documents.AllRecordsMatchesEverything | models/BaseService.js:31 | the default filter `{}` matches every document |
| Documents.Merge | models/BaseService.js:56 | an update sets every field it names and keeps every other field |
| Store.FirstViolated | models/BaseService.js:16-18 | gives no index exactly when no unique index collides; otherwise the first colliding index, in index order |
| Store.Scan | models/BaseService.js:32 | holds exactly the matching documents below an id bound, in strictly ascending id order |
| Store.Collection.FindById | models/BaseService.js:43 | finds a document exactly when the id is stored, and it is the stored document |
| Store.Collection.Find | models/BaseService.js:32 | holds exactly the stored documents that match, each once, in creation order |
| Store.Collection.Create | models/BaseService.js:16 | a fault or a collision changes nothing; otherwise exactly one new document under a fresh id; the collection stays free of duplicate keys under every unique index |
| Store.Collection.FindByIdAndUpdate | models/BaseService.js:56 | `null` for a missing id; otherwise the merged document, stored in place, unless it collides with another document |
| Store.Collection.FindByIdAndDelete | models/BaseService.js:66 | `null` for a missing id; otherwise the removed document, and no other document changes |
| Base.IdContext | models/BaseService.js:44 | the context of a failed lookup by id is exactly `{id}` |
| Base.JoinKeys | models/BaseService.js:19 | interpolating an array of key names: empty for no keys, begins with the first name and ends with the last, and contains a comma exactly when there are two or more names (none of which contains a comma) |
| Base.DuplicateMessage | models/BaseService.js:19 | the message is the comma-joined key names followed by " already exists" |
| Base.JoinSplits | models/BaseService.js:19 | splitting the comma-joined key names at commas gives back the names, when none contains a comma |
| Base.DuplicateMessageNamesKeys | models/BaseService.js:19-20 | the part of the duplicate-entry message before " already exists" names exactly the colliding fields |
| Base.BaseService.constructor | models/BaseService.js:5-7 | the service works on the injected collection |
| Base.BaseService.Add | models/BaseService.js:14-24 | success returns the created record and adds exactly it; a duplicate gives `InvalidDuplicateEntry` with the key message of the first violated, non-empty index and changes nothing; any other failure gives `InternalServerError("Failed to run query to create object")` and changes nothing |
| Base.BaseService.Get | models/BaseService.js:31-35 | `NotFound` carrying the filter if and only if nothing matches; otherwise exactly the matching records in creation order |
| Base.BaseService.GetById | models/BaseService.js:42-46 | the record under `id`, or `NotFound` with context `{id}`; reads only |
| Base.BaseService.Update | models/BaseService.js:54-57 | a missing id gives `NotFound` and changes nothing; otherwise the post-update record, with every other record unchanged; a unique-index clash propagates unmapped and changes nothing |
| Base.BaseService.Delete | models/BaseService.js:64-67 | a missing id gives `NotFound` and changes nothing; otherwise removes that record only and returns its prior value |
| Base.UpdateThenGetById | models/BaseService.js:42-57 | after a successful update, a lookup returns the updates merged onto the prior record |
| Base.DeleteThenGetById | models/BaseService.js:42-67 | delete succeeds exactly for a stored id, and a lookup afterwards fails with `NotFound` |
| Products.JoinCategory | services/product.js:11 | a category reference becomes the category record, or `null` when it dangles; all other fields are kept |
| Products.JoinAll | services/product.js:11 | joins every product, keeping the list's length and order |
| Products.JoinedMatches | services/product.js:11 | joining a complete, ordered list of matches gives a complete, ordered list of joined matches |
| Products.ProductServices.constructor | services/product.js:5-8 | the product service is the generic service over the product collection; categories are read from their own collection |
| Products.ProductServices.Get | services/product.js:10-14 | always succeeds; returns exactly the matching products, each with its category joined, in creation order |
| Products.EmptyMatchIsSuccess | services/product.js:12 | a filter that matches nothing gives the empty list, where the generic `get` raises `NotFound` |
| Orders.ProductItems | services/order.js:12 | the order's `products` list when it is an array; a `TypeError` when the field is missing, `null` or not an array |
| Orders.CastId | services/order.js:13 | `findById` casts an id to itself and a document to its `_id`; no other element casts to an id |
| Orders.Lookup | services/order.js:13 | an element that casts to the id of a stored product (an id, or a document carrying its `_id`) gives that product's record; one that casts to an unknown id gives `NotFound` with the element as context `{id}`; `null` gives `NotFound` with context `{id: null}`; any other element fails the query with the raw store error |
| Orders.Resolve | services/order.js:12-14 | succeeds if and only if every element resolves; then exactly one looked-up record per element, in input order |
| Orders.ResolveFirstFailure | services/order.js:12-14 | when some element does not resolve, the whole resolution fails with the error of the first one that does not |
| Orders.ResolveOrder | services/order.js:12-14 | succeeds if and only if `products` is an array whose every element resolves; on an array it is exactly the element-by-element resolution, so each position holds its element's record |
| Orders.OwnedBy | services/order.js:20 | an order belongs to a user exactly when its `userId` is that user; an order without `userId` belongs to nobody |
| Orders.Occurrences | services/order.js:27 | reference count of a key: never more than the number of keys |
| Orders.OccurrencesAbsent | services/order.js:27 | a key that does not occur has count 0 |
| Orders.OccurrencesPresent | services/order.js:27 | a key that occurs has a positive count |
| Orders.OccurrencesAppend | services/order.js:26-27 | counting over concatenated product lists adds the counts |
| Orders.OccurrencesCons | services/order.js:27 | counting over a list that starts with a given key |
| Orders.Unwound | services/order.js:26 | `$unwind` gives an array's elements, and nothing for a missing or `null` field |
| Orders.ItemKey | services/order.js:27 | `$products._id` is the embedded record's id, and `null` for anything else |
| Orders.ItemKeys | services/order.js:26-27 | one group key per unwound element, in order |
| Orders.UnwoundKeys | services/order.js:25-27 | a key's count over the flattened product lists of all orders is the sum of its counts per order; the list is empty exactly when no order has an element to unwind |
| Orders.GroupCounts | services/order.js:27 | one group per distinct key, whose count is exactly the key's number of occurrences |
| Orders.Leader | services/order.js:27-28 | picks a candidate no other candidate's count exceeds |
| Orders.TopGroup | services/order.js:25-30 | no row if and only if there are no keys; otherwise an occurring key with its exact count, and no key has a strictly greater count |
| Orders.MostOrderedExample | services/order.js:25-30 | orders [[A,A,B],[A,C]] give A with count 3 |
| Orders.MostOrderedOnService | services/order.js:24-33 | with the orders [A,A,B] and [A,C] stored and product A present, `getMostOrderedProduct` returns A's record with `timesOrdered` 3 |
| Orders.OrderServices.constructor | services/order.js:7-9 | the order service is the generic service over the order collection, plus the product service, over a distinct collection |
| Orders.OrderServices.Add | services/order.js:11-16 | a `products` field that is not an array gives the `TypeError`, and an element that does not resolve gives that element's error (the first such one), both storing no order and leaving the caller's order object as it was; otherwise the caller's order object gets the resolved list, whatever `create` then does, and the service stores the order with its `products` list replaced by the resolved records, in order, through an unmapped raw create that never gives `InvalidDuplicateEntry`; products are untouched |
| Orders.OrderServices.DeleteOwnOrder | services/order.js:18-22 | `NotFound` for a missing order and `Forbidden` for another user's order, both with no change; otherwise removes that order only and returns it |
| Orders.OrderServices.OrderedKeys | services/order.js:25-27 | the keys `$unwind` feeds to `$sortByCount`: none exactly when no stored order has an element to unwind |
| Orders.OrderServices.TimesOrdered | services/order.js:27 | a product's count is the sum over stored orders of its occurrences in each order; positive exactly when it is among the ordered keys |
| Orders.OrderServices.GetMostOrderedProduct | services/order.js:24-33 | success returns an existing product with `timesOrdered` equal to its count over all orders' flattened product lists, and no key counts more; fails with the runtime error if and only if nothing was ordered; the only other failures are `TypeError(NullKeyMessage)` for a `null` top group that no key outcounts, and `NotFound` for a top product that no longer exists |

## Left out

- The authorization gate (`authorize` in `../auth`) and request validation are not part of this model. The controllers (controllers/products.js) only route requests, so neither they nor their verb/resource pairs are modelled.
- index.js (server bootstrap, middleware, logging, `process.exit`) and models/userModel.js (password hashing, token signing, `Date.now()` defaults) are I/O and foreign library calls.
- The error subclasses (`NotFoundError`, `ForbiddenError` and the others) and the values in `STATUS_CODES` are defined in files that are not part of this model. Services raise `ServiceError` values, and `DefaultCode` is an unspecified constant.
- Errors.NewBaseError: the model treats codes as integers. JavaScript would accept any value as `errCode`, and it would take the default code only for `undefined`, which the model writes as `None`.
- Store.Collection.Find: filters are equality filters on top-level fields (`null` also matches a missing field; a value also matches an array that contains it). Query operators, dotted paths and schema-driven casting of query strings are not modelled.
- Store.Collection.Create: ObjectId generation is modelled as a counter, and creation order is taken as the order of `find` results. A document that supplies its own `_id`, and unique indexes over array fields, are not modelled.
- Store failures other than those of `create` and the unique-index clash on update (cast errors, validation on update, connection loss during reads) are not modelled.
- Mongoose schema behaviour is not modelled: fields that strict mode drops, defaults, and validators.
- Numbers are integers; JavaScript's floating-point numbers are not modelled.
- Concurrency is not modelled. `Promise.all` in services/order.js:12 is a sequential map, so the error reported is that of the first missing id in list order. The check-then-act pairs in `update`, `delete` and `deleteOwnOrder` are atomic in the model, so the store call's `null` result after a successful lookup cannot happen.
- Orders.OrderServices.DeleteOwnOrder: ids are one equality type. The source compares `order.userId` and `userId` with `!==`. If the stored owner were an ObjectId and the caller's id a string, that comparison would always report a mismatch, and the model does not capture this.
- Orders.OrderServices.GetMostOrderedProduct: the order schema is not part of this model. The model assumes that `products` holds the embedded product records that `add` stores, which is what `$products._id` reads. If the schema instead cast `products` to an array of ObjectId references, every group key would be `null` and the model would give `TypeError(NullKeyMessage)` whenever anything was ordered.
- Orders.OrderServices.Add: the source overwrites `products` on the caller's own order object (services/order.js:12). The model takes the order as a value and returns the object's new state as `updatedOrder`, so aliasing of that object with other references is not captured. Casting follows `findById`: an id is itself, and a document is cast to its `_id`. Casting strings to ObjectIds is not modelled; a string or any other value is a cast failure, `Raw(OperationFailure)`. `getById(null)` finds nothing.
- Orders.TopGroup: the source leaves the tie-break unspecified. The model picks the first most-frequent key in unwind order, and the contracts promise only some key with the largest count.
- The `NotFound` branch of the product `get` (services/product.js:12) can never be taken, so the model has no outcome for it.
