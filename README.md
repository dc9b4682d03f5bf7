# Marketplace product catalog — a Dafny model

This project models the rule set of a small sale-listing ("product") catalog
served over HTTP. It covers four parts:

- the products router: its own length-bounded create schema, the
  `POST /products` handler that assigns the next display order and stores the
  product, the `GET /products` listing, and the `GET /products/:productId`
  detail lookup;
- the three payload schemas of the validation file (create, update, delete);
- the product service's guards: id validity, lookup by id, password check and
  duplicate-name check;
- the error-handling middleware that turns a thrown error into a status code
  and a JSON body.

Modules:

| file | module | what it holds |
|---|---|---|
| `results.dfy` | `Results` | `Option`, `Result` and `Outcome`. A thrown error is the `Err`/`Fail` value. |
| `products.dfy` | `Products` | The stored `Product` record and its password-free `ProductView`. |
| `http.dfy` | `Http` | The error object (`name`, `message`, optional `status`) and the (code, body) response. |
| `error_handler.dfy` | `ErrorHandler` | The error middleware as a total function. |
| `joi_rules.dfy` | `JoiRules` | The string-key rules of the validation library that the schemas use. |
| `product_validation.dfy` | `ProductValidation` | The create, update and delete schemas of the validation file. |
| `product_service.dfy` | `ProductService` | The four service guards, as functions of the stored products. |
| `products_router.dfy` | `ProductsRouter` | The router schema. The `ProductStore` class, whose `Create` method appends to its `records`. The list and detail handlers as pure functions. |
| `scenarios.dfy` | `Scenarios` | Two valid creates on an empty store get orders 1 and 2; the listing shows the newer product first. |

The create handler changes state, so it is a method of a class. It holds the
stored products in a `seq` field that the method reassigns. Its `ensures`
gives the new sequence and the response in terms of the pure function
`CreateOutcome`, and the lemmas about `CreateOutcome` carry the properties.
The list and detail handlers and every guard only read, so they are functions
of the stored sequence.

Assumptions about the validation library (its code is not part of this model),
as the model states them:

- Keys are checked in the order the schema declares them. Only the first
  failure is reported.
- Within one key, the checks run in this order: absence, then the `valid(...)`
  whitelist, then the string type, then emptiness, then the length bounds. So
  a non-string `status` gets the "must be FOR_SALE or SOLD_OUT" message, not
  the status "must be a string" message.
- The empty string is rejected with the library's own `string.empty` rule and
  its default English message (`"name" is not allowed to be empty`). So the
  router's "at least 1 character" messages can never be produced
  (`MinimumLengthMessageUnreachable`), and the validation file's create schema
  rejects `''` although it declares no bound.
- The `{#limit}` placeholder in the router's messages is shown filled in with
  1 or 50.

Behaviour of the code worth noting:

- Create does not check name uniqueness (`CreateAcceptsDuplicateName`).
- The error handler answers only 400 and 404. The service's 401 and 409 errors
  come out as 500 (`UnauthorizedAndConflictBecome500`).

## Model

| member | source | states |
|---|---|---|
| `ErrorHandler.HandleError` | src/middlewares/error-handler.middleware.js:1-22 | The response is 400 iff the error is named `ValidationError`. It is 404 iff the error has another name and carries status 404. Anything else is 500. Both 400 and 404 echo the error's message. The 500 body has the fixed `errorMessage` text. The body's `status` always equals the code. |
| `ErrorHandler.ValidationTakesPriority` | src/middlewares/error-handler.middleware.js:3-15 | A `ValidationError` that also carries status 404 is still answered with 400. |
| `ErrorHandler.InternalErrorsAreIndistinguishable` | src/middlewares/error-handler.middleware.js:17-21 | Any two errors that map to 500 give identical responses, so no error message leaks through that branch. |
| `ErrorHandler.UnauthorizedAndConflictBecome500` | src/middlewares/error-handler.middleware.js:10-21 | A service error with status 401 or 409 is answered with 500. One with status 404 is answered with 404 and its message. |
| `JoiRules.CheckKey` | src/schemas/product.validation.js:4-7 | One key is accepted iff the reference predicate `Accepts` holds. Its sanitized value is the string (or nothing when the key is optional and absent). A failure names that key. |
| `JoiRules.CheckKeyFailure` | src/routes/products.router.js:9-14 | For a rejected key, the reported rule and its custom message: required when absent, then whitelist, then string type, then empty, then min, then max. |
| `JoiRules.CheckObject` | src/schemas/product.validation.js:3-20 | An object schema accepts iff every declared key is accepted. On success it returns each key's sanitized value, in declaration order. |
| `JoiRules.FirstRejectedIsReported` | src/schemas/product.validation.js:3-20 | When key k is the first rejected key, the schema reports exactly that key's failure. |
| `JoiRules.SomeKeyIsFirstRejected` | src/schemas/product.validation.js:3-20 | Every failing object schema has a first rejected key. |
| `ProductValidation.ValidateCreate` | src/schemas/product.validation.js:3-20 | Accepts iff `name`, `description`, `manager` and `password` are all present non-empty strings, with no length bound. On success the sanitized payload holds exactly those four strings. |
| `ProductValidation.CreateReportsFirstBadKey` | src/schemas/product.validation.js:4-19 | If a key is missing or not a string and every earlier key is fine, the error is that key's `any.required` or `string.base` message. |
| `ProductValidation.ValidateUpdate` | src/schemas/product.validation.js:22-40 | Accepts iff `password` is a non-empty string, `name`, `description` and `manager` are absent or non-empty strings, and `status` is absent or exactly `FOR_SALE` or `SOLD_OUT`. On success, absent fields stay absent and present ones are carried over. |
| `ProductValidation.PasswordOnlyUpdateIsValid` | src/schemas/product.validation.js:22-40 | A body holding only a password is a valid update with every other field absent. |
| `ProductValidation.UpdateRejectsUnknownStatus` | src/schemas/product.validation.js:32-35 | If the keys before `status` are fine, any other status value fails with "상태는 FOR_SALE 또는 SOLD_OUT 이어야 합니다.", even when the password is missing. |
| `ProductValidation.UpdateRequiresPassword` | src/schemas/product.validation.js:36-39 | If every other key is fine, a missing password fails with `any.required` and its message. |
| `ProductValidation.ValidateDelete` | src/schemas/product.validation.js:42-47 | Accepts iff `password` is a non-empty string. A missing password gives its `any.required` message. A non-string password gives its `string.base` message. |
| `ProductService.FindFirst` | src/schemas/product.service.js:31 | Returns a stored product that satisfies the query, or nothing iff no stored product does. |
| `ProductService.FindById` | src/schemas/product.service.js:13 | Returns a stored product with that id, or nothing iff no stored product has it. |
| `ProductService.FindByName` | src/schemas/product.service.js:31 | Returns a stored product with exactly that name, or nothing iff no stored product has it. |
| `ProductService.ValidateProductId` | src/schemas/product.service.js:4-10 | Passes iff the id is well-formed. Otherwise it fails with status 404 and "상품이 존재하지 않습니다.". |
| `ProductService.FindProductById` | src/schemas/product.service.js:12-20 | Returns a stored product with that id. It fails with the 404 not-found error iff no stored product has it. |
| `ProductService.FindByIdFindsMember` | src/schemas/product.service.js:12-20 | When ids are distinct, looking up a stored product's id returns that very product. |
| `ProductService.VerifyPassword` | src/schemas/product.service.js:22-28 | Passes iff the stored password equals the supplied one exactly. Otherwise it fails with status 401 and "비밀번호가 일치하지 않습니다.". |
| `ProductService.CheckDuplicateProductName` | src/schemas/product.service.js:30-37 | Fails with status 409 and "이미 등록된 상품입니다." iff some stored product has exactly that name. Otherwise it passes. |
| `Products.ViewOf` | src/routes/products.router.js:50 | The response view carries every stored field except the password, each unchanged. The view type has no password field. |
| `Products.ViewsOf` | src/routes/products.router.js:67-76 | Views a sequence item by item and keeps its length. |
| `Products.ViewIgnoresPassword` | src/routes/products.router.js:50 | Changing a product's password does not change its view. |
| `ProductsRouter.ValidateCreate` | src/routes/products.router.js:8-33 | Accepts iff all four keys are present strings of 1 to 50 characters. On success it returns exactly those strings. |
| `ProductsRouter.RouterSchemaIsStricter` | src/routes/products.router.js:8-33 | Every payload the router schema accepts is accepted by the validation file's create schema, with the same result. |
| `ProductsRouter.LongNameSeparatesSchemas` | src/routes/products.router.js:9-14 | A 51-character name passes the unbounded schema. The router schema rejects it with the `string.max` message. So the two schemas differ. |
| `ProductsRouter.CreateRejection` | src/routes/products.router.js:8-33 | A rejected create payload is reported for its first bad key, with that key's failure. |
| `ProductsRouter.MinimumLengthMessageUnreachable` | src/routes/products.router.js:11 | A rejected create payload never reports `string.min`. It reports one of `any.required`, `string.base`, `string.empty` or `string.max`, on one of the four keys. |
| `ProductsRouter.FindMaxOrder` | src/routes/products.router.js:40 | Finds nothing iff the store is empty. Otherwise it finds a stored product whose order is at least every stored order. |
| `ProductsRouter.NextOrder` | src/routes/products.router.js:40-41 | The next order is 1 on an empty store. Otherwise it is one more than some stored order and greater than every stored order. |
| `ProductsRouter.CreateOutcome` | src/routes/products.router.js:35-50 | Succeeds iff the router schema accepts the payload and the new id is unused. The new product has the payload's four strings, status `FOR_SALE`, both clock readings and the next order. A schema failure becomes a `ValidationError` with its message. |
| `ProductsRouter.CreatePreservesInvariant` | src/routes/products.router.js:40-48 | Appending a created product keeps orders strictly increasing in insertion order and ids distinct. |
| `ProductsRouter.CreateAcceptsDuplicateName` | src/routes/products.router.js:35-62 | A valid create whose name the duplicate-name guard would refuse still succeeds, and the store then holds that name twice. |
| `ProductsRouter.ProductStore.Create` | src/routes/products.router.js:35-62 | On success the store is the old store plus exactly the created product, and the answer is 201 with that product minus its password. On failure the store is unchanged and the error is passed on. The store invariant is kept. |
| `ProductsRouter.CreateFailureResponses` | src/routes/products.router.js:35-62 | A schema failure on create reaches the client as 400 with the failure's message. An id collision reaches it as the generic 500. |
| `ProductsRouter.Insert` | src/routes/products.router.js:66 | Inserting into a list sorted by descending order keeps it sorted and adds exactly that product. |
| `ProductsRouter.SortByOrderDesc` | src/routes/products.router.js:66 | The result is sorted by descending order and is a permutation of the input. |
| `ProductsRouter.ListProducts` | src/routes/products.router.js:65-83 | Answers 200 with one view per stored product, in descending order. The views are those of a permutation of the stored products, so each product is listed exactly once and no password is listed. |
| `ProductsRouter.SortOfIncreasingIsReverse` | src/routes/products.router.js:66 | In a store whose orders increase with insertion, sorting by descending order reverses the insertion sequence. |
| `ProductsRouter.ListIsNewestFirst` | src/routes/products.router.js:65-76 | In a well-formed store, the listing is the views of the stored products, newest first. |
| `ProductsRouter.GetProduct` | src/routes/products.router.js:86-108 | Fails with the 404 not-found error iff the id is malformed or no stored product has it. Otherwise it answers 200 with a stored product with that id, minus its password. It is a function of the store, so the store is not changed. |
| `ProductsRouter.GetProductReturnsStored` | src/routes/products.router.js:95-108 | In a well-formed store, the detail of a stored product is exactly that product's view. |
| `ProductsRouter.GetProductMissResponds404` | src/routes/products.router.js:89-100 | A malformed or unknown id reaches the client as 404 with "상품이 존재하지 않습니다.". |
| `Scenarios.TwoCreates` | src/routes/products.router.js:40-41 | Two valid creates on an empty store, with distinct ids, get orders 1 and 2. |
| `Scenarios.ListingOfTwo` | src/routes/products.router.js:65-76 | With two products where the second has the higher order, the listing shows the second one first. |

## Left out

- Unknown keys in a request body are ignored by the model. The validation library rejects them by default; that rule is not modelled.
- String lengths are counted in Unicode characters. JavaScript counts UTF-16 code units, so the two differ for characters outside the Basic Multilingual Plane.
- The database schema's save-time validation is not modelled. That schema declares a required `id` that the router never supplies, and declares no `order` field. The model stores the record as the router builds it.
- Identifier generation is a parameter of `Create`. A collision stands for the store's duplicate-key failure. That failure's real message text comes from the database driver; the model's `DuplicateKeyError` uses a fixed placeholder text.
- `mongoose.isValidObjectId` is a parameter `isValidId: string -> bool`.
- `ProductsRouter.GetProduct`, `ProductService.FindById` and `ProductService.FindProductById` compare ids as exact strings, with the stored id in its lower-case printed form. The database converts the requested id to an ObjectId first, which accepts hex digits in either case; that conversion is not modelled, so an upper-case spelling of a stored id is a miss in the model and a hit in the code.
- `ProductService.FindProductById`: a malformed id is treated as "no match". The library would instead raise a cast error, which the error handler answers with 500. `findProductById` has no caller here. The router's own detail handler checks validity before its own `findById` (src/routes/products.router.js:89-95).
- Create and detail responses expose the identifier under `_id`, plus the version key `__v`. The list exposes it as `id`. The model uses one view with `id` for all three.
- `ProductsRouter.NextOrder`: orders are unbounded integers. The code adds 1 to a JavaScript number, a double, so from 2^53 on `order + 1` equals `order`; that rounding is not modelled, and "above every stored order" relies on it being absent.
- `ProductsRouter.ListProducts`: the order of products that share an `order` value is not the database's. Under the store invariant no two products share one.
- The list route has no error handling. A storage failure there is not modelled.
- Storage failures in the create handler (`findOne`, `save`) and the detail handler (`findById`) are not modelled, apart from the duplicate key on create. The code passes them to the error handler, which answers 500.
- The clock is a parameter. `createdAt` and `updatedAt` are two separate readings, as in the code.
- Concurrency is not modelled. This includes the race between reading the largest order and saving.
- Logging is not modelled.
- Application bootstrapping is not modelled. It does not mount the router or the error handler.
- The service guards have no caller in this code, and no update or delete route exists. The model has no update or delete flow, only the guards and schemas.
