# reviews-ms: the review workflow, modelled in Dafny

`reviews-ms` is a message-driven service that creates, reads, updates and
deletes product reviews. This project models its workflow service
(`ReviewsService`) and the field constraints of its creation payload
(`CreateReviewDto`), and proves what they promise.

The model covers:

- **The product check** (`comprobateProductExists`). It sorts the bus
  client's answer into three outcomes. A truthy reply is the product. A
  falsy reply is `{404, "Product not found"}`. A rejection that is already an
  RpcException passes through unchanged. Any other rejection becomes
  `{500, "Error checking product existence"}`.
- **create, in its fixed order.** First the product check. Then a lookup of
  the *first* stored review for the product: the same user there means
  `{400, "User has already reviewed this product"}`. Then the insert: a
  failure there means `{500, "Failed to create review"}`.
- **findAll, findOne, update and remove.** The three id-addressed
  operations share the id check (`{400, "Invalid Review ID format"}`). A
  missing record is a 404 that names the id. Any other store failure is a
  500 that names the id and the operation.
- **The creation payload's constraints**, one predicate per validation
  decorator, and the typed value the validation pipe passes on.

## How it is modelled

- `values.dfy` (module `Values`): JavaScript values as they arrive in
  payloads and replies, and JavaScript truthiness.
- `create_review_dto.dfy` (module `CreateReviewDto`): the raw payload, the
  validity predicate `IsValid`, and `Validate`, which turns a valid payload
  into the typed `CreateReviewDto`.
- `review_store.dfy` (module `ReviewStore`): the `review` table as a
  `seq<Review>` in insertion order. It provides the store operations the
  service calls (`findFirst`, `findUnique`, `create`, `update`, `delete`) as
  functions over that sequence. The store raises P2025 when an update or
  delete names a missing id. It raises a unique-key error when an insert
  reuses an id.
- `reviews_service.dfy` (module `ReviewsService`): the error shapes, the
  product check, and the id check. Each operation gets a specification
  function (`CreateOutcome`, `FindAllOutcome`, `FindOneOutcome`,
  `UpdateOutcome`, `RemoveOutcome`). It maps the table and the
  collaborators' answers to a result and the new table. The class
  `ReviewsService` holds `reviews: seq<Review>`. Its methods run the steps
  one by one with early exits, and each is proved equal to its
  specification function. `Valid()` (unique primary keys) is kept by every
  method.
- `reviews_properties.dfy` (module `ReviewsProperties`): lemmas over the
  specification functions. They cover ordering, the duplicate rule, the
  error taxonomy, the frames, and the create-then-read and
  remove-then-read round trips.

The collaborators are inputs to each operation:

- The bus client's answer to `get_one_product` is a `ProductReply`: either
  `Resolved(value)` or `Rejected(thrown)`.
- A thrown value is `Rpc({status, message})` (an RpcException), `Db(error)`
  (a store error) or `Transport`. So `instanceof RpcException` becomes a
  constructor test.
- Each store call receives an injected `Option<DbError>`. `Some(e)` means
  the call throws `e` instead of doing its work.
- The id the store generates on insert is an input `newId`.

Notes on the code's error paths:

- Every failure path in the service is normalised into `{status, message}`
  except one. The duplicate lookup in `create` (`reviews.service.ts:54-56`)
  sits outside every `try`, so a store failure there escapes as the raw store
  error. `CreateErrors` proves that this is the one path that produces a raw
  error.
- `update` and `remove` map any store error with code P2025 to 404, even when
  the record exists. `findOne` does not look at P2025 at all, so a store
  failure in `findOne` is always a 500.

## Model

| member | source | states |
|---|---|---|
| `Values.TruthyIffNotFalsyLiteral` | src/reviews/reviews.service.ts:31 | the `!product` test fails exactly for undefined, null, false, 0 and the empty string |
| `CreateReviewDto.Validate` | src/reviews/dto/create-review.dto.ts:4-24 | a payload becomes a DTO exactly when it meets every declared constraint; the DTO carries the payload's values, has a non-empty user_id and a rating in [1, 5], and has no comment exactly when the comment was null or undefined |
| `CreateReviewDto.IsValidFieldByField` | src/reviews/dto/create-review.dto.ts:5-23 | the decorators amount to: user_id a non-empty string; product_id a number; rating an integer in [1, 5]; comment absent, null or a string |
| `CreateReviewDto.ValidateToPayload` | src/reviews/dto/create-review.dto.ts:4-24 | a DTO sent as a payload validates back to itself exactly when its user_id is non-empty and its rating is in [1, 5], and is rejected otherwise |
| `CreateReviewDto.ToPayloadValidate` | src/reviews/dto/create-review.dto.ts:21-23 | validation loses nothing except the difference between a null and an undefined comment |
| `ReviewStore.FirstIndex` | src/reviews/reviews.service.ts:54-56 | the position returned holds a matching row and no earlier row matches; no position means no row matches |
| `ReviewStore.FindFirstByProductIsFirst` | src/reviews/reviews.service.ts:54-56 | the lookup finds a review exactly when one exists for the product, and the one it finds is the earliest stored |
| `ReviewStore.FindUnique` | src/reviews/reviews.service.ts:110-112 | a row is returned exactly when the id is stored, and it is a stored row with that id |
| `ReviewStore.Insert` | src/reviews/reviews.service.ts:65-72 | the insert succeeds exactly when the id is not taken; it then appends exactly the new row, which is the row a lookup of its id returns afterwards, and keeps the primary key unique |
| `ReviewStore.UpdateByIdFrame` | src/reviews/reviews.service.ts:140-143 | updating succeeds exactly when the id is stored; it rewrites that row only, keeps its id, the order and the length, and keeps ids unique |
| `ReviewStore.DeleteByIdFrame` | src/reviews/reviews.service.ts:168-171 | deleting succeeds exactly when the id is stored; it returns that stored row, removes exactly its position while keeping the others in order, and leaves the id absent and the ids unique |
| `ReviewsService.CheckProductExists` | src/reviews/reviews.service.ts:24-46 | success exactly for a truthy reply, returning it; a falsy reply is the 404 "Product not found"; an RpcException rejection is passed through unchanged; any other rejection is the 500 "Error checking product existence"; every failure is normalised |
| `ReviewsService.ReviewsService.Create` | src/reviews/reviews.service.ts:48-80 | the step-by-step create (check, lookup, insert, each with early exit) yields the result and table of `CreateOutcome` and keeps ids unique |
| `ReviewsService.ReviewsService.FindAll` | src/reviews/reviews.service.ts:86-94 | the result is that of `FindAllOutcome` on the current table |
| `ReviewsService.ReviewsService.FindOne` | src/reviews/reviews.service.ts:102-126 | the result is that of `FindOneOutcome` on the current table; the table is only read |
| `ReviewsService.ReviewsService.Update` | src/reviews/reviews.service.ts:135-155 | the result and new table are those of `UpdateOutcome`, and ids stay unique |
| `ReviewsService.ReviewsService.Remove` | src/reviews/reviews.service.ts:163-182 | the result and new table are those of `RemoveOutcome`, and ids stay unique |
| `ReviewsProperties.RemoteErrorPassesThrough` | src/reviews/reviews.service.ts:36-45 | a rejected product request is a 404 exactly when the rejection is an RpcException with status 404, so a remote 404 that reaches the service as an RpcException is never turned into a 500; it is the 500 "Error checking product existence" exactly when the rejection is not an RpcException or already is that error |
| `ReviewsProperties.CreateChecksProductFirst` | src/reviews/reviews.service.ts:48-51 | when the product check fails, create fails with that error whatever the lookup and insert would do, and the table is unchanged; a falsy reply gives "Product not found" |
| `ReviewsProperties.CreateLooksUpBeforeInsert` | src/reviews/reviews.service.ts:54-60 | a duplicate is rejected with 400 whatever the insert would do (fault or generated id), and the table is unchanged |
| `ReviewsProperties.CreateDuplicateRule` | src/reviews/reviews.service.ts:54-60 | after a passing product check, create answers "User has already reviewed this product" exactly when the first stored review of the product has the same user |
| `ReviewsProperties.CreateAllowsSecondReviewBehindAnother` | src/reviews/reviews.service.ts:54-60 | a table where another user's review of product 42 comes first lets u1 review product 42 again: the rule does not make (user, product) pairs unique |
| `ReviewsProperties.CreateSuccess` | src/reviews/reviews.service.ts:48-73 | create succeeds exactly when the product check, lookup and insert all pass, the user is not the first reviewer of the product, and the id is free; the record is the input's fields plus the generated id, appended as the only change |
| `ReviewsProperties.CreateFailureLeavesTable` | src/reviews/reviews.service.ts:63-79 | every failing create leaves the table unchanged; an insert failure after passing checks (an injected store fault or a taken id) is the 500 "Failed to create review" |
| `ReviewsProperties.CreateErrors` | src/reviews/reviews.service.ts:48-80 | create's error is raw exactly when the product check passed and the duplicate lookup failed, and then it is that store error; every error create raises itself has status 400, 404 or 500 |
| `ReviewsProperties.CreateKeepsUniqueIds` | src/reviews/reviews.service.ts:65-72 | create keeps the primary key unique |
| `ReviewsProperties.FindAllReturnsTable` | src/reviews/reviews.service.ts:86-93 | findAll returns every stored review in order, or the 500 "Failed to fetch reviews" when the store fails |
| `ReviewsProperties.InvalidIdRejectedFirst` | src/reviews/reviews.service.ts:105-107 | findOne, update and remove answer "Invalid Review ID format" (400) for a non-string or empty id, whatever the table and store hold, and change nothing |
| `ReviewsProperties.FindOneAnswers` | src/reviews/reviews.service.ts:109-125 | with a working store, findOne succeeds exactly when the id is stored and returns the stored record with that id; otherwise it answers 404 "Review with id <id> not found"; any store failure is the 500 "Failed to fetch review with id <id>" |
| `ReviewsProperties.UpdateAnswers` | src/reviews/reviews.service.ts:136-154 | update succeeds exactly when the store works and the id is stored; it returns the stored record with the patch applied, which is in the new table; it changes only that record, only in the supplied fields, keeping ids unique; a missing id or P2025 is the 404 with the id, other failures the 500 "Failed to update review with id <id>"; failures change nothing |
| `ReviewsProperties.PatchedKeepsUnsuppliedFields` | src/reviews/reviews.service.ts:140-143 | an update overwrites exactly the supplied fields and never the id; an empty patch changes nothing |
| `ReviewsProperties.RemoveAnswers` | src/reviews/reviews.service.ts:164-181 | remove succeeds exactly when the store works and the id is stored; it returns the deleted snapshot and removes exactly that record's position, keeping the other records in order; a missing id or P2025 is the 404 with the id, other failures the 500 "Failed to delete review with id <id>"; failures change nothing |
| `ReviewsProperties.CreateThenFindOne` | src/reviews/reviews.service.ts:63-73 | reading a review by the id create just returned gives back exactly the created record |
| `ReviewsProperties.RemoveThenFindOne` | src/reviews/reviews.service.ts:168-171 | after a successful remove, findOne on that id answers 404 with the id |
| `ReviewsProperties.MessagesNameTheId` | src/reviews/reviews.service.ts:114-180 | every id-bearing 404 and 500 message contains the requested id |
| `ReviewsProperties.SameUserTwice` | src/reviews/reviews.service.ts:54-60 | u1's first review of product 42 is stored with the given fields; the same request again is answered 400 and changes nothing |

## Left out

- The NATS transport and the bus client (`client.send`, `firstValueFrom`)
  are network I/O. The request's settled answer is an input (`ProductReply`).
  Whether a remote error reaches the service as an RpcException instance
  is decided by the transport library, so both cases are inputs.
- Prisma internals are a foreign library. This covers SQL, UUID generation
  (the id is an input) and the detection of error codes. The order in which
  `findFirst` (in `create`) and `findMany` (in `findAll`) return rows without
  an `orderBy` is set by the database; the model takes insertion order. A store failure is an injected input.
- The database schema is not part of this model. Column types, defaults and
  any extra columns are not represented.
- `src/reviews/dto/update-review.dto.ts` is not part of this model. An update
  patch is any choice of the four fields, with no validation. The `id` the
  controller leaves in the update data is not modelled; it names the same row.
- The Nest modules, dependency injection and the controller only forward
  payloads unchanged.
- Logging (`Logger`, `console.error`) has no effect on results.
- Concurrent requests are not modelled. Each operation is sequential and
  atomic, so the race between two creates that both pass the lookup before
  either inserts is not represented.
- `class-transformer` coercion (`@Type(() => Number)`) is not modelled.
  Numbers are integers, so floats, NaN and the infinities (where `IsNumber`
  and `IsInt` differ) are not represented.
- The pipe's `whitelist` and `forbidNonWhitelisted` options, and the shape of
  the error a failed validation produces, are library behaviour.
- The product object that `comprobateProductExists` returns is not used by
  `create`. Its content is opaque here.
