/** The review workflow (`ReviewsService`): the remote product check, the
    create steps in their fixed order, and read, update and delete with one
    error-mapping rule. Each operation is first given as a function of the
    table and of what its collaborators answer (the specification), then as a
    method of the class that holds the table, proved to agree with it. */
module ReviewsService {
  import opened Values
  import opened ReviewStore
  import opened CreateReviewDto

  /** The `{ status, message }` payload of an RpcException. */
  datatype RpcError = RpcError(status: int, message: string)

  /** What an operation throws: an RpcException, an error raised by the
      store, or anything else, such as a failure of the message-bus client
      (timeout, closed connection, a reply stream that ends without a value)
      or a remote error that does not arrive as an RpcException instance. */
  datatype Thrown = Rpc(error: RpcError) | Db(dbError: DbError) | Transport

  datatype Result<T> = Ok(value: T) | Err(thrown: Thrown)

  /** How the bus client's request for `get_one_product` settles: it
      resolves with the product service's reply, or it rejects. */
  datatype ProductReply = Resolved(product: JsValue) | Rejected(reason: Thrown)

  /** The result of an operation together with the table afterwards. */
  datatype Outcome<T> = Outcome(result: Result<T>, rows: seq<Review>)

  const ProductNotFound := RpcError(404, "Product not found")
  const ProductCheckFailed := RpcError(500, "Error checking product existence")
  const AlreadyReviewed := RpcError(400, "User has already reviewed this product")
  const CreateFailed := RpcError(500, "Failed to create review")
  const FetchAllFailed := RpcError(500, "Failed to fetch reviews")
  const InvalidId := RpcError(400, "Invalid Review ID format")

  function ReviewNotFound(id: string): RpcError
  {
    RpcError(404, "Review with id " + id + " not found")
  }

  function FetchFailed(id: string): RpcError
  {
    RpcError(500, "Failed to fetch review with id " + id)
  }

  function UpdateFailed(id: string): RpcError
  {
    RpcError(500, "Failed to update review with id " + id)
  }

  function DeleteFailed(id: string): RpcError
  {
    RpcError(500, "Failed to delete review with id " + id)
  }

  /** The catch blocks of `comprobateProductExists` and `findOne`: an
      RpcException is re-thrown as it is, anything else is wrapped. */
  function Rethrow(t: Thrown, fallback: RpcError): RpcError
  {
    if t.Rpc? then t.error else fallback
  }

  /** The catch blocks of `update` and `remove`: the store's "record not
      found" (P2025) becomes a 404, anything else is wrapped. */
  function WriteFailure(t: Thrown, id: string, fallback: RpcError): RpcError
  {
    if t == Db(RecordNotFound) then ReviewNotFound(id) else fallback
  }

  /** One call into the store: the injected fault if there is one, otherwise
      what the store computes. */
  function StoreCall<T>(fault: Option<DbError>, computed: Result<T>): Result<T>
  {
    if fault.Some? then Err(Db(fault.value)) else computed
  }

  /** `comprobateProductExists`: a truthy reply is the product; a falsy one
      is a 404; a rejection that is already an RpcException (the product
      service's own 404, say) passes through unchanged; any other rejection
      becomes a 500. Whatever fails, fails normalised. */
  function CheckProductExists(reply: ProductReply): (r: Result<JsValue>)
    ensures r.Ok? <==> reply.Resolved? && Truthy(reply.product)
    ensures r.Ok? ==> r.value == reply.product
    ensures r.Err? ==> r.thrown.Rpc?
    ensures reply.Resolved? && !Truthy(reply.product) ==> r == Err(Rpc(ProductNotFound))
    ensures reply.Rejected? && reply.reason.Rpc? ==> r == Err(reply.reason)
    ensures reply.Rejected? && !reply.reason.Rpc? ==> r == Err(Rpc(ProductCheckFailed))
  {
    var attempt: Result<JsValue> :=
      match reply
      case Resolved(product) =>
        if !Truthy(product) then Err(Rpc(ProductNotFound)) else Ok(product)
      case Rejected(reason) => Err(reason);
    match attempt
    case Ok(product) => Ok(product)
    case Err(t) => Err(Rpc(Rethrow(t, ProductCheckFailed)))
  }

  /** `typeof id === 'string' && id.length !== 0` */
  predicate IsValidId(id: JsValue)
  {
    id.Str? && id.s != ""
  }

  /** `create`: product check, then the duplicate lookup, then the insert. */
  function CreateOutcome(
    rows: seq<Review>, dto: CreateReviewDto, reply: ProductReply,
    lookupFault: Option<DbError>, insertFault: Option<DbError>, newId: ReviewId): Outcome<Review>
  {
    var product := CheckProductExists(reply);
    if product.Err? then Outcome(Err(product.thrown), rows)
    else
      // The lookup is outside any try block: its failure escapes as it is.
      var existing := StoreCall(lookupFault, Ok(FindFirstByProduct(rows, dto.productId)));
      if existing.Err? then Outcome(Err(existing.thrown), rows)
      else if existing.value.Some? && existing.value.value.userId == dto.userId then
        Outcome(Err(Rpc(AlreadyReviewed)), rows)
      else
        var review := Review(newId, dto.userId, dto.productId, dto.rating, dto.comment);
        var inserted :=
          StoreCall(insertFault,
            match Insert(rows, review)
            case None => Err(Db(UniqueViolation))
            case Some(rows') => Ok(rows'));
        match inserted
        case Err(_) => Outcome(Err(Rpc(CreateFailed)), rows)
        case Ok(rows') => Outcome(Ok(review), rows')
  }

  /** `findAll` */
  function FindAllOutcome(rows: seq<Review>, fault: Option<DbError>): (r: Result<seq<Review>>)
  {
    match StoreCall(fault, Ok(rows))
    case Ok(all) => Ok(all)
    case Err(_) => Err(Rpc(FetchAllFailed))
  }

  /** `findOne`: the 404 is thrown inside the try block and re-thrown by its catch. */
  function FindOneOutcome(rows: seq<Review>, id: JsValue, fault: Option<DbError>): Result<Review>
  {
    if !IsValidId(id) then Err(Rpc(InvalidId))
    else
      var attempt: Result<Review> :=
        match StoreCall<Option<Review>>(fault, Ok(FindUnique(rows, id.s)))
        case Err(t) => Err(t)
        case Ok(None) => Err(Rpc(ReviewNotFound(id.s)))
        case Ok(Some(review)) => Ok(review);
      match attempt
      case Ok(review) => Ok(review)
      case Err(t) => Err(Rpc(Rethrow(t, FetchFailed(id.s))))
  }

  /** `update` */
  function UpdateOutcome(rows: seq<Review>, id: JsValue, patch: ReviewPatch, fault: Option<DbError>): Outcome<Review>
  {
    if !IsValidId(id) then Outcome(Err(Rpc(InvalidId)), rows)
    else
      var attempt: Result<(Review, seq<Review>)> :=
        StoreCall(fault,
          match UpdateById(rows, id.s, patch)
          case None => Err(Db(RecordNotFound))
          case Some(done) => Ok(done));
      match attempt
      case Ok((updated, rows')) => Outcome(Ok(updated), rows')
      case Err(t) => Outcome(Err(Rpc(WriteFailure(t, id.s, UpdateFailed(id.s)))), rows)
  }

  /** `remove` */
  function RemoveOutcome(rows: seq<Review>, id: JsValue, fault: Option<DbError>): Outcome<Review>
  {
    if !IsValidId(id) then Outcome(Err(Rpc(InvalidId)), rows)
    else
      var attempt: Result<(Review, seq<Review>)> :=
        StoreCall(fault,
          match DeleteById(rows, id.s)
          case None => Err(Db(RecordNotFound))
          case Some(done) => Ok(done));
      match attempt
      case Ok((deleted, rows')) => Outcome(Ok(deleted), rows')
      case Err(t) => Outcome(Err(Rpc(WriteFailure(t, id.s, DeleteFailed(id.s)))), rows)
  }

  /** The service, holding the `review` table in insertion order. The bus
      client's reply, the store's faults and the generated id are passed to
      each method as inputs. */
  class ReviewsService {
    var reviews: seq<Review>

    ghost predicate Valid()
      reads this
    {
      UniqueIds(reviews)
    }

    constructor ()
      ensures Valid() && reviews == []
    {
      reviews := [];
    }

    method Create(
      dto: CreateReviewDto, reply: ProductReply,
      lookupFault: Option<DbError>, insertFault: Option<DbError>, newId: ReviewId)
      returns (r: Result<Review>)
      requires Valid()
      modifies this
      ensures Valid()
      ensures Outcome(r, reviews) == CreateOutcome(old(reviews), dto, reply, lookupFault, insertFault, newId)
    {
      var product := CheckProductExists(reply);
      if product.Err? {
        return Err(product.thrown);
      }
      if lookupFault.Some? {
        return Err(Db(lookupFault.value));
      }
      var existing := FindFirstByProduct(reviews, dto.productId);
      if existing.Some? && existing.value.userId == dto.userId {
        return Err(Rpc(AlreadyReviewed));
      }
      var review := Review(newId, dto.userId, dto.productId, dto.rating, dto.comment);
      if insertFault.Some? {
        return Err(Rpc(CreateFailed));
      }
      var inserted := Insert(reviews, review);
      if inserted.None? {
        return Err(Rpc(CreateFailed));
      }
      reviews := inserted.value;
      r := Ok(review);
    }

    method FindAll(fault: Option<DbError>) returns (r: Result<seq<Review>>)
      ensures r == FindAllOutcome(reviews, fault)
    {
      if fault.Some? {
        return Err(Rpc(FetchAllFailed));
      }
      r := Ok(reviews);
    }

    method FindOne(id: JsValue, fault: Option<DbError>) returns (r: Result<Review>)
      ensures r == FindOneOutcome(reviews, id, fault)
    {
      if !IsValidId(id) {
        return Err(Rpc(InvalidId));
      }
      if fault.Some? {
        return Err(Rpc(FetchFailed(id.s)));
      }
      var review := FindUnique(reviews, id.s);
      if review.None? {
        return Err(Rpc(ReviewNotFound(id.s)));
      }
      r := Ok(review.value);
    }

    method Update(id: JsValue, patch: ReviewPatch, fault: Option<DbError>) returns (r: Result<Review>)
      requires Valid()
      modifies this
      ensures Valid()
      ensures Outcome(r, reviews) == UpdateOutcome(old(reviews), id, patch, fault)
    {
      if !IsValidId(id) {
        return Err(Rpc(InvalidId));
      }
      if fault.Some? {
        return Err(Rpc(WriteFailure(Db(fault.value), id.s, UpdateFailed(id.s))));
      }
      UpdateByIdFrame(reviews, id.s, patch);
      var done := UpdateById(reviews, id.s, patch);
      if done.None? {
        return Err(Rpc(ReviewNotFound(id.s)));
      }
      var (updated, rows') := done.value;
      reviews := rows';
      r := Ok(updated);
    }

    method Remove(id: JsValue, fault: Option<DbError>) returns (r: Result<Review>)
      requires Valid()
      modifies this
      ensures Valid()
      ensures Outcome(r, reviews) == RemoveOutcome(old(reviews), id, fault)
    {
      if !IsValidId(id) {
        return Err(Rpc(InvalidId));
      }
      if fault.Some? {
        return Err(Rpc(WriteFailure(Db(fault.value), id.s, DeleteFailed(id.s))));
      }
      DeleteByIdFrame(reviews, id.s);
      var done := DeleteById(reviews, id.s);
      if done.None? {
        return Err(Rpc(ReviewNotFound(id.s)));
      }
      var (deleted, rows') := done.value;
      reviews := rows';
      r := Ok(deleted);
    }
  }
}
