/** What the review workflow promises, stated over the specification
    functions of module ReviewsService for every table and every answer of
    the collaborators. */
module ReviewsProperties {
  import opened Values
  import opened ReviewStore
  import opened CreateReviewDto
  import opened ReviewsService

  // ---- The product check ------------------------------------------------

  /** A remote error already in normalised form is never reclassified: a
      remote 404 that reaches the service as an RpcException stays a 404,
      and the service makes its own 500 only from a raw failure. */
  lemma RemoteErrorPassesThrough(reply: ProductReply)
    requires reply.Rejected?
    ensures CheckProductExists(reply).Err?
    ensures CheckProductExists(reply).thrown.error.status == 404 <==>
            reply.reason.Rpc? && reply.reason.error.status == 404
    ensures CheckProductExists(reply).thrown.error == ProductCheckFailed <==>
            !reply.reason.Rpc? || reply.reason.error == ProductCheckFailed
  {
  }

  // ---- create -----------------------------------------------------------

  /** The product check runs first: when it fails, create fails with its
      error whatever the lookup and the insert would have done, and the
      table is untouched. A falsy reply is the 404 "Product not found". */
  lemma CreateChecksProductFirst(
    rows: seq<Review>, dto: CreateReviewDto, reply: ProductReply,
    lookupFault: Option<DbError>, insertFault: Option<DbError>, newId: ReviewId,
    lookupFault': Option<DbError>, insertFault': Option<DbError>, newId': ReviewId)
    requires CheckProductExists(reply).Err?
    ensures CreateOutcome(rows, dto, reply, lookupFault, insertFault, newId)
         == CreateOutcome(rows, dto, reply, lookupFault', insertFault', newId')
         == Outcome(Err(CheckProductExists(reply).thrown), rows)
    ensures reply.Resolved? ==>
            CreateOutcome(rows, dto, reply, lookupFault, insertFault, newId).result == Err(Rpc(ProductNotFound))
  {
  }

  /** The duplicate lookup runs before the insert: a duplicate is rejected
      whatever the insert would have done, and the table is untouched. */
  lemma CreateLooksUpBeforeInsert(
    rows: seq<Review>, dto: CreateReviewDto, reply: ProductReply,
    insertFault: Option<DbError>, newId: ReviewId,
    insertFault': Option<DbError>, newId': ReviewId)
    requires CheckProductExists(reply).Ok?
    requires exists i :: 0 <= i < |rows| && rows[i].productId == dto.productId
    requires FindFirstByProduct(rows, dto.productId).value.userId == dto.userId
    ensures CreateOutcome(rows, dto, reply, None, insertFault, newId)
         == CreateOutcome(rows, dto, reply, None, insertFault', newId')
         == Outcome(Err(Rpc(AlreadyReviewed)), rows)
  {
    FindFirstByProductIsFirst(rows, dto.productId);
  }

  /** The duplicate rule: once the product is known to exist and the lookup
      succeeds, create answers 400 exactly when the FIRST stored review for
      the product belongs to the same user. */
  lemma CreateDuplicateRule(
    rows: seq<Review>, dto: CreateReviewDto, reply: ProductReply,
    insertFault: Option<DbError>, newId: ReviewId)
    requires CheckProductExists(reply).Ok?
    ensures CreateOutcome(rows, dto, reply, None, insertFault, newId).result == Err(Rpc(AlreadyReviewed))
       <==> exists k :: && 0 <= k < |rows|
                        && rows[k].productId == dto.productId
                        && rows[k].userId == dto.userId
                        && forall j :: 0 <= j < k ==> rows[j].productId != dto.productId
  {
    FindFirstByProductIsFirst(rows, dto.productId);
  }

  /** A matching review that is not the first for its product does not block
      create: the rule does not make (user, product) pairs unique. */
  lemma CreateAllowsSecondReviewBehindAnother(reply: ProductReply)
    requires CheckProductExists(reply).Ok?
    ensures
      var rows := [Review("r1", "u2", 42, 4, None), Review("r2", "u1", 42, 5, None)];
      var outcome := CreateOutcome(rows, CreateReviewDto("u1", 42, 3, None), reply, None, None, "r3");
      && outcome.result == Ok(Review("r3", "u1", 42, 3, None))
      && |outcome.rows| == 3
      && outcome.rows[1].userId == outcome.rows[2].userId == "u1"
      && outcome.rows[1].productId == outcome.rows[2].productId == 42
  {
    var rows := [Review("r1", "u2", 42, 4, None), Review("r2", "u1", 42, 5, None)];
    assert FindFirstByProduct(rows, 42) == Some(rows[0]);
    assert !HasId(rows, "r3");
  }

  /** When create succeeds, and only then: every check passed, the record
      carries the input's fields and the generated id, and the table gains
      exactly that record at the end. */
  lemma CreateSuccess(
    rows: seq<Review>, dto: CreateReviewDto, reply: ProductReply,
    lookupFault: Option<DbError>, insertFault: Option<DbError>, newId: ReviewId)
    ensures
      var outcome := CreateOutcome(rows, dto, reply, lookupFault, insertFault, newId);
      outcome.result.Ok? <==>
        && CheckProductExists(reply).Ok?
        && lookupFault.None?
        && !(FindFirstByProduct(rows, dto.productId).Some? &&
             FindFirstByProduct(rows, dto.productId).value.userId == dto.userId)
        && insertFault.None?
        && !HasId(rows, newId)
    ensures
      var outcome := CreateOutcome(rows, dto, reply, lookupFault, insertFault, newId);
      outcome.result.Ok? ==>
        && outcome.result.value == Review(newId, dto.userId, dto.productId, dto.rating, dto.comment)
        && outcome.rows == rows + [outcome.result.value]
  {
  }

  /** Every failing create leaves the table as it was; the insert's own
      failure is the 500 "Failed to create review". */
  lemma CreateFailureLeavesTable(
    rows: seq<Review>, dto: CreateReviewDto, reply: ProductReply,
    lookupFault: Option<DbError>, insertFault: Option<DbError>, newId: ReviewId)
    ensures
      var outcome := CreateOutcome(rows, dto, reply, lookupFault, insertFault, newId);
      outcome.result.Err? ==> outcome.rows == rows
    ensures
      && CheckProductExists(reply).Ok? && lookupFault.None?
      && !(FindFirstByProduct(rows, dto.productId).Some? &&
           FindFirstByProduct(rows, dto.productId).value.userId == dto.userId)
      && (insertFault.Some? || HasId(rows, newId))
      ==> CreateOutcome(rows, dto, reply, lookupFault, insertFault, newId).result == Err(Rpc(CreateFailed))
  {
  }

  /** The errors create reports: each is normalised with status 400, 404
      or 500, except a failure of the duplicate lookup, which escapes as the
      store raised it. */
  lemma CreateErrors(
    rows: seq<Review>, dto: CreateReviewDto, reply: ProductReply,
    lookupFault: Option<DbError>, insertFault: Option<DbError>, newId: ReviewId)
    ensures
      var r := CreateOutcome(rows, dto, reply, lookupFault, insertFault, newId).result;
      r.Err? && !r.thrown.Rpc? <==> CheckProductExists(reply).Ok? && lookupFault.Some?
    ensures
      var r := CreateOutcome(rows, dto, reply, lookupFault, insertFault, newId).result;
      CheckProductExists(reply).Ok? && lookupFault.Some? ==> r == Err(Db(lookupFault.value))
    ensures
      var r := CreateOutcome(rows, dto, reply, lookupFault, insertFault, newId).result;
      r.Err? && r.thrown.Rpc? && !(reply.Rejected? && reply.reason.Rpc?) ==>
        r.thrown.error.status in {400, 404, 500}
  {
  }

  /** A create keeps the primary key unique. */
  lemma CreateKeepsUniqueIds(
    rows: seq<Review>, dto: CreateReviewDto, reply: ProductReply,
    lookupFault: Option<DbError>, insertFault: Option<DbError>, newId: ReviewId)
    requires UniqueIds(rows)
    ensures UniqueIds(CreateOutcome(rows, dto, reply, lookupFault, insertFault, newId).rows)
  {
  }

  // ---- findAll ----------------------------------------------------------

  /** findAll returns every stored review, in order, or the 500 "Failed to
      fetch reviews". */
  lemma FindAllReturnsTable(rows: seq<Review>, fault: Option<DbError>)
    ensures fault.None? ==> FindAllOutcome(rows, fault) == Ok(rows)
    ensures fault.Some? ==> FindAllOutcome(rows, fault) == Err(Rpc(FetchAllFailed))
  {
  }

  // ---- findOne, update, remove ------------------------------------------

  /** The id check comes before any store access: a non-string or empty id
      gives 400 "Invalid Review ID format" whatever the table holds and
      whatever the store would do, and nothing changes. */
  lemma InvalidIdRejectedFirst(
    rows: seq<Review>, id: JsValue, patch: ReviewPatch, fault: Option<DbError>)
    requires !IsValidId(id)
    ensures FindOneOutcome(rows, id, fault) == Err(Rpc(InvalidId))
    ensures UpdateOutcome(rows, id, patch, fault) == Outcome(Err(Rpc(InvalidId)), rows)
    ensures RemoveOutcome(rows, id, fault) == Outcome(Err(Rpc(InvalidId)), rows)
  {
  }

  /** findOne: with a well-formed id and a working store it finds the
      review with that id, or reports 404 with the id; a store failure is a
      500 with the id, even when the store raised P2025. */
  lemma FindOneAnswers(rows: seq<Review>, id: string, fault: Option<DbError>)
    requires id != ""
    ensures fault.None? ==>
      (FindOneOutcome(rows, Str(id), fault).Ok? <==> HasId(rows, id))
    ensures fault.None? && HasId(rows, id) ==>
      var r := FindOneOutcome(rows, Str(id), fault);
      r.value in rows && r.value.id == id
    ensures fault.None? && !HasId(rows, id) ==>
      FindOneOutcome(rows, Str(id), fault) == Err(Rpc(ReviewNotFound(id)))
    ensures fault.Some? ==> FindOneOutcome(rows, Str(id), fault) == Err(Rpc(FetchFailed(id)))
  {
  }

  /** update with a well-formed id: a missing id is a 404, a store failure
      a 500 (a P2025 from the store is a 404); on failure nothing changes. On
      success only the addressed record changes, and only in the supplied
      fields. */
  lemma UpdateAnswers(rows: seq<Review>, id: string, patch: ReviewPatch, fault: Option<DbError>)
    requires id != "" && UniqueIds(rows)
    ensures
      var outcome := UpdateOutcome(rows, Str(id), patch, fault);
      && (outcome.result.Ok? <==> fault.None? && HasId(rows, id))
      && (outcome.result.Err? ==> outcome.rows == rows)
      && (fault.None? && !HasId(rows, id) ==> outcome.result == Err(Rpc(ReviewNotFound(id))))
      && (fault == Some(RecordNotFound) ==> outcome.result == Err(Rpc(ReviewNotFound(id))))
      && (fault.Some? && fault != Some(RecordNotFound) ==> outcome.result == Err(Rpc(UpdateFailed(id))))
    ensures
      var outcome := UpdateOutcome(rows, Str(id), patch, fault);
      outcome.result.Ok? ==>
        && outcome.result.value.id == id
        && outcome.result.value in outcome.rows
        && outcome.result.value == Patched(FindUnique(rows, id).value, patch)
        && UniqueIds(outcome.rows)
        && |outcome.rows| == |rows|
        && forall i :: 0 <= i < |rows| ==>
             outcome.rows[i] == if rows[i].id == id then Patched(rows[i], patch) else rows[i]
  {
    UpdateByIdFrame(rows, id, patch);
  }

  /** The patch overwrites the supplied fields and keeps the others. */
  lemma PatchedKeepsUnsuppliedFields(review: Review, patch: ReviewPatch)
    ensures Patched(review, patch).id == review.id
    ensures Patched(review, patch).userId == if patch.userId.Some? then patch.userId.value else review.userId
    ensures Patched(review, patch).productId == if patch.productId.Some? then patch.productId.value else review.productId
    ensures Patched(review, patch).rating == if patch.rating.Some? then patch.rating.value else review.rating
    ensures Patched(review, patch).comment == if patch.comment.Some? then patch.comment.value else review.comment
    ensures patch == ReviewPatch(None, None, None, None) ==> Patched(review, patch) == review
  {
  }

  /** remove with a well-formed id: a missing id is a 404, a store failure
      a 500 (a P2025 from the store is a 404); on failure nothing changes. On
      success it returns the deleted record and removes exactly it. */
  lemma RemoveAnswers(rows: seq<Review>, id: string, fault: Option<DbError>)
    requires id != "" && UniqueIds(rows)
    ensures
      var outcome := RemoveOutcome(rows, Str(id), fault);
      && (outcome.result.Ok? <==> fault.None? && HasId(rows, id))
      && (outcome.result.Err? ==> outcome.rows == rows)
      && (fault.None? && !HasId(rows, id) ==> outcome.result == Err(Rpc(ReviewNotFound(id))))
      && (fault == Some(RecordNotFound) ==> outcome.result == Err(Rpc(ReviewNotFound(id))))
      && (fault.Some? && fault != Some(RecordNotFound) ==> outcome.result == Err(Rpc(DeleteFailed(id))))
    ensures
      var outcome := RemoveOutcome(rows, Str(id), fault);
      outcome.result.Ok? ==>
        && outcome.result.value in rows
        && outcome.result.value.id == id
        && |outcome.rows| == |rows| - 1
        && UniqueIds(outcome.rows)
        && (exists k :: 0 <= k < |rows| && rows[k].id == id && outcome.rows == RemoveAt(rows, k))
        && forall r :: r in outcome.rows <==> r in rows && r.id != id
  {
    DeleteByIdFrame(rows, id);
  }

  // ---- Round trips ------------------------------------------------------

  /** Reading a review right after creating it gives back the same record. */
  lemma CreateThenFindOne(
    rows: seq<Review>, dto: CreateReviewDto, reply: ProductReply,
    lookupFault: Option<DbError>, insertFault: Option<DbError>, newId: ReviewId)
    requires CreateOutcome(rows, dto, reply, lookupFault, insertFault, newId).result.Ok?
    ensures
      var outcome := CreateOutcome(rows, dto, reply, lookupFault, insertFault, newId);
      FindOneOutcome(outcome.rows, Str(newId), None) == outcome.result
  {
    var outcome := CreateOutcome(rows, dto, reply, lookupFault, insertFault, newId);
    var review := outcome.result.value;
    assert outcome.rows == rows + [review] && !HasId(rows, newId);
    assert forall j :: 0 <= j < |rows| ==> outcome.rows[j].id != newId;
    assert outcome.rows[|rows|] == review;
  }

  /** Once a review is removed, reading its id reports 404 with the id. */
  lemma RemoveThenFindOne(rows: seq<Review>, id: string, fault: Option<DbError>)
    requires id != "" && UniqueIds(rows)
    requires RemoveOutcome(rows, Str(id), fault).result.Ok?
    ensures FindOneOutcome(RemoveOutcome(rows, Str(id), fault).rows, Str(id), None)
         == Err(Rpc(ReviewNotFound(id)))
  {
    DeleteByIdFrame(rows, id);
  }

  /** Every id-bearing message names the id. */
  lemma MessagesNameTheId(id: string)
    ensures ReviewNotFound(id).message[15..15 + |id|] == id
    ensures FetchFailed(id).message[31..31 + |id|] == id
    ensures UpdateFailed(id).message[32..32 + |id|] == id
    ensures DeleteFailed(id).message[32..32 + |id|] == id
  {
  }

  // ---- Scenarios --------------------------------------------------------

  /** A first review of product 42 by "u1" is stored as given; a second one
      by the same user is rejected with 400 and changes nothing. */
  lemma SameUserTwice(reply: ProductReply)
    requires CheckProductExists(reply).Ok?
    ensures
      var dto := CreateReviewDto("u1", 42, 5, None);
      var first := CreateOutcome([], dto, reply, None, None, "a1");
      var second := CreateOutcome(first.rows, dto, reply, None, None, "a2");
      && first.result == Ok(Review("a1", "u1", 42, 5, None))
      && second == Outcome(Err(Rpc(AlreadyReviewed)), first.rows)
  {
    var dto := CreateReviewDto("u1", 42, 5, None);
    var first := CreateOutcome([], dto, reply, None, None, "a1");
    assert first.rows == [Review("a1", "u1", 42, 5, None)];
    assert FindFirstByProduct(first.rows, 42) == Some(first.rows[0]);
  }
}
