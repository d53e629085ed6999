/** The `review` table and the store operations the service calls on it
    (`findFirst`, `findUnique`, `create`, `update`, `delete`), over the rows
    in insertion order; `findMany` without a filter is the whole table, which
    `findAll` reads directly. The store never checks business rules. */
module ReviewStore {
  import opened Values

  /** A generated review id: a UUID, never empty. */
  type ReviewId = s: string | s != [] witness "0"

  datatype Review = Review(
    id: ReviewId,
    userId: string,
    productId: int,
    rating: int,
    comment: Option<string>)

  /** The fields an update may supply; `None` leaves a field as it is. A
      supplied comment may be `Some(None)`, which clears it. */
  datatype ReviewPatch = ReviewPatch(
    userId: Option<string>,
    productId: Option<int>,
    rating: Option<int>,
    comment: Option<Option<string>>)

  /** An error the store raises: a known request error carries its code. */
  datatype DbError = KnownRequest(code: string) | UnknownDbError

  /** "An operation failed because it depends on one or more records that
      were required but not found." */
  const RecordNotFound: DbError := KnownRequest("P2025")

  /** A unique constraint failed (here: the primary key). */
  const UniqueViolation: DbError := KnownRequest("P2002")

  /** The primary key is unique. */
  ghost predicate UniqueIds(rows: seq<Review>)
  {
    forall i, j :: 0 <= i < j < |rows| ==> rows[i].id != rows[j].id
  }

  predicate HasId(rows: seq<Review>, id: string)
  {
    exists i :: 0 <= i < |rows| && rows[i].id == id
  }

  /** The position of the first row satisfying `p`, if there is one. */
  function FirstIndex(rows: seq<Review>, p: Review -> bool): (r: Option<nat>)
    ensures r.Some? ==> r.value < |rows| && p(rows[r.value])
    ensures r.Some? ==> forall j :: 0 <= j < r.value ==> !p(rows[j])
    ensures r.None? ==> forall j :: 0 <= j < |rows| ==> !p(rows[j])
  {
    if rows == [] then None
    else if p(rows[0]) then Some(0)
    else match FirstIndex(rows[1..], p)
      case None => None
      case Some(k) => Some(k + 1)
  }

  /** `findFirst({ where: { product_id } })`: the first row for the product. */
  function FindFirstByProduct(rows: seq<Review>, productId: int): Option<Review>
  {
    match FirstIndex(rows, (r: Review) => r.productId == productId)
    case None => None
    case Some(k) => Some(rows[k])
  }

  /** The position of the row with the given id. */
  function IndexOfId(rows: seq<Review>, id: string): Option<nat>
  {
    FirstIndex(rows, (r: Review) => r.id == id)
  }

  /** `findUnique({ where: { id } })`: the row with that id, or null. */
  function FindUnique(rows: seq<Review>, id: string): (r: Option<Review>)
    ensures r.Some? <==> HasId(rows, id)
    ensures r.Some? ==> r.value in rows && r.value.id == id
  {
    match IndexOfId(rows, id)
    case None => None
    case Some(k) => Some(rows[k])
  }

  /** `create({ data })`: appends the row, or fails on a taken primary key.
      After a successful insert the new row is the one its id finds, and the
      primary key stays unique. */
  function Insert(rows: seq<Review>, review: Review): (r: Option<seq<Review>>)
    ensures r.Some? <==> !HasId(rows, review.id)
    ensures r.Some? ==> r.value == rows + [review]
    ensures r.Some? ==> FindUnique(r.value, review.id) == Some(review)
    ensures r.Some? && UniqueIds(rows) ==> UniqueIds(r.value)
  {
    if HasId(rows, review.id) then None
    else
      var rows' := rows + [review];
      assert forall j :: 0 <= j < |rows| ==> rows'[j].id != review.id;
      assert rows'[|rows|] == review;
      Some(rows')
  }

  /** The record with the supplied fields of `patch` overwritten. */
  function Patched(review: Review, patch: ReviewPatch): Review
  {
    Review(
      review.id,
      match patch.userId case None => review.userId case Some(u) => u,
      match patch.productId case None => review.productId case Some(p) => p,
      match patch.rating case None => review.rating case Some(n) => n,
      match patch.comment case None => review.comment case Some(c) => c)
  }

  /** `update({ where: { id }, data })`: the updated row and the new table,
      or `None` when no row has the id (the store then raises P2025). */
  function UpdateById(rows: seq<Review>, id: string, patch: ReviewPatch): Option<(Review, seq<Review>)>
  {
    match IndexOfId(rows, id)
    case None => None
    case Some(k) => Some((Patched(rows[k], patch), rows[k := Patched(rows[k], patch)]))
  }

  /** `delete({ where: { id } })`: the deleted row and the new table, or
      `None` when no row has the id (the store then raises P2025). */
  function DeleteById(rows: seq<Review>, id: string): Option<(Review, seq<Review>)>
  {
    match IndexOfId(rows, id)
    case None => None
    case Some(k) => Some((rows[k], RemoveAt(rows, k)))
  }

  /** The rows without position `k`. */
  function RemoveAt(rows: seq<Review>, k: nat): seq<Review>
    requires k < |rows|
  {
    rows[..k] + rows[k + 1..]
  }

  /** Only the first row for a product takes part in `findFirst`: a later
      row for the same product is never returned. */
  lemma FindFirstByProductIsFirst(rows: seq<Review>, productId: int)
    ensures FindFirstByProduct(rows, productId).Some? <==>
            exists i :: 0 <= i < |rows| && rows[i].productId == productId
    ensures FindFirstByProduct(rows, productId).Some? ==>
            exists k :: 0 <= k < |rows| && FindFirstByProduct(rows, productId).value == rows[k]
                        && rows[k].productId == productId
                        && forall j :: 0 <= j < k ==> rows[j].productId != productId
  {
    var r := FirstIndex(rows, (r: Review) => r.productId == productId);
    if r.Some? {
      assert rows[r.value].productId == productId;
    }
  }

  /** Updating a present id rewrites that row only, keeping its id; every
      other row, and the order, stay as they were. */
  lemma UpdateByIdFrame(rows: seq<Review>, id: string, patch: ReviewPatch)
    requires UniqueIds(rows)
    ensures UpdateById(rows, id, patch).Some? <==> HasId(rows, id)
    ensures UpdateById(rows, id, patch).Some? ==>
      var (updated, rows') := UpdateById(rows, id, patch).value;
      && |rows'| == |rows|
      && updated.id == id
      && updated in rows'
      && UniqueIds(rows')
      && forall i :: 0 <= i < |rows| ==>
           rows'[i] == if rows[i].id == id then Patched(rows[i], patch) else rows[i]
  {
    var k := IndexOfId(rows, id);
    if k.Some? {
      var rows' := rows[k.value := Patched(rows[k.value], patch)];
      assert rows[k.value].id == id;
      assert rows'[k.value] == Patched(rows[k.value], patch);
    }
  }

  /** Removing position `k` shifts every later row down by one. */
  lemma RemoveAtShifts(rows: seq<Review>, k: nat)
    requires k < |rows|
    ensures |RemoveAt(rows, k)| == |rows| - 1
    ensures forall i :: 0 <= i < k ==> RemoveAt(rows, k)[i] == rows[i]
    ensures forall i :: k <= i < |rows| - 1 ==> RemoveAt(rows, k)[i] == rows[i + 1]
  {
  }

  /** With unique ids, removing position `k` removes exactly the row with
      that row's id, and the ids stay unique. */
  lemma RemoveAtMembers(rows: seq<Review>, k: nat)
    requires k < |rows| && UniqueIds(rows)
    ensures UniqueIds(RemoveAt(rows, k))
    ensures forall r :: r in RemoveAt(rows, k) <==> r in rows && r.id != rows[k].id
  {
    var rows' := RemoveAt(rows, k);
    RemoveAtShifts(rows, k);
    forall i, j | 0 <= i < j < |rows'|
      ensures rows'[i].id != rows'[j].id
    {
      assert rows'[i] == rows[if i < k then i else i + 1];
      assert rows'[j] == rows[if j < k then j else j + 1];
    }
    forall r
      ensures r in rows' <==> r in rows && r.id != rows[k].id
    {
      if r in rows' {
        var i :| 0 <= i < |rows'| && rows'[i] == r;
        assert r == rows[if i < k then i else i + 1];
      }
      if r in rows && r.id != rows[k].id {
        var i :| 0 <= i < |rows| && rows[i] == r;
        assert r == rows'[if i < k then i else i - 1];
      }
    }
  }

  /** Deleting a present id removes exactly that row and keeps the order of
      the others (the table is the old one without that row's position);
      afterwards the id is gone. */
  lemma DeleteByIdFrame(rows: seq<Review>, id: string)
    requires UniqueIds(rows)
    ensures DeleteById(rows, id).Some? <==> HasId(rows, id)
    ensures DeleteById(rows, id).Some? ==>
      var (deleted, rows') := DeleteById(rows, id).value;
      && deleted.id == id
      && deleted in rows
      && |rows'| == |rows| - 1
      && !HasId(rows', id)
      && UniqueIds(rows')
      && (exists k :: 0 <= k < |rows| && rows[k].id == id && rows' == RemoveAt(rows, k))
      && forall r :: r in rows' <==> r in rows && r.id != id
  {
    var k := IndexOfId(rows, id);
    if k.Some? {
      assert rows[k.value].id == id;
      RemoveAtShifts(rows, k.value);
      RemoveAtMembers(rows, k.value);
    }
  }
}
