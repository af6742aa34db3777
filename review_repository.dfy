/** The pharmacy_reviews table and its repository: `Store` updates a row that
    has an id and inserts one that has none, the finders select one review by
    pharmacy and id or all reviews of a pharmacy, and delete removes a row and
    returns it. The table maps the surrogate `id` to the row. */
module ReviewRepository {
  import opened Wrappers
  import opened Entity
  import opened Db
  import PharmacyRepository

  /** The statement `Store` issues for a review with an id: every listed
      column is overwritten, `modification_code` is not in the list and keeps
      its value, and an id with no row changes nothing. */
  function UpdateReview(rows: map<int, Review>, r: Review): (t: map<int, Review>)
    ensures t.Keys == rows.Keys
    ensures forall id :: id in rows && id != r.id ==> t[id] == rows[id]
    ensures r.id in rows ==> t[r.id].modificationCode == rows[r.id].modificationCode &&
                             t[r.id] == r.(modificationCode := t[r.id].modificationCode)
  {
    if r.id in rows then rows[r.id := r.(modificationCode := rows[r.id].modificationCode)] else rows
  }

  /** The row `INSERT ... RETURNING *` produces: the review under the next id. */
  function InsertedRow(r: Review, nextId: int): Review
  {
    r.(id := nextId)
  }

  /** The review of that pharmacy with that id, if any. */
  function ReviewByID(rows: map<int, Review>, pharmaID: int, reviewID: int): (r: Option<Review>)
    ensures r.Some? <==> reviewID in rows && rows[reviewID].pharmacyId == pharmaID
    ensures r.Some? ==> r.value == rows[reviewID]
  {
    if reviewID in rows && rows[reviewID].pharmacyId == pharmaID then Some(rows[reviewID]) else None
  }

  /** The reviews of a pharmacy. */
  function ForPharmacy(rows: map<int, Review>, pharmaID: int): (s: set<Review>)
    ensures forall id :: id in rows && rows[id].pharmacyId == pharmaID ==> rows[id] in s
    ensures forall r :: r in s ==> r.pharmacyId == pharmaID && exists id :: id in rows && rows[id] == r
  {
    set id | id in rows && rows[id].pharmacyId == pharmaID :: rows[id]
  }

  /** The paging key of `FindReviewForPharmacy`: `updated_at`, then `id`. */
  function ReviewKey(r: Review): (int, int)
  {
    (r.updatedAt, r.id)
  }

  /** Rows are keyed by their own id, and ids below the sequence value. */
  predicate Keyed(rows: map<int, Review>, nextId: int)
  {
    nextId > 0 && forall id :: id in rows ==> 0 < id < nextId && rows[id].id == id
  }

  /** Distinct rows of the table have distinct paging keys, since the key ends
      in the primary key; this is what the keyset page over them requires. */
  lemma KeysDistinct(rows: map<int, Review>, nextId: int, rs: seq<Review>)
    requires Keyed(rows, nextId)
    requires forall r :: r in rs ==> exists id :: id in rows && rows[id] == r
    requires forall i, j :: 0 <= i < j < |rs| ==> rs[i] != rs[j]
    ensures forall i, j :: 0 <= i < j < |rs| ==> ReviewKey(rs[i]) != ReviewKey(rs[j])
  {
    forall i, j | 0 <= i < j < |rs|
      ensures ReviewKey(rs[i]) != ReviewKey(rs[j])
    {
      assert rs[i] in rs && rs[j] in rs;
      var a :| a in rows && rows[a] == rs[i];
      var b :| b in rows && rows[b] == rs[j];
    }
  }

  /** An inserted review can be found again by its pharmacy and new id, with
      its modification code, and an update never changes the code. */
  lemma StoreThenFind(rows: map<int, Review>, nextId: int, r: Review)
    requires Keyed(rows, nextId)
    ensures var row := InsertedRow(r, nextId);
            ReviewByID(rows[nextId := row], r.pharmacyId, nextId) == Some(row) &&
            row.modificationCode == r.modificationCode && Keyed(rows[nextId := row], nextId + 1)
    ensures r.id in rows ==>
              UpdateReview(rows, r)[r.id].modificationCode == rows[r.id].modificationCode &&
              Keyed(UpdateReview(rows, r), nextId)
  {
  }

  /** The pharmacy_reviews table. */
  class ReviewTable {
    var rows: map<int, Review>
    var nextId: int

    ghost predicate Valid()
      reads this
    {
      Keyed(rows, nextId)
    }

    constructor ()
      ensures Valid() && rows == map[] && nextId == 1
    {
      rows := map[];
      nextId := 1;
    }

    /** `Store(&review)`. With an id: the update, and the argument is left as
        it was. Without: the insert, and on success the argument becomes the
        returned row, id included; a failed statement leaves the argument and
        the table as they were. */
    method Store(review: Review) returns (stored: Review, err: Option<string>)
      requires Valid()
      modifies this
      ensures Valid()
      ensures err.Some? ==> stored == review && rows == old(rows) && nextId == old(nextId)
      ensures err.None? && review.id != 0 ==>
                stored == review && rows == UpdateReview(old(rows), review) && nextId == old(nextId)
      ensures err.None? && review.id == 0 ==>
                stored == InsertedRow(review, old(nextId)) && rows == old(rows)[old(nextId) := stored] &&
                nextId == old(nextId) + 1
    {
      stored := review;
      var fail: bool :| true;
      if fail {
        return stored, Some("statement failed");
      }
      if review.id != 0 {
        StoreThenFind(rows, nextId, review);
        rows := UpdateReview(rows, review);
        return stored, None;
      }
      stored := InsertedRow(review, nextId);
      rows := rows[nextId := stored];
      nextId := nextId + 1;
      err := None;
    }

    /** `FindReviewByID(pharmaID, reviewID)`: at most the one row. */
    method FindReviewByID(pharmaID: int, reviewID: int) returns (q: SqlQuery<Review>)
      ensures q.args == [IntArg(pharmaID), IntArg(reviewID)]
      ensures q.rows == match ReviewByID(rows, pharmaID, reviewID) case None => [] case Some(r) => [r]
    {
      var found := ReviewByID(rows, pharmaID, reviewID);
      q := SqlQuery(if found.Some? then [found.value] else [], [IntArg(pharmaID), IntArg(reviewID)]);
    }

    /** `FindReviewForPharmacy(id)`: the pharmacy's reviews in an order of the
        database's choosing, paged on `ReviewKey`. */
    method FindReviewForPharmacy(pharmaID: int) returns (q: SqlQuery<Review>)
      requires Valid()
      ensures q.args == [IntArg(pharmaID)]
      ensures forall r :: r in q.rows <==> r in ForPharmacy(rows, pharmaID)
      ensures forall i, j :: 0 <= i < j < |q.rows| ==> ReviewKey(q.rows[i]) != ReviewKey(q.rows[j])
    {
      var rs := PharmacyRepository.Enumerate(ForPharmacy(rows, pharmaID));
      KeysDistinct(rows, nextId, rs);
      q := SqlQuery(rs, [IntArg(pharmaID)]);
    }

    /** The delete the review handler calls, run as a one-row query: the row
        with that id is removed and returned, or nothing when there is none. */
    method Delete(reviewID: int) returns (r: Result<Option<Review>, string>)
      requires Valid()
      modifies this
      ensures Valid() && nextId == old(nextId)
      ensures r.Failure? ==> rows == old(rows)
      ensures r.Success? ==> rows == old(rows) - {reviewID}
      ensures r.Success? ==> r.value == if reviewID in old(rows) then Some(old(rows)[reviewID]) else None
    {
      var fail: bool :| true;
      if fail {
        return Failure("statement failed");
      }
      r := Success(if reviewID in rows then Some(rows[reviewID]) else None);
      rows := rows - {reviewID};
    }
  }
}
