/** The review endpoints. A review is created with a random code whose hash
    is stored; changing or deleting the review later needs the code, checked
    against the stored hash. The hash (`hex(SHA-256(.))`) is a parameter of
    the controller, and the clock reading a parameter of each handler. */
module Reviews {
  import opened Wrappers
  import opened Strings
  import opened Numbers
  import opened Entity
  import opened Db
  import opened ReviewRepository

  const StatusOK: int := 200
  const StatusCreated: int := 201
  const StatusBadRequest: int := 400
  const StatusForbidden: int := 403
  const StatusNotFound: int := 404
  const StatusInternalServerError: int := 500

  /** `n` consecutive ASCII characters from `lo` on. */
  function CharRange(lo: char, n: nat): (r: string)
    requires lo as int + n <= 128
    ensures |r| == n && forall i :: 0 <= i < n ==> r[i] as int == lo as int + i
  {
    seq(n, i requires 0 <= i < n => (lo as int + i) as char)
  }

  /** The characters of a modification code: "a" to "z", "A" to "Z", "0" to
      "9", in that order. */
  const Alphabet: string := CharRange('a', 26) + CharRange('A', 26) + CharRange('0', 10)

  /** The alphabet is 62 distinct ASCII letters and digits. */
  lemma AlphabetIsAlnum()
    ensures |Alphabet| == 62
    ensures forall i :: 0 <= i < |Alphabet| ==> IsAlnum(Alphabet[i])
    ensures forall i, j :: 0 <= i < j < |Alphabet| ==> Alphabet[i] != Alphabet[j]
  {
    var lower, upper, digits := CharRange('a', 26), CharRange('A', 26), CharRange('0', 10);
    assert forall i :: 0 <= i < 26 ==> Alphabet[i] == lower[i] && Alphabet[26 + i] == upper[i];
    assert forall i :: 0 <= i < 10 ==> Alphabet[52 + i] == digits[i];
  }

  /** A review as the client sends it. */
  datatype ReviewInput = ReviewInput(
    prescriptionType: string,
    stars: int,
    hrtKind: string,
    nationality: Option<string>,
    text: Option<string>)

  /** A review as the list, patch and delete endpoints return it: without its
      pharmacy and without its modification code. */
  datatype ReviewResult = ReviewResult(
    id: int,
    prescriptionType: string,
    stars: int,
    hrtKind: string,
    nationality: Option<string>,
    text: Option<string>,
    createdAt: int,
    updatedAt: int)

  function ToResult(r: Review): ReviewResult
  {
    ReviewResult(r.id, r.prescriptionType, r.stars, r.hrtKind, r.nationality, r.text, r.createdAt, r.updatedAt)
  }

  /** What a handler returns besides the status. */
  datatype Body =
    | ErrorBody(message: string)
    | Internal(err: string)
    | Created(review: Review)
    | One(result: ReviewResult)
    | Many(results: seq<ReviewResult>)

  datatype Response = Response(status: int, body: Body)

  /** The review after a patch: exactly the five client fields and the
      update time are replaced. */
  function Patched(r: Review, body: ReviewInput, now: int): (p: Review)
    ensures p == r.(prescriptionType := p.prescriptionType, stars := p.stars, hrtKind := p.hrtKind,
                    nationality := p.nationality, text := p.text, updatedAt := p.updatedAt)
    ensures p.prescriptionType == body.prescriptionType && p.stars == body.stars && p.hrtKind == body.hrtKind &&
            p.nationality == body.nationality && p.text == body.text && p.updatedAt == now
  {
    r.(prescriptionType := body.prescriptionType, stars := body.stars, hrtKind := body.hrtKind,
       nationality := body.nationality, text := body.text, updatedAt := now)
  }

  /** The token of an `Authorization` header: its second space-separated
      field with spaces and tabs trimmed, or "" when there is none. */
  function BearerToken(auth: string): (t: string)
    ensures ' ' !in auth ==> t == ""
  {
    var splits := Split(auth, ' ');
    if |splits| > 1 then Trim(splits[1], {' ', '\t'}) else ""
  }

  /** `Bearer <token>` yields the token when it has no spaces and no tabs at
      its ends. */
  lemma BearerOfScheme(token: string)
    requires token != [] && ' ' !in token && token[0] != '\t' && token[|token| - 1] != '\t'
    ensures BearerToken("Bearer " + token) == token
  {
    var s := "Bearer " + token;
    assert s[..6] == "Bearer" && s[6] == ' ' && s[7..] == token;
    SplitFirst(s, ' ', 6);
    SplitFirst(token, ' ', |token|);
    assert token[..|token|] == token;
    TrimKeepsInner(token, {' ', '\t'});
  }

  /** Two spaces after the scheme leave the second field empty: the token
      read is "". */
  lemma BearerAfterTwoSpaces(token: string)
    ensures BearerToken("Bearer  " + token) == ""
  {
    var s := "Bearer  " + token;
    assert s[..6] == "Bearer" && s[6] == ' ' && s[7..] == " " + token;
    SplitFirst(s, ' ', 6);
    SplitFirst(" " + token, ' ', 0);
  }

  /** The keyset cursor the list endpoint uses: the parsed values of `k` and
      `uk`, kept even when the parse failed, and only when neither is 0. */
  function Cursor(pp: PagerParams): (c: Option<(int, int)>)
    ensures c.Some? <==> ParseInt(pp.uk).value != 0 && ParseInt(pp.k).value != 0
    ensures c.Some? ==> c.value == (ParseInt(pp.k).value, ParseInt(pp.uk).value)
  {
    var uk := ParseInt(pp.uk).value;
    var k := ParseInt(pp.k).value;
    if uk == 0 || k == 0 then None else Some((k, uk))
  }

  /** The key the next request pages past. Here, unlike the rest of the
      model, the time part is read in microseconds, as the database stores
      `updated_at`: the client receives the last row's time as Unix
      milliseconds, and `time.UnixMilli(k)` turns that back into a time with
      the sub-millisecond part dropped. */
  function SentCursor(last: (int, int)): (c: (int, int))
    ensures c.1 == last.1 && c.0 <= last.0 < c.0 + 1000 && c.0 % 1000 == 0
    ensures c == last <==> last.0 % 1000 == 0
  {
    (last.0 / 1000 * 1000, last.1)
  }

  /** Rows that are their own paging keys, for the two cases below. */
  function OwnKey(k: (int, int)): (int, int)
  {
    k
  }

  /** Ascending, a row written 1.5 ms past an epoch millisecond comes back
      on the page after its own. */
  lemma AscendingPageRepeats()
    ensures PageOf([(1500, 1)], OwnKey, None, 1, false) == [(1500, 1)]
    ensures SentCursor((1500, 1)) == (1000, 1)
    ensures PageOf([(1500, 1)], OwnKey, Some(SentCursor((1500, 1))), 1, false) == [(1500, 1)]
  {
    var rows: seq<(int, int)> := [(1500, 1)];
    assert |rows[..0]| == 0;
    assert FirstBeyond(rows, OwnKey, None, false) == Some(0);
    assert FirstBeyond(rows, OwnKey, Some((1000, 1)), false) == Some(0);
  }

  /** Descending, a row whose time falls inside the millisecond of the last
      row of a page is on no page: both rows are there to be paged over, yet
      after the first page of length 1 the next page is empty. */
  lemma DescendingPageSkips()
    ensures PageOf([(1700, 2), (1300, 1)], OwnKey, None, 2, true) == [(1700, 2), (1300, 1)]
    ensures PageOf([(1700, 2), (1300, 1)], OwnKey, None, 1, true) == [(1700, 2)]
    ensures SentCursor((1700, 2)) == (1000, 2)
    ensures PageOf([(1700, 2), (1300, 1)], OwnKey, Some(SentCursor((1700, 2))), 1, true) == []
  {
    var rows: seq<(int, int)> := [(1700, 2), (1300, 1)];
    assert rows[..1] == [(1700, 2)] && |rows[..1][..0]| == 0;
    assert FirstBeyond(rows[..1], OwnKey, None, true) == Some(0);
    assert FirstBeyond(rows, OwnKey, None, true) == Some(0);
    assert FirstBeyond(rows[..1], OwnKey, Some((1700, 2)), true) == None;
    assert FirstBeyond(rows, OwnKey, Some((1700, 2)), true) == Some(1);
    assert FirstBeyond(rows[..1], OwnKey, Some((1300, 1)), true) == None;
    assert FirstBeyond(rows, OwnKey, Some((1300, 1)), true) == None;
    assert PageOf(rows, OwnKey, Some((1300, 1)), 0, true) == [];
    assert PageOf(rows, OwnKey, Some((1700, 2)), 1, true) == [(1300, 1)];
    assert FirstBeyond(rows[..1], OwnKey, Some((1000, 2)), true) == None;
    assert FirstBeyond(rows, OwnKey, Some((1000, 2)), true) == None;
  }

  /** With `updated_at` written at millisecond precision (truncated before it
      is stored), the key the client sends back is the last row's own key,
      and the next page continues exactly where the page stopped. As for
      `SentCursor`, `updatedAt` is read in microseconds here, so the
      requirement says every time is a whole millisecond. */
  lemma MillisecondPagesContinue(rows: seq<Review>, cursor: Option<(int, int)>, n: nat, m: nat, desc: bool)
    requires forall r :: r in rows ==> r.updatedAt % 1000 == 0
    requires n > 0 && |PageOf(rows, ReviewKey, cursor, n, desc)| == n
    ensures PageOf(rows, ReviewKey, cursor, n, desc) +
            PageOf(rows, ReviewKey, Some(SentCursor(ReviewKey(PageOf(rows, ReviewKey, cursor, n, desc)[n - 1]))), m, desc) ==
            PageOf(rows, ReviewKey, cursor, n + m, desc)
  {
    var page := PageOf(rows, ReviewKey, cursor, n, desc);
    PageShape(rows, ReviewKey, cursor, n, desc);
    assert page[n - 1] in rows;
    PageSplit(rows, ReviewKey, cursor, n, m, desc);
  }

  /** A cursor part that is not a number, or is missing, means the first
      page; one past the int64 range is clamped, not dropped. */
  lemma CursorParts(pp: PagerParams, n: int)
    requires IsInt64(n) && n != 0
    ensures ParseInt(pp.uk).err == Some(ErrSyntax) || ParseInt(pp.k).err == Some(ErrSyntax) ==> Cursor(pp).None?
    ensures (pp.uk != [] && (forall i :: 0 <= i < |pp.uk| ==> IsDigit(pp.uk[i])) && DecimalValue(pp.uk) > MaxInt64 &&
             pp.k == FormatInt(n)) ==> Cursor(pp) == Some((n, MaxInt64))
  {
    if pp.uk != [] && (forall i :: 0 <= i < |pp.uk| ==> IsDigit(pp.uk[i])) && DecimalValue(pp.uk) > MaxInt64 {
      ParseIntClamps("", pp.uk);
      assert "" + pp.uk == pp.uk;
    }
    ParseFormatInt(n);
  }

  class ReviewController {
    const repo: ReviewTable
    const hash: string -> string

    constructor (repo: ReviewTable, hash: string -> string)
      ensures this.repo == repo && this.hash == hash
    {
      this.repo := repo;
      this.hash := hash;
    }

    /** Sixteen characters drawn at random from the alphabet. */
    method GenerateModificationCode() returns (code: string)
      ensures |code| == 16
      ensures forall i :: 0 <= i < |code| ==> IsAlnum(code[i])
    {
      AlphabetIsAlnum();
      code := [];
      var n := 0;
      while n < 16
        invariant 0 <= n <= 16 && |code| == n
        invariant forall i :: 0 <= i < |code| ==> IsAlnum(code[i])
      {
        var idx: nat :| idx < |Alphabet|;
        code := code + [Alphabet[idx]];
        n := n + 1;
      }
    }

    /** `GET /pharmacies/{id}/reviews`: a malformed id is a bad request;
        otherwise one keyset page of the pharmacy's reviews, or a server error
        when the database fails or rejects a negative length. `reviews` is the
        order the database produced the pharmacy's reviews in. */
    method GetPharmacyReviews(idStr: string, params: map<string, seq<string>>)
      returns (resp: Response, ghost reviews: seq<Review>)
      requires repo.Valid()
      ensures ParseInt(idStr).err.Some? ==> resp == Response(StatusBadRequest, ErrorBody("Malformed ID path variable"))
      ensures ParseInt(idStr).err.None? ==> resp.status == StatusOK || resp.status == StatusInternalServerError
      ensures ParseInt(idStr).err.None? && ExtractPagerQueryParameters(params).l < 0 ==>
                resp.status == StatusInternalServerError
      ensures resp.status == StatusOK ==>
                var pp := ExtractPagerQueryParameters(params);
                pp.l >= 0 &&
                (forall r :: r in reviews <==> r in ForPharmacy(repo.rows, ParseInt(idStr).value)) &&
                (forall i, j :: 0 <= i < j < |reviews| ==> ReviewKey(reviews[i]) != ReviewKey(reviews[j])) &&
                resp.body.Many? &&
                resp.body.results == Results(PageOf(reviews, ReviewKey, Cursor(pp), pp.l, pp.desc))
    {
      reviews := [];
      var id := ParseInt(idStr);
      if id.err.Some? {
        return Response(StatusBadRequest, ErrorBody("Malformed ID path variable")), reviews;
      }
      var pp := ExtractPagerQueryParameters(params);
      var uk := ParseInt(pp.uk).value;
      var k := ParseInt(pp.k).value;
      var q := repo.FindReviewForPharmacy(id.value);
      reviews := q.rows;
      var dbError: Option<string> :| true;
      assert Cursor(pp) == if uk == 0 || k == 0 then None else Some((k, uk));
      var page;
      if uk == 0 || k == 0 {
        page := Page(q, ReviewKey, None, None, pp.l, pp.desc, dbError);
      } else {
        page := Page(q, ReviewKey, Some(uk), Some(k), pp.l, pp.desc, dbError);
      }
      if page.Failure? {
        return Response(StatusInternalServerError, Internal(page.error)), reviews;
      }
      var results := ToResults(page.value);
      resp := Response(StatusOK, Many(results));
    }

    /** `POST /pharmacies/{id}/reviews`: a new review under a fresh code. The
        row keeps the hash of the code, the response carries the code itself. */
    method PostPharmacyReview(idStr: string, body: ReviewInput, now: int) returns (resp: Response)
      requires repo.Valid()
      modifies repo
      ensures repo.Valid()
      ensures ParseInt(idStr).err.Some? ==>
                resp == Response(StatusBadRequest, ErrorBody("Malformed ID path variable"))
      ensures ParseInt(idStr).err.None? ==> resp.status == StatusCreated || resp.status == StatusInternalServerError
      ensures resp.status != StatusCreated ==> repo.rows == old(repo.rows)
      ensures resp.status == StatusCreated ==>
                resp.body.Created? &&
                var r := resp.body.review;
                |r.modificationCode| == 16 && (forall i :: 0 <= i < 16 ==> IsAlnum(r.modificationCode[i])) &&
                r == Review(old(repo.nextId), ParseInt(idStr).value, body.prescriptionType, body.stars,
                            body.hrtKind, body.nationality, body.text, now, now, r.modificationCode) &&
                repo.rows == old(repo.rows)[r.id := r.(modificationCode := hash(r.modificationCode))]
    {
      var id := ParseInt(idStr);
      if id.err.Some? {
        return Response(StatusBadRequest, ErrorBody("Malformed ID path variable"));
      }
      var modCode := GenerateModificationCode();
      var review := Review(0, id.value, body.prescriptionType, body.stars, body.hrtKind,
                           body.nationality, body.text, now, now, hash(modCode));
      var stored, err := repo.Store(review);
      if err.Some? {
        return Response(StatusInternalServerError, Internal(err.value));
      }
      stored := stored.(modificationCode := modCode);
      resp := Response(StatusCreated, Created(stored));
    }

    /** Both path ids, or the response for the first malformed one. */
    method ParseIds(pharmaIDStr: string, reviewIDStr: string) returns (ids: Result<(int, int), Response>)
      ensures ParseInt(pharmaIDStr).err.Some? ==>
                ids == Failure(Response(StatusBadRequest, ErrorBody("Malformed pharmacy ID path variable")))
      ensures ParseInt(pharmaIDStr).err.None? && ParseInt(reviewIDStr).err.Some? ==>
                ids == Failure(Response(StatusBadRequest, ErrorBody("Malformed review ID path variable")))
      ensures ParseInt(pharmaIDStr).err.None? && ParseInt(reviewIDStr).err.None? ==>
                ids == Success((ParseInt(pharmaIDStr).value, ParseInt(reviewIDStr).value))
    {
      var pharmaID := ParseInt(pharmaIDStr);
      if pharmaID.err.Some? {
        return Failure(Response(StatusBadRequest, ErrorBody("Malformed pharmacy ID path variable")));
      }
      var reviewID := ParseInt(reviewIDStr);
      if reviewID.err.Some? {
        return Failure(Response(StatusBadRequest, ErrorBody("Malformed review ID path variable")));
      }
      ids := Success((pharmaID.value, reviewID.value));
    }

    /** `PATCH /pharmacies/{pharmaID}/reviews/{reviewID}`: with the right code
        the review's client fields are replaced; a wrong code is forbidden and
        changes nothing. */
    method PatchPharmacyReview(pharmaIDStr: string, reviewIDStr: string, body: ReviewInput, modCode: string, now: int)
      returns (resp: Response)
      requires repo.Valid()
      modifies repo
      ensures repo.Valid()
      ensures ParseInt(pharmaIDStr).err.Some? || ParseInt(reviewIDStr).err.Some? ==> resp.status == StatusBadRequest
      ensures resp.status != StatusOK ==> repo.rows == old(repo.rows)
      ensures ParseInt(pharmaIDStr).err.None? && ParseInt(reviewIDStr).err.None? ==>
                var found := ReviewByID(old(repo.rows), ParseInt(pharmaIDStr).value, ParseInt(reviewIDStr).value);
                (found.None? ==> resp.status == StatusNotFound || resp.status == StatusInternalServerError) &&
                (found.Some? && hash(modCode) != found.value.modificationCode ==>
                   resp.status == StatusForbidden || resp.status == StatusInternalServerError) &&
                (found.Some? && hash(modCode) == found.value.modificationCode ==>
                   resp.status == StatusOK || resp.status == StatusInternalServerError) &&
                (resp.status == StatusOK ==>
                   found.Some? && hash(modCode) == found.value.modificationCode &&
                   repo.rows == old(repo.rows)[found.value.id := Patched(found.value, body, now)] &&
                   resp.body == One(ToResult(Patched(found.value, body, now))))
    {
      var ids := ParseIds(pharmaIDStr, reviewIDStr);
      if ids.Failure? {
        return ids.error;
      }
      var (pharmaID, reviewID) := ids.value;
      var q := repo.FindReviewByID(pharmaID, reviewID);
      var dbError: Option<string> :| true;
      var found := QueryOne(q, dbError);
      if found.Failure? {
        return Response(StatusInternalServerError, Internal(found.error));
      } else if found.value.None? {
        return Response(StatusNotFound, ErrorBody("Not found"));
      }
      var review := found.value.value;
      if hash(modCode) != review.modificationCode {
        return Response(StatusForbidden, ErrorBody("Invalid modification code"));
      }
      review := review.(prescriptionType := body.prescriptionType);
      review := review.(stars := body.stars);
      review := review.(hrtKind := body.hrtKind);
      review := review.(nationality := body.nationality);
      review := review.(text := body.text);
      review := review.(updatedAt := now);
      var stored, err := repo.Store(review);
      if err.Some? {
        return Response(StatusInternalServerError, Internal(err.value));
      }
      resp := Response(StatusOK, One(ToResult(review)));
    }

    /** `DELETE /pharmacies/{pharmaID}/reviews/{reviewID}`: the code comes as
        the bearer token; with the right one the review is removed and
        returned, with a wrong one nothing changes. */
    method DeletePharmacyReview(pharmaIDStr: string, reviewIDStr: string, auth: string) returns (resp: Response)
      requires repo.Valid()
      modifies repo
      ensures repo.Valid()
      ensures ParseInt(pharmaIDStr).err.Some? || ParseInt(reviewIDStr).err.Some? ==> resp.status == StatusBadRequest
      ensures resp.status != StatusOK ==> repo.rows == old(repo.rows)
      ensures ParseInt(pharmaIDStr).err.None? && ParseInt(reviewIDStr).err.None? ==>
                var found := ReviewByID(old(repo.rows), ParseInt(pharmaIDStr).value, ParseInt(reviewIDStr).value);
                (found.None? ==> resp.status == StatusNotFound || resp.status == StatusInternalServerError) &&
                (found.Some? && hash(BearerToken(auth)) != found.value.modificationCode ==>
                   resp.status == StatusForbidden || resp.status == StatusInternalServerError) &&
                (found.Some? && hash(BearerToken(auth)) == found.value.modificationCode ==>
                   resp.status == StatusOK || resp.status == StatusInternalServerError) &&
                (resp.status == StatusOK ==>
                   found.Some? && hash(BearerToken(auth)) == found.value.modificationCode &&
                   repo.rows == old(repo.rows) - {found.value.id} &&
                   resp.body == One(ToResult(found.value)))
    {
      var ids := ParseIds(pharmaIDStr, reviewIDStr);
      if ids.Failure? {
        return ids.error;
      }
      var (pharmaID, reviewID) := ids.value;
      var q := repo.FindReviewByID(pharmaID, reviewID);
      var dbError: Option<string> :| true;
      var found := QueryOne(q, dbError);
      if found.Failure? {
        return Response(StatusInternalServerError, Internal(found.error));
      } else if found.value.None? {
        return Response(StatusNotFound, ErrorBody("Not found"));
      }
      var review := found.value.value;
      var splits := Split(auth, ' ');
      var bearer := "";
      if |splits| > 1 {
        bearer := Trim(splits[1], {' ', '\t'});
      }
      if hash(bearer) != review.modificationCode {
        return Response(StatusForbidden, ErrorBody("Invalid modification code"));
      }
      var deleted := repo.Delete(reviewID);
      if deleted.Failure? {
        return Response(StatusInternalServerError, Internal(deleted.error));
      }
      resp := Response(StatusOK, One(ToResult(deleted.value.value)));
    }
  }

  /** The loop filling the list endpoint's result array. */
  method ToResults(page: seq<Review>) returns (results: seq<ReviewResult>)
    ensures results == Results(page)
  {
    results := [];
    var i := 0;
    while i < |page|
      invariant 0 <= i <= |page| && results == Results(page[..i])
    {
      assert page[..i + 1][..i] == page[..i];
      results := results + [ToResult(page[i])];
      i := i + 1;
    }
    assert page[..|page|] == page;
  }

  /** The list endpoint's rows, converted one by one. */
  function Results(rs: seq<Review>): (out: seq<ReviewResult>)
    ensures |out| == |rs|
  {
    if rs == [] then [] else Results(rs[..|rs| - 1]) + [ToResult(rs[|rs| - 1])]
  }
}
