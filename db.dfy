/** The query layer shared by the repositories: pager parameters read from the
    URL, the keyset page built around an inner query, and how a query with no
    rows is reported. A query is its inner result rows (in whatever order the
    database produced them) and its bound arguments; running SQL is modelled by
    what the outer query selects from those rows. */
module Db {
  import opened Wrappers
  import opened Numbers

  /** `url.Values.Get`: the first value of the key, or "" when it is absent or
      has no values. */
  function Get(params: map<string, seq<string>>, key: string): string
  {
    if key in params && params[key] != [] then params[key][0] else ""
  }

  /** The four pager parameters: unique key and key as raw text, length, order. */
  datatype PagerParams = PagerParams(uk: string, k: string, l: int, desc: bool)

  /** `ExtractPagerQueryParameters`: the length falls back to 50 whenever it
      does not parse (missing, malformed or out of range), the order to
      ascending whenever `desc` does not parse as a boolean. */
  function ExtractPagerQueryParameters(params: map<string, seq<string>>): (r: PagerParams)
    ensures r.uk == Get(params, "uk") && r.k == Get(params, "k")
    ensures IsInt64(r.l)
    ensures ParseInt(Get(params, "l")).err.Some? ==> r.l == 50
    ensures "l" !in params ==> r.l == 50
    ensures r.desc <==> Get(params, "desc") in {"1", "t", "T", "TRUE", "true", "True"}
  {
    var l := ParseInt(Get(params, "l"));
    var desc := ParseBool(Get(params, "desc"));
    PagerParams(Get(params, "uk"), Get(params, "k"),
                if l.err.Some? then 50 else l.value,
                if desc.None? then false else desc.value)
  }

  /** A length written as any int64 numeral is taken as it is, negative ones
      included. */
  lemma PagerLength(params: map<string, seq<string>>, n: int)
    requires IsInt64(n) && "l" in params && params["l"] != [] && params["l"][0] == FormatInt(n)
    ensures ExtractPagerQueryParameters(params).l == n
  {
    ParseFormatInt(n);
  }

  /** A bound argument of a query. */
  datatype Arg = IntArg(n: int) | TextArg(s: string) | RealArg(r: real)

  /** Where the outer paging query refers to its arguments: `$c` and `$c+1`
      for the cursor when there is one, the placeholder of `LIMIT`, and the
      order. Placeholders count from 1. */
  datatype PageLayout = PageLayout(cursorAt: Option<nat>, limitAt: nat, desc: bool)

  /** Every placeholder of the layout refers to an integer argument. */
  predicate Binds(args: seq<Arg>, layout: PageLayout)
  {
    1 <= layout.limitAt <= |args| && args[layout.limitAt - 1].IntArg? &&
    (layout.cursorAt.Some? ==>
       1 <= layout.cursorAt.value && layout.cursorAt.value + 1 <= |args| &&
       args[layout.cursorAt.value - 1].IntArg? && args[layout.cursorAt.value].IntArg?)
  }

  /** The argument list of `Page`: the inner query's arguments stay where they
      are, the cursor (key, then unique key) is added only when both parts are
      present, and the length always comes last; each placeholder of the outer
      query refers to the argument meant for it. */
  method PageArgs(base: seq<Arg>, uniqueKey: Option<int>, key: Option<int>, length: int, desc: bool)
    returns (args: seq<Arg>, layout: PageLayout)
    ensures Binds(args, layout) && layout.desc == desc
    ensures |base| < layout.limitAt == |args| && args[..|base|] == base
    ensures args[layout.limitAt - 1] == IntArg(length)
    ensures layout.cursorAt.Some? <==> uniqueKey.Some? && key.Some?
    ensures layout.cursorAt.Some? ==>
              layout.cursorAt.value == |base| + 1 &&
              args[layout.cursorAt.value - 1] == IntArg(key.value) &&
              args[layout.cursorAt.value] == IntArg(uniqueKey.value)
    ensures layout.cursorAt.None? ==> layout.limitAt == |base| + 1
  {
    args := base;
    var c := |base| + 1;
    if uniqueKey.None? || key.None? {
      args := args + [IntArg(length)];
      layout := PageLayout(None, c, desc);
    } else {
      args := args + [IntArg(key.value), IntArg(uniqueKey.value), IntArg(length)];
      layout := PageLayout(Some(c), c + 2, desc);
    }
  }

  /** Row-value comparison `(a.0, a.1) < (b.0, b.1)`: lexicographic. */
  predicate Lt(a: (int, int), b: (int, int))
  {
    a.0 < b.0 || (a.0 == b.0 && a.1 < b.1)
  }

  /** `a` comes strictly before `b` in the page order. */
  predicate Precedes(a: (int, int), b: (int, int), desc: bool)
  {
    if desc then Lt(b, a) else Lt(a, b)
  }

  /** The `WHERE` of the outer query: no cursor, or strictly past it. */
  predicate Beyond(k: (int, int), cursor: Option<(int, int)>, desc: bool)
  {
    cursor.None? || Precedes(cursor.value, k, desc)
  }

  /** The key of row `i`. */
  function KeyAt<T>(rows: seq<T>, keyOf: T -> (int, int), i: nat): (int, int)
    requires i < |rows|
  {
    keyOf(rows[i])
  }

  /** Row keys are pairwise distinct, stated on `KeyAt` so that the fact is
      only drawn on where a proof names two keys. */
  predicate DistinctKeys<T>(rows: seq<T>, keyOf: T -> (int, int))
  {
    forall i: nat, j: nat :: i < j < |rows| ==> KeyAt(rows, keyOf, i) != KeyAt(rows, keyOf, j)
  }

  /** The row `ORDER BY` puts first among those past the cursor, if any. */
  function FirstBeyond<T>(rows: seq<T>, keyOf: T -> (int, int), cursor: Option<(int, int)>, desc: bool)
    : (i: Option<nat>)
    ensures i.Some? ==> i.value < |rows| && Beyond(keyOf(rows[i.value]), cursor, desc)
  {
    if rows == [] then None
    else
      var last := rows[|rows| - 1];
      match FirstBeyond(rows[..|rows| - 1], keyOf, cursor, desc)
      case None => if Beyond(keyOf(last), cursor, desc) then Some(|rows| - 1) else None
      case Some(i) =>
        if Beyond(keyOf(last), cursor, desc) && Precedes(keyOf(last), keyOf(rows[i]), desc)
        then Some(|rows| - 1) else Some(i)
  }

  /** The row found precedes every other row past the cursor, and none is
      found only when no row is past the cursor. */
  lemma {:induction false} FirstBeyondLeast<T>(rows: seq<T>, keyOf: T -> (int, int), cursor: Option<(int, int)>,
                                               desc: bool)
    ensures var i := FirstBeyond(rows, keyOf, cursor, desc);
            (i.None? <==> forall j :: 0 <= j < |rows| ==> !Beyond(keyOf(rows[j]), cursor, desc)) &&
            (i.Some? ==> forall j :: (0 <= j < |rows| && Beyond(keyOf(rows[j]), cursor, desc) &&
                                     keyOf(rows[j]) != keyOf(rows[i.value])) ==>
                                    Precedes(keyOf(rows[i.value]), keyOf(rows[j]), desc))
    decreases |rows|
  {
    if rows != [] {
      var init := rows[..|rows| - 1];
      FirstBeyondLeast(init, keyOf, cursor, desc);
      assert forall j :: 0 <= j < |init| ==> init[j] == rows[j];
    }
  }

  /** The keyset page: the first row past the cursor, then the page of length
      one less past that row. */
  function PageOf<T>(rows: seq<T>, keyOf: T -> (int, int), cursor: Option<(int, int)>, length: nat, desc: bool)
    : (page: seq<T>)
    ensures |page| <= length
    decreases length
  {
    if length == 0 then []
    else
      match FirstBeyond(rows, keyOf, cursor, desc)
      case None => []
      case Some(i) => [rows[i]] + PageOf(rows, keyOf, Some(keyOf(rows[i])), length - 1, desc)
  }

  /** Every row of a page is selected by the inner query and strictly past
      the cursor, and the page is strictly ordered. */
  lemma {:induction false} PageShape<T>(rows: seq<T>, keyOf: T -> (int, int), cursor: Option<(int, int)>,
                                        length: nat, desc: bool)
    ensures forall j :: 0 <= j < |PageOf(rows, keyOf, cursor, length, desc)| ==>
              PageOf(rows, keyOf, cursor, length, desc)[j] in rows &&
              Beyond(keyOf(PageOf(rows, keyOf, cursor, length, desc)[j]), cursor, desc)
    ensures forall j :: 0 <= j < |PageOf(rows, keyOf, cursor, length, desc)| - 1 ==>
              Precedes(keyOf(PageOf(rows, keyOf, cursor, length, desc)[j]),
                       keyOf(PageOf(rows, keyOf, cursor, length, desc)[j + 1]), desc)
    decreases length
  {
    if length > 0 && FirstBeyond(rows, keyOf, cursor, desc).Some? {
      var i := FirstBeyond(rows, keyOf, cursor, desc).value;
      var next := Some(keyOf(rows[i]));
      var rest := PageOf(rows, keyOf, next, length - 1, desc);
      PageShape(rows, keyOf, next, length - 1, desc);
      var page := [rows[i]] + rest;
      assert PageOf(rows, keyOf, cursor, length, desc) == page;
      forall j | 0 <= j < |page|
        ensures page[j] in rows && Beyond(keyOf(page[j]), cursor, desc)
      {
        if j == 0 {
          assert page[0] == rows[i] && rows[i] in rows;
        } else {
          assert page[j] == rest[j - 1];
          assert rest[j - 1] in rows && Beyond(keyOf(rest[j - 1]), next, desc);
        }
      }
      forall j | 0 <= j < |page| - 1
        ensures Precedes(keyOf(page[j]), keyOf(page[j + 1]), desc)
      {
        assert page[j + 1] == rest[j];
        if j == 0 {
          assert page[0] == rows[i] && Beyond(keyOf(rest[0]), next, desc);
        } else {
          assert page[j] == rest[j - 1];
        }
      }
    }
  }

  /** The page skips nothing: with the unique key making row keys distinct, a
      row past the cursor that is not on the page is past the page's last row,
      and then the page is full. */
  lemma PageComplete<T>(rows: seq<T>, keyOf: T -> (int, int), cursor: Option<(int, int)>,
                        length: nat, desc: bool)
    requires forall i, j :: 0 <= i < j < |rows| ==> keyOf(rows[i]) != keyOf(rows[j])
    ensures var page := PageOf(rows, keyOf, cursor, length, desc);
            forall j :: 0 <= j < |rows| && Beyond(keyOf(rows[j]), cursor, desc) && rows[j] !in page ==>
              |page| == length && (page != [] ==> Precedes(keyOf(page[|page| - 1]), keyOf(rows[j]), desc))
  {
    var page := PageOf(rows, keyOf, cursor, length, desc);
    forall j | 0 <= j < |rows| && Beyond(keyOf(rows[j]), cursor, desc) && rows[j] !in page
      ensures |page| == length && (page != [] ==> Precedes(keyOf(page[|page| - 1]), keyOf(rows[j]), desc))
    {
      assert DistinctKeys(rows, keyOf);
      PageFullAt(rows, keyOf, cursor, length, desc, j);
      PageBeforeAt(rows, keyOf, cursor, length, desc, j);
    }
  }

  /** `PageComplete` for one row: the page is full. */
  lemma {:induction false} PageFullAt<T>(rows: seq<T>, keyOf: T -> (int, int), cursor: Option<(int, int)>,
                                         length: nat, desc: bool, j: nat)
    requires DistinctKeys(rows, keyOf)
    requires j < |rows| && Beyond(keyOf(rows[j]), cursor, desc)
    requires rows[j] !in PageOf(rows, keyOf, cursor, length, desc)
    ensures |PageOf(rows, keyOf, cursor, length, desc)| == length
    decreases length
  {
    if length > 0 {
      var i := PageHead(rows, keyOf, cursor, length, desc, j);
      PageFullAt(rows, keyOf, Some(keyOf(rows[i])), length - 1, desc, j);
    }
  }

  /** `PageComplete` for one row: the page ends before it. */
  lemma {:induction false} PageBeforeAt<T>(rows: seq<T>, keyOf: T -> (int, int), cursor: Option<(int, int)>,
                                           length: nat, desc: bool, j: nat)
    requires DistinctKeys(rows, keyOf)
    requires j < |rows| && Beyond(keyOf(rows[j]), cursor, desc)
    requires rows[j] !in PageOf(rows, keyOf, cursor, length, desc)
    ensures var page := PageOf(rows, keyOf, cursor, length, desc);
            page != [] ==> Precedes(keyOf(page[|page| - 1]), keyOf(rows[j]), desc)
    decreases length
  {
    if length > 0 {
      var i := PageHead(rows, keyOf, cursor, length, desc, j);
      var rest := PageOf(rows, keyOf, Some(keyOf(rows[i])), length - 1, desc);
      PageBeforeAt(rows, keyOf, Some(keyOf(rows[i])), length - 1, desc, j);
      LastOfCons(rows[i], rest, PageOf(rows, keyOf, cursor, length, desc));
    }
  }

  /** One step of the page past a row `j` left off it: the page starts with
      the first row `i` past the cursor, `j` is past `i` and is not on the
      rest of the page either. */
  lemma PageHead<T>(rows: seq<T>, keyOf: T -> (int, int), cursor: Option<(int, int)>,
                    length: nat, desc: bool, j: nat) returns (i: nat)
    requires DistinctKeys(rows, keyOf)
    requires j < |rows| && Beyond(keyOf(rows[j]), cursor, desc)
    requires length > 0 && rows[j] !in PageOf(rows, keyOf, cursor, length, desc)
    ensures i < |rows| && FirstBeyond(rows, keyOf, cursor, desc) == Some(i)
    ensures PageOf(rows, keyOf, cursor, length, desc) ==
            [rows[i]] + PageOf(rows, keyOf, Some(keyOf(rows[i])), length - 1, desc)
    ensures Precedes(keyOf(rows[i]), keyOf(rows[j]), desc) && Beyond(keyOf(rows[j]), Some(keyOf(rows[i])), desc)
    ensures rows[j] !in PageOf(rows, keyOf, Some(keyOf(rows[i])), length - 1, desc)
  {
    FirstBeyondLeast(rows, keyOf, cursor, desc);
    i := FirstBeyond(rows, keyOf, cursor, desc).value;
    var rest := PageOf(rows, keyOf, Some(keyOf(rows[i])), length - 1, desc);
    assert rows[i] in [rows[i]] + rest;
    assert j != i;
    assert keyOf(rows[j]) != keyOf(rows[i]) by {
      assert KeyAt(rows, keyOf, j) != KeyAt(rows, keyOf, i) by {
        if j < i {} else {}
      }
    }
    assert forall x :: x in rest ==> x in [rows[i]] + rest;
  }

  /** Paging on with the exact key of the last row of a full page continues
      where that page stopped: the two pages together are the longer page,
      so no row is skipped or repeated. */
  lemma {:induction false} PageSplit<T>(rows: seq<T>, keyOf: T -> (int, int), cursor: Option<(int, int)>,
                                        n: nat, m: nat, desc: bool)
    requires n > 0 && |PageOf(rows, keyOf, cursor, n, desc)| == n
    ensures PageOf(rows, keyOf, cursor, n, desc) +
            PageOf(rows, keyOf, Some(keyOf(PageOf(rows, keyOf, cursor, n, desc)[n - 1])), m, desc) ==
            PageOf(rows, keyOf, cursor, n + m, desc)
    decreases n
  {
    var i := FirstBeyond(rows, keyOf, cursor, desc).value;
    var next := Some(keyOf(rows[i]));
    var rest := PageOf(rows, keyOf, next, n - 1, desc);
    var page := PageOf(rows, keyOf, cursor, n, desc);
    assert page == [rows[i]] + rest;
    var last := keyOf(page[n - 1]);
    var tail := PageOf(rows, keyOf, next, n - 1 + m, desc);
    assert PageOf(rows, keyOf, cursor, n + m, desc) == [rows[i]] + tail;
    var after := PageOf(rows, keyOf, Some(last), m, desc);
    if n > 1 {
      PageSplit(rows, keyOf, next, n - 1, m, desc);
      assert page[n - 1] == rest[n - 2];
      assert rest + after == tail;
    } else {
      assert rest == [] && page == [rows[i]];
      assert rest + after == tail;
    }
    ConsAppend(rows[i], rest, after, page);
  }

  /** Putting one element in front commutes with appending. */
  lemma ConsAppend<T>(x: T, rest: seq<T>, after: seq<T>, page: seq<T>)
    requires page == [x] + rest
    ensures page + after == [x] + (rest + after)
  {
  }

  /** The last element of `[x] + rest`. */
  lemma LastOfCons<T>(x: T, rest: seq<T>, page: seq<T>)
    requires page == [x] + rest
    ensures page[|page| - 1] == if rest == [] then x else rest[|rest| - 1]
  {
  }

  /** The database running the outer query: it reads the cursor and the limit
      through the placeholders, and rejects a negative limit. */
  function Execute<T>(rows: seq<T>, keyOf: T -> (int, int), args: seq<Arg>, layout: PageLayout)
    : Result<seq<T>, string>
    requires Binds(args, layout)
  {
    var limit := args[layout.limitAt - 1].n;
    var cursor := match layout.cursorAt
      case None => None
      case Some(c) => Some((args[c - 1].n, args[c].n));
    if limit < 0 then Failure("LIMIT must not be negative")
    else Success(PageOf(rows, keyOf, cursor, limit, layout.desc))
  }

  /** An inner query: the rows it selects and its arguments. */
  datatype SqlQuery<T> = SqlQuery(rows: seq<T>, args: seq<Arg>)

  /** `SQLXQuery.Page`. `keyOf` reads the (key, unique key) columns of a row;
      `dbError` is a failure of the database itself. The cursor is used only
      when both of its parts are given, and an empty page is reported without
      error. */
  method Page<T>(q: SqlQuery<T>, keyOf: T -> (int, int), uniqueKey: Option<int>, key: Option<int>,
                 length: int, desc: bool, dbError: Option<string>) returns (r: Result<seq<T>, string>)
    requires DistinctKeys(q.rows, keyOf)
    ensures dbError.Some? ==> r == Failure(dbError.value)
    ensures dbError.None? && length < 0 ==> r.Failure?
    ensures dbError.None? && length >= 0 ==>
              r == Success(PageOf(q.rows, keyOf,
                                  if uniqueKey.Some? && key.Some? then Some((key.value, uniqueKey.value)) else None,
                                  length, desc))
  {
    var args, layout := PageArgs(q.args, uniqueKey, key, length, desc);
    if dbError.Some? {
      return Failure(dbError.value);
    }
    r := Execute(q.rows, keyOf, args, layout);
  }

  /** `SQLXQuery.Query`: the first row, or nothing (and no error) when the
      query selects no rows. */
  function QueryOne<T>(q: SqlQuery<T>, dbError: Option<string>): (r: Result<Option<T>, string>)
    ensures r.Failure? <==> dbError.Some?
    ensures r == Success(None) <==> dbError.None? && q.rows == []
    ensures r.Success? && r.value.Some? ==> r.value.value in q.rows
  {
    if dbError.Some? then Failure(dbError.value)
    else if q.rows == [] then Success(None)
    else Success(Some(q.rows[0]))
  }

  /** `SQLXQuery.QueryAll`: every row, in the database's order. */
  function QueryAll<T>(q: SqlQuery<T>, dbError: Option<string>): (r: Result<seq<T>, string>)
    ensures r.Failure? <==> dbError.Some?
    ensures r.Success? ==> r.value == q.rows
  {
    if dbError.Some? then Failure(dbError.value) else Success(q.rows)
  }

  /** No rows is not an error: all three runners succeed with nothing. */
  lemma NoRowsIsNotAnError<T>(q: SqlQuery<T>, keyOf: T -> (int, int), cursor: Option<(int, int)>,
                              length: nat, desc: bool)
    requires q.rows == []
    ensures QueryOne(q, None) == Success(None)
    ensures QueryAll(q, None) == Success([])
    ensures PageOf(q.rows, keyOf, cursor, length, desc) == []
  {
    if length > 0 {
      assert FirstBeyond(q.rows, keyOf, cursor, desc).None?;
    }
  }
}
