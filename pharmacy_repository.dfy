/** The pharmacies table and the repository over it: the batch store that
    splits its input into per-row updates and one bulk insert, and the two
    filters the scrapers and the map query use. The table maps the surrogate
    `id` to the row; ids are handed out from a sequence. */
module PharmacyRepository {
  import opened Wrappers
  import opened Seqs
  import opened Entity
  import opened Db

  /** A map coordinate. */
  datatype Point = Point(lat: real, lng: real)

  /** `UPDATE pharmacies SET ... WHERE id = :id`: every column but `id` is
      overwritten; an id with no row changes nothing and is no error. */
  function ApplyUpdate(rows: map<int, Pharmacy>, p: Pharmacy): (r: map<int, Pharmacy>)
    ensures r.Keys == rows.Keys
    ensures forall id :: id in rows && id != p.id ==> r[id] == rows[id]
    ensures p.id in rows ==> r[p.id] == p
  {
    if p.id in rows then rows[p.id := p] else rows
  }

  /** Several updates, in order. */
  function ApplyUpdates(rows: map<int, Pharmacy>, us: seq<Pharmacy>): (r: map<int, Pharmacy>)
    ensures r.Keys == rows.Keys
  {
    if us == [] then rows else ApplyUpdate(ApplyUpdates(rows, us[..|us| - 1]), us[|us| - 1])
  }

  /** The bulk insert: the k-th row of the batch gets id `nextId + k`. */
  function InsertAll(rows: map<int, Pharmacy>, nextId: int, batch: seq<Pharmacy>): (r: map<int, Pharmacy>)
    ensures forall id :: id in r <==> id in rows || nextId <= id < nextId + |batch|
  {
    if batch == [] then rows
    else
      var n := |batch| - 1;
      InsertAll(rows, nextId, batch[..n])[nextId + n := batch[n].(id := nextId + n)]
  }

  function UpdateStep(): Pharmacy -> Option<Pharmacy>
  {
    (p: Pharmacy) => if p.id != 0 then Some(p) else None
  }

  function InsertStep(): Pharmacy -> Option<Pharmacy>
  {
    (p: Pharmacy) => if p.id == 0 then Some(p) else None
  }

  /** The records that are updated (non-zero id), in input order. */
  function Updates(ps: seq<Pharmacy>): seq<Pharmacy>
  {
    FilterMap(ps, UpdateStep())
  }

  /** The records that are inserted (zero id), in input order. */
  function Inserts(ps: seq<Pharmacy>): seq<Pharmacy>
  {
    FilterMap(ps, InsertStep())
  }

  /** Every record goes to exactly one of the two lists, each keeping input
      order. */
  lemma {:induction false} Partition(ps: seq<Pharmacy>)
    ensures multiset(Updates(ps)) + multiset(Inserts(ps)) == multiset(ps)
    ensures forall j :: 0 <= j < |Updates(ps)| ==> Updates(ps)[j].id != 0
    ensures forall j :: 0 <= j < |Inserts(ps)| ==> Inserts(ps)[j].id == 0
  {
    if ps != [] {
      var init, x := ps[..|ps| - 1], ps[|ps| - 1];
      Partition(init);
      assert ps == init + [x];
      assert multiset(ps) == multiset(init) + multiset{x};
      if x.id != 0 {
        assert Updates(ps) == Updates(init) + [x] && Inserts(ps) == Inserts(init);
      } else {
        assert Updates(ps) == Updates(init) && Inserts(ps) == Inserts(init) + [x];
      }
    }
  }

  /** The updates issued before the loop reaches position `i` are a prefix of
      all updates. */
  lemma UpdatesPrefix(ps: seq<Pharmacy>, i: nat)
    requires i <= |ps|
    ensures |Updates(ps[..i])| <= |Updates(ps)| && Updates(ps)[..|Updates(ps[..i])|] == Updates(ps[..i])
  {
    assert ps == ps[..i] + ps[i..];
    FilterMapConcat(ps[..i], ps[i..], UpdateStep());
  }

  /** Rows are keyed by their own id, and ids below the sequence value. */
  predicate Keyed(rows: map<int, Pharmacy>, nextId: int)
  {
    nextId > 0 && forall id :: id in rows ==> 0 < id < nextId && rows[id].id == id
  }

  /** The rows a chain query selects. */
  function ByChain(rows: map<int, Pharmacy>, chain: string): (r: set<Pharmacy>)
    ensures forall id :: id in rows && rows[id].chain == chain ==> rows[id] in r
    ensures forall p :: p in r ==> p.chain == chain && exists id :: id in rows && rows[id] == p
  {
    set id | id in rows && rows[id].chain == chain :: rows[id]
  }

  /** The rows the bounding-box query selects: both bounds inclusive. */
  function InBounds(rows: map<int, Pharmacy>, sw: Point, ne: Point): (r: set<Pharmacy>)
    ensures forall id :: (id in rows && sw.lat <= rows[id].latitude <= ne.lat &&
                          sw.lng <= rows[id].longitude <= ne.lng) ==> rows[id] in r
    ensures forall p :: p in r ==> sw.lat <= p.latitude <= ne.lat && sw.lng <= p.longitude <= ne.lng &&
                                   exists id :: id in rows && rows[id] == p
  {
    set id | id in rows && sw.lat <= rows[id].latitude <= ne.lat && sw.lng <= rows[id].longitude <= ne.lng :: rows[id]
  }

  /** A larger box finds at least the same rows; a box shrunk to one point
      finds the rows standing exactly there. */
  lemma BoundsMonotone(rows: map<int, Pharmacy>, sw: Point, ne: Point, sw': Point, ne': Point, p: Pharmacy)
    requires sw'.lat <= sw.lat && sw'.lng <= sw.lng && ne.lat <= ne'.lat && ne.lng <= ne'.lng
    ensures p in InBounds(rows, sw, ne) ==> p in InBounds(rows, sw', ne')
    ensures forall id :: id in rows ==>
              rows[id] in InBounds(rows, Point(rows[id].latitude, rows[id].longitude),
                                   Point(rows[id].latitude, rows[id].longitude))
  {
  }

  /** After a bulk insert every inserted record can be found by its chain,
      under the id it was given, and the rows already there stay. */
  lemma {:induction false} InsertedAreFound(rows: map<int, Pharmacy>, nextId: int, batch: seq<Pharmacy>, chain: string)
    requires Keyed(rows, nextId)
    ensures forall k :: 0 <= k < |batch| && batch[k].chain == chain ==>
              batch[k].(id := nextId + k) in ByChain(InsertAll(rows, nextId, batch), chain)
    ensures forall id :: id in rows ==> InsertAll(rows, nextId, batch)[id] == rows[id]
    ensures Keyed(InsertAll(rows, nextId, batch), nextId + |batch|)
  {
    if batch != [] {
      var n := |batch| - 1;
      InsertedAreFound(rows, nextId, batch[..n], chain);
      var r := InsertAll(rows, nextId, batch);
      forall k | 0 <= k < |batch| && batch[k].chain == chain
        ensures batch[k].(id := nextId + k) in ByChain(r, chain)
      {
        if k < n {
          assert batch[..n][k] == batch[k];
        }
        assert r[nextId + k] == batch[k].(id := nextId + k);
      }
    }
  }

  /** Updates keep the table keyed, and the last update of a stored id wins. */
  lemma {:induction false} UpdatesKeepKeys(rows: map<int, Pharmacy>, nextId: int, us: seq<Pharmacy>)
    requires Keyed(rows, nextId)
    ensures Keyed(ApplyUpdates(rows, us), nextId)
    ensures us != [] && us[|us| - 1].id in rows ==> ApplyUpdates(rows, us)[us[|us| - 1].id] == us[|us| - 1]
  {
    if us != [] {
      UpdatesKeepKeys(rows, nextId, us[..|us| - 1]);
    }
  }

  /** The pharmacies table. */
  class PharmacyTable {
    var rows: map<int, Pharmacy>
    var nextId: int

    ghost predicate Valid()
      reads this
    {
      Keyed(rows, nextId)
    }

    constructor ()
      ensures Valid() && rows == map[] && nextId == 1
    {
      rows := map[];
      nextId := 1;
    }

    /** `FindPharmaciesByChain(chain)`: the query over the rows of the chain,
        in an order of the database's choosing. */
    method FindPharmaciesByChain(chain: string) returns (q: SqlQuery<Pharmacy>)
      ensures q.args == [TextArg(chain)]
      ensures forall p :: p in q.rows <==> p in ByChain(rows, chain)
      ensures forall i, j :: 0 <= i < j < |q.rows| ==> q.rows[i] != q.rows[j]
    {
      var rs := Enumerate(ByChain(rows, chain));
      q := SqlQuery(rs, [TextArg(chain)]);
    }

    /** `FindPharmaciesInCoordinateBounds(sw, ne)`. */
    method FindPharmaciesInCoordinateBounds(sw: Point, ne: Point) returns (q: SqlQuery<Pharmacy>)
      ensures q.args == [RealArg(sw.lat), RealArg(sw.lng), RealArg(ne.lat), RealArg(ne.lng)]
      ensures forall p :: p in q.rows <==> p in InBounds(rows, sw, ne)
      ensures forall i, j :: 0 <= i < j < |q.rows| ==> q.rows[i] != q.rows[j]
    {
      var rs := Enumerate(InBounds(rows, sw, ne));
      q := SqlQuery(rs, [RealArg(sw.lat), RealArg(sw.lng), RealArg(ne.lat), RealArg(ne.lng)]);
    }

    /** `StoreAll`: one update per record with a non-zero id, in order, then
        one insert of all records with id 0 when there are any. The first
        failing statement ends the call with its error: the updates before
        it stay applied and nothing after it runs. `applied` counts the
        updates that took effect. */
    method StoreAll(ps: seq<Pharmacy>) returns (err: Option<string>, ghost applied: nat)
      requires Valid()
      modifies this
      ensures Valid()
      ensures applied <= |Updates(ps)|
      ensures err.None? ==>
                applied == |Updates(ps)| &&
                rows == InsertAll(ApplyUpdates(old(rows), Updates(ps)), old(nextId), Inserts(ps)) &&
                nextId == old(nextId) + |Inserts(ps)|
      ensures err.Some? ==>
                rows == ApplyUpdates(old(rows), Updates(ps)[..applied]) && nextId == old(nextId)
      ensures err.Some? ==> applied < |Updates(ps)| || Inserts(ps) != []
      ensures ps == [] ==> err.None? && rows == old(rows) && nextId == old(nextId)
    {
      var toInsert: seq<Pharmacy> := [];
      applied := 0;
      var i := 0;
      while i < |ps|
        invariant 0 <= i <= |ps| && nextId == old(nextId)
        invariant toInsert == Inserts(ps[..i])
        invariant applied == |Updates(ps[..i])|
        invariant rows == ApplyUpdates(old(rows), Updates(ps[..i]))
        invariant Valid()
      {
        assert ps[..i + 1][..i] == ps[..i];
        UpdatesPrefix(ps, i);
        if ps[i].id != 0 {
          var fail: bool :| true;
          if fail {
            UpdatesPrefix(ps, i + 1);
            assert ps[..i + 1] == ps[..i] + [ps[i]];
            FilterMapConcat(ps[..i], [ps[i]], UpdateStep());
            return Some("update failed"), applied;
          }
          rows := ApplyUpdate(rows, ps[i]);
          applied := applied + 1;
          UpdatesKeepKeys(old(rows), nextId, Updates(ps[..i + 1]));
        } else {
          toInsert := toInsert + [ps[i]];
        }
        i := i + 1;
      }
      assert ps[..|ps|] == ps;
      UpdatesPrefix(ps, |ps|);
      EmptyBatch(old(rows), nextId);
      if |toInsert| > 0 {
        var fail: bool :| true;
        if fail {
          return Some("insert failed"), applied;
        }
        InsertedAreFound(rows, nextId, toInsert, "");
        rows := InsertAll(rows, nextId, toInsert);
        nextId := nextId + |toInsert|;
      }
      err := None;
    }
  }

  /** The elements of a set, each once, in an unspecified order. */
  method Enumerate<T>(s: set<T>) returns (r: seq<T>)
    ensures forall x :: x in r <==> x in s
    ensures forall i, j :: 0 <= i < j < |r| ==> r[i] != r[j]
  {
    r := [];
    var left := s;
    while left != {}
      invariant left <= s
      invariant forall x :: x in r <==> x in s && x !in left
      invariant forall i, j :: 0 <= i < j < |r| ==> r[i] != r[j]
      decreases |left|
    {
      var x :| x in left;
      r := r + [x];
      left := left - {x};
    }
  }

  /** An empty batch touches nothing. */
  lemma EmptyBatch(rows: map<int, Pharmacy>, nextId: int)
    ensures Updates([]) == [] && Inserts([]) == []
    ensures InsertAll(ApplyUpdates(rows, Updates([])), nextId, Inserts([])) == rows
  {
  }
}
