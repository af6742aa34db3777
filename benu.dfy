/** The Benu scraper's mapping and reconciliation. Entries arrive as a JSON
    object keyed by strings and are visited in Go map order, so the input is a
    multiset and each run fixes one visiting order. An update writes the entry
    into the stored row itself, in place. */
module Benu {
  import opened Wrappers
  import opened Seqs
  import opened Entity
  import opened Collaborators
  import opened Reconcile
  import opened BenuAddress

  /** One decoded entry. Coordinates and timestamp are still text. */
  datatype BenuEntry = BenuEntry(
    id: int,
    latitude: string,
    longitude: string,
    region: string,
    address: string,
    postCode: string,
    phone: string,
    email: string,
    modTime: string)

  /** `mapToPharmacy` on a value: the record after the writes through `dst`,
      and whether it returned without error. Seven fields are written before
      the coordinates are parsed, so a failed parse leaves them written. */
  function MapInto(src: BenuEntry, dst: Pharmacy, newTS: int, env: Env): (Pharmacy, bool)
  {
    var d := dst.(pharmacyId := src.id, chain := ChainBenu, county := src.region,
                  postalCode := src.postCode, email := src.email,
                  phoneNumber := "+372" + src.phone, modTime := newTS);
    var lat := env.parseFloat32(src.latitude);
    if lat.None? then (d, false)
    else
      var lng := env.parseFloat32(src.longitude);
      if lng.None? then (d, false)
      else (ApplyAddress(d.(latitude := lat.value, longitude := lng.value), src.address), true)
  }

  /** The mapper writing through `&dst[k]`: the row stored there
      becomes `MapInto` of what it held, and nothing else changes. */
  method MapToPharmacy(src: BenuEntry, dst: array<Pharmacy>, k: nat, newTS: int, env: Env) returns (ok: bool)
    requires k < dst.Length
    modifies dst
    ensures (dst[k], ok) == MapInto(src, old(dst[k]), newTS, env)
    ensures forall j :: 0 <= j < dst.Length && j != k ==> dst[j] == old(dst[j])
  {
    dst[k] := dst[k].(pharmacyId := src.id, chain := ChainBenu, county := src.region);
    dst[k] := dst[k].(postalCode := src.postCode, email := src.email);
    dst[k] := dst[k].(phoneNumber := "+372" + src.phone, modTime := newTS);
    var lat := env.parseFloat32(src.latitude);
    if lat.None? {
      return false;
    }
    var lng := env.parseFloat32(src.longitude);
    if lng.None? {
      return false;
    }
    dst[k] := dst[k].(latitude := lat.value, longitude := lng.value);
    dst[k] := ApplyAddress(dst[k], src.address);
    ok := true;
  }

  /** What the mapper promises: the seven plain fields always, the coordinates
      and address fields only on success, the surrogate id never. */
  lemma MapIntoFields(src: BenuEntry, dst: Pharmacy, newTS: int, env: Env)
    ensures var (p, ok) := MapInto(src, dst, newTS, env);
      (ok <==> env.parseFloat32(src.latitude).Some? && env.parseFloat32(src.longitude).Some?) &&
      p.id == dst.id && p.pharmacyId == src.id && p.chain == ChainBenu && p.county == src.region &&
      p.postalCode == src.postCode && p.email == src.email &&
      p.phoneNumber == "+372" + src.phone && p.modTime == newTS &&
      (ok ==> p.latitude == env.parseFloat32(src.latitude).value &&
              p.longitude == env.parseFloat32(src.longitude).value &&
              p == ApplyAddress(p.(name := dst.name, address := dst.address, city := dst.city), src.address)) &&
      (!ok ==> p.latitude == dst.latitude && p.longitude == dst.longitude &&
               p.name == dst.name && p.address == dst.address && p.city == dst.city)
  {
  }

  /** The timestamp an entry carries: its parsed `modTime`, or the clock. */
  function EntryTime(e: BenuEntry, env: Env): int
  {
    env.parseTime(e.modTime).GetOr(env.now)
  }

  /** The loop state: the stored rows (updated in place) and the batch so far. */
  datatype BenuState = BenuState(existing: seq<Pharmacy>, out: seq<Pharmacy>)

  /** One loop iteration. */
  function BenuStep(st: BenuState, e: BenuEntry, env: Env): (r: BenuState)
    ensures |r.existing| == |st.existing|
  {
    var ts := EntryTime(e, env);
    match FirstMatch(st.existing, e.id)
    case Some(k) =>
      if st.existing[k].modTime < ts then
        var (p, ok) := MapInto(e, st.existing[k], ts, env);
        BenuState(st.existing[k := p], if ok then st.out + [p] else st.out)
      else st
    case None =>
      var (p, ok) := MapInto(e, EmptyPharmacy, ts, env);
      if ok then BenuState(st.existing, st.out + [p]) else st
  }

  /** The loop over one visiting order. */
  function BenuRun(order: seq<BenuEntry>, stored: seq<Pharmacy>, env: Env): (r: BenuState)
    ensures |r.existing| == |stored|
  {
    if order == [] then BenuState(stored, [])
    else BenuStep(BenuRun(order[..|order| - 1], stored, env), order[|order| - 1], env)
  }

  /** `createEntitiesFromJson` after decoding: an error when the JSON did not
      decode or the stored rows could not be read (in that order), otherwise
      the batch for the visiting order the map happened to take. */
  method CreateEntities(decoded: Result<multiset<BenuEntry>, string>,
                        stored: Result<seq<Pharmacy>, string>, env: Env)
    returns (r: Result<seq<Pharmacy>, string>, ghost order: seq<BenuEntry>)
    ensures decoded.Failure? ==> r == Failure("failed to unmarshal BENU pharmacy json")
    ensures decoded.Success? && stored.Failure? ==>
              r == Failure("failed to query existing BENU pharmacies in the database")
    ensures decoded.Success? && stored.Success? ==>
              multiset(order) == decoded.value && r == Success(BenuRun(order, stored.value, env).out)
  {
    order := [];
    if decoded.Failure? {
      return Failure("failed to unmarshal BENU pharmacy json"), order;
    }
    if stored.Failure? {
      return Failure("failed to query existing BENU pharmacies in the database"), order;
    }
    var existing := new Pharmacy[|stored.value|](i requires 0 <= i < |stored.value| => stored.value[i]);
    var ret: seq<Pharmacy> := [];
    var remaining := decoded.value;
    while remaining != multiset{}
      invariant multiset(order) + remaining == decoded.value
      invariant BenuRun(order, stored.value, env) == BenuState(existing[..], ret)
      decreases |remaining|
    {
      var e :| e in remaining;
      remaining := remaining - multiset{e};
      ghost var before := order;
      order := order + [e];
      assert order[..|order| - 1] == before;
      ret := VisitEntry(e, existing, ret, env);
    }
    r := Success(ret);
  }

  /** The body of the loop for one entry: find the stored row, then either
      rewrite it in place or map into a fresh record, appending on success. */
  method VisitEntry(e: BenuEntry, existing: array<Pharmacy>, ret: seq<Pharmacy>, env: Env)
    returns (ret': seq<Pharmacy>)
    modifies existing
    ensures BenuState(existing[..], ret') == BenuStep(BenuState(old(existing[..]), ret), e, env)
  {
    ret' := ret;
    var ts := env.parseTime(e.modTime).GetOr(env.now);
    var k := FindExisting(existing[..], e.id);
    if k.Some? && existing[k.value].modTime < ts {
      ghost var was := existing[..];
      var ok := MapToPharmacy(e, existing, k.value, ts, env);
      assert existing[..] == was[k.value := existing[k.value]];
      if ok {
        ret' := ret + [existing[k.value]];
      }
    } else if k.None? {
      var cell := new Pharmacy[1](_ => EmptyPharmacy);
      var ok := MapToPharmacy(e, cell, 0, ts, env);
      if ok {
        ret' := ret + [cell[0]];
      }
    }
  }

  /** One entry's effect judged against the rows as the query returned them. */
  function BenuDecide(stored: seq<Pharmacy>, env: Env): BenuEntry -> Option<Pharmacy>
  {
    e =>
      var ts := EntryTime(e, env);
      match FirstMatch(stored, e.id)
      case Some(k) =>
        if stored[k].modTime < ts then
          var (p, ok) := MapInto(e, stored[k], ts, env);
          if ok then Some(p) else None
        else None
      case None =>
        var (p, ok) := MapInto(e, EmptyPharmacy, ts, env);
        if ok then Some(p) else None
  }

  predicate DistinctIds(order: seq<BenuEntry>)
  {
    forall i, j :: 0 <= i < j < |order| ==> order[i].id != order[j].id
  }

  /** The rows the loop has touched are those whose key was visited: the keys
      never move, and an untouched row is still the stored one. */
  lemma {:induction false} RunKeepsKeys(order: seq<BenuEntry>, stored: seq<Pharmacy>, env: Env)
    ensures var ex := BenuRun(order, stored, env).existing;
      (forall k :: 0 <= k < |stored| ==> ex[k].pharmacyId == stored[k].pharmacyId) &&
      (forall k :: 0 <= k < |stored| && (forall i :: 0 <= i < |order| ==> order[i].id != stored[k].pharmacyId)
         ==> ex[k] == stored[k])
  {
    if order != [] {
      var init := order[..|order| - 1];
      RunKeepsKeys(init, stored, env);
      var st := BenuRun(init, stored, env);
      var e := order[|order| - 1];
      match FirstMatch(st.existing, e.id)
      case Some(k) =>
      case None =>
    }
  }

  /** FirstMatch only looks at the keys. */
  lemma FirstMatchByKeys(a: seq<Pharmacy>, b: seq<Pharmacy>, pid: int)
    requires |a| == |b| && forall k :: 0 <= k < |a| ==> a[k].pharmacyId == b[k].pharmacyId
    ensures FirstMatch(a, pid) == FirstMatch(b, pid)
  {
    match FirstMatch(a, pid)
    case Some(k) => FirstMatchIs(b, pid, k);
    case None =>
  }

  /** With distinct ids no entry sees another's in-place write, so the batch is
      the per-entry decision against the stored rows, in visiting order. */
  lemma {:induction false} DistinctRunIsFilter(order: seq<BenuEntry>, stored: seq<Pharmacy>, env: Env)
    requires DistinctIds(order)
    ensures BenuRun(order, stored, env).out == FilterMap(order, BenuDecide(stored, env))
  {
    if order != [] {
      var init := order[..|order| - 1];
      var e := order[|order| - 1];
      assert DistinctIds(init);
      DistinctRunIsFilter(init, stored, env);
      RunKeepsKeys(init, stored, env);
      var st := BenuRun(init, stored, env);
      FirstMatchByKeys(st.existing, stored, e.id);
      match FirstMatch(stored, e.id)
      case Some(k) =>
        assert forall i :: 0 <= i < |init| ==> init[i].id != stored[k].pharmacyId by {
          forall i | 0 <= i < |init| ensures init[i].id != stored[k].pharmacyId {
            assert init[i] == order[i];
          }
        }
      case None =>
    }
  }

  /** The map's visiting order does not matter when ids are distinct: any two
      orders give the same batch up to order. */
  lemma OrderIrrelevant(o1: seq<BenuEntry>, o2: seq<BenuEntry>, stored: seq<Pharmacy>, env: Env)
    requires multiset(o1) == multiset(o2) && DistinctIds(o1) && DistinctIds(o2)
    ensures multiset(BenuRun(o1, stored, env).out) == multiset(BenuRun(o2, stored, env).out)
  {
    DistinctRunIsFilter(o1, stored, env);
    DistinctRunIsFilter(o2, stored, env);
    FilterMapPermutation(o1, o2, BenuDecide(stored, env));
  }

  /** The three outcomes for one entry, against the stored rows: no stored key
      gives a new row with id 0; a strictly older stored row is rewritten and
      keeps its id; anything else, or unparseable coordinates, gives nothing. */
  lemma DecideRules(stored: seq<Pharmacy>, env: Env, e: BenuEntry)
    ensures var r, ts, ok := BenuDecide(stored, env)(e), EntryTime(e, env),
                             env.parseFloat32(e.latitude).Some? && env.parseFloat32(e.longitude).Some?;
      match FirstMatch(stored, e.id)
      case None => (r.Some? <==> ok) && (r.Some? ==> r.value.id == 0 && r.value.pharmacyId == e.id && r.value.modTime == ts)
      case Some(k) =>
        (r.Some? <==> ok && stored[k].modTime < ts) &&
        (r.Some? ==> r.value.id == stored[k].id && r.value.pharmacyId == e.id && r.value.modTime == ts)
  {
    MapIntoFields(e, EmptyPharmacy, EntryTime(e, env), env);
    match FirstMatch(stored, e.id)
    case Some(k) => MapIntoFields(e, stored[k], EntryTime(e, env), env);
    case None =>
  }
}
