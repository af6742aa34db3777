/** The merge every updating scraper performs between freshly mapped
    candidates and the rows already stored for the chain: match on the natural
    key `pharmacyId`, insert what is new, update what is newer, skip the rest. */
module Reconcile {
  import opened Wrappers
  import opened Seqs
  import opened Entity

  /** The first stored record carrying natural key `pid`. */
  function FirstMatch(existing: seq<Pharmacy>, pid: int): (k: Option<nat>)
    ensures k.Some? ==> k.value < |existing| && existing[k.value].pharmacyId == pid
    ensures k.Some? ==> forall j :: 0 <= j < k.value ==> existing[j].pharmacyId != pid
    ensures k.None? <==> forall j :: 0 <= j < |existing| ==> existing[j].pharmacyId != pid
  {
    if existing == [] then None
    else if existing[0].pharmacyId == pid then Some(0)
    else
      match FirstMatch(existing[1..], pid)
      case None => None
      case Some(k) => Some(k + 1)
  }

  /** The inner search loop, stopping at the first hit. */
  method FindExisting(existing: seq<Pharmacy>, pid: int) returns (k: Option<nat>)
    ensures k == FirstMatch(existing, pid)
  {
    k := None;
    var j := 0;
    while j < |existing|
      invariant 0 <= j <= |existing|
      invariant forall i :: 0 <= i < j ==> existing[i].pharmacyId != pid
    {
      if existing[j].pharmacyId == pid {
        k := Some(j);
        FirstMatchIs(existing, pid, j);
        return;
      }
      j := j + 1;
    }
  }

  /** `FirstMatch` is pinned down by its contract. */
  lemma FirstMatchIs(existing: seq<Pharmacy>, pid: int, j: nat)
    requires j < |existing| && existing[j].pharmacyId == pid
    requires forall i :: 0 <= i < j ==> existing[i].pharmacyId != pid
    ensures FirstMatch(existing, pid) == Some(j)
  {
    var k := FirstMatch(existing, pid);
    assert k.Some?;
    assert !(k.value < j) && !(j < k.value);
  }

  /** What happens to one candidate: inserted as it is, updated under the stored
      surrogate id when the stored copy is strictly older (in milliseconds),
      or dropped. */
  function Decide(c: Pharmacy, existing: seq<Pharmacy>): Option<Pharmacy>
  {
    match FirstMatch(existing, c.pharmacyId)
    case None => Some(c)
    case Some(k) => if existing[k].modTime < c.modTime then Some(c.(id := existing[k].id)) else None
  }

  function ReconcileStep(existing: seq<Pharmacy>): Pharmacy -> Option<Pharmacy>
  {
    c => Decide(c, existing)
  }

  /** The batch handed to `StoreAll`. */
  function Reconciled(cands: seq<Pharmacy>, existing: seq<Pharmacy>): seq<Pharmacy>
  {
    FilterMap(cands, ReconcileStep(existing))
  }

  /** The candidate after the loop body ran on it: the stored id is written into
      it exactly when it is an update. */
  function AfterStep(c: Pharmacy, existing: seq<Pharmacy>): Pharmacy
  {
    Decide(c, existing).GetOr(c)
  }

  /** The nested loop of the scrapers: candidates are visited in order, an
      update writes the stored id into the candidate slot in place, and
      inserts and updates are appended to the batch. */
  method ReconcileInPlace(cands: array<Pharmacy>, existing: seq<Pharmacy>) returns (toSave: seq<Pharmacy>)
    modifies cands
    ensures toSave == Reconciled(old(cands[..]), existing)
    ensures forall i :: 0 <= i < cands.Length ==> cands[i] == AfterStep(old(cands[i]), existing)
  {
    ghost var orig := cands[..];
    toSave := [];
    var i := 0;
    while i < cands.Length
      invariant 0 <= i <= cands.Length
      invariant toSave == Reconciled(orig[..i], existing)
      invariant forall j :: 0 <= j < i ==> cands[j] == AfterStep(orig[j], existing)
      invariant forall j :: i <= j < cands.Length ==> cands[j] == orig[j]
    {
      assert orig[..i + 1][..i] == orig[..i];
      var k := FindExisting(existing, cands[i].pharmacyId);
      if k.Some? && existing[k.value].modTime < cands[i].modTime {
        cands[i] := cands[i].(id := existing[k.value].id);
        toSave := toSave + [cands[i]];
      } else if k.None? {
        toSave := toSave + [cands[i]];
      }
      i := i + 1;
    }
    assert orig[..cands.Length] == orig;
  }

  /** The three rules, over a whole batch: every output is a candidate taken in
      order, either unchanged because no stored record has its key, or carrying
      the id of the first stored record with its key when that record is
      strictly older; every candidate left out has a stored match that is not
      older. */
  lemma ReconcileRules(cands: seq<Pharmacy>, existing: seq<Pharmacy>)
    ensures var out, kept := Reconciled(cands, existing), Kept(cands, ReconcileStep(existing));
      |kept| == |out| <= |cands| &&
      (forall j, j' :: 0 <= j < j' < |kept| ==> kept[j] < kept[j']) &&
      (forall j :: 0 <= j < |kept| ==>
         (kept[j] < |cands| &&
          var c := cands[kept[j]];
          match FirstMatch(existing, c.pharmacyId)
          case None => out[j] == c
          case Some(k) => existing[k].modTime < c.modTime && out[j] == c.(id := existing[k].id))) &&
      (forall i :: 0 <= i < |cands| && i !in kept ==>
         var m := FirstMatch(existing, cands[i].pharmacyId);
         m.Some? && existing[m.value].modTime >= cands[i].modTime)
  {
    FilterMapKeeps(cands, ReconcileStep(existing));
  }

  /** Against an empty store every candidate is inserted unchanged. */
  lemma {:induction false} ReconcileEmptyStore(cands: seq<Pharmacy>)
    ensures Reconciled(cands, []) == cands
  {
    if cands != [] {
      ReconcileEmptyStore(cands[..|cands| - 1]);
      assert cands == cands[..|cands| - 1] + [cands[|cands| - 1]];
    }
  }

  /** Scraping again what was just stored writes nothing: with distinct natural
      keys every candidate finds itself with an equal timestamp. */
  lemma ReconcileUnchanged(cands: seq<Pharmacy>)
    requires forall i, j :: 0 <= i < j < |cands| ==> cands[i].pharmacyId != cands[j].pharmacyId
    ensures Reconciled(cands, cands) == []
  {
    var kept := Kept(cands, ReconcileStep(cands));
    FilterMapKeeps(cands, ReconcileStep(cands));
    if |kept| > 0 {
      var i := kept[0];
      FirstMatchIs(cands, cands[i].pharmacyId, i);
      assert false;
    }
  }
}
