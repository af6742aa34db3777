/** The scraper for independent pharmacies: rows come from an embedded JSON
    list, each is keyed by the checksum of its name, looked up one by one, and
    those not stored yet are inserted together. A failed lookup abandons the
    run. */
module Independent {
  import opened Wrappers
  import opened Seqs
  import opened Entity
  import opened Collaborators

  /** The entry with its natural key overwritten by the checksum of its name. */
  function Keyed(p: Pharmacy, env: Env): (k: Pharmacy)
    ensures k == p.(pharmacyId := env.crc64(p.name))
  {
    p.(pharmacyId := env.crc64(p.name))
  }

  /** The lookup of one keyed entry by natural key and chain. */
  function LookupCall(k: Pharmacy): Call
  {
    FindPharmacyByChainAndPharmacyID(k.pharmacyId, k.chain)
  }

  /** The loop state: the lookups made, the queue, and whether a lookup failed. */
  datatype IndepState = IndepState(calls: seq<Call>, queue: seq<Pharmacy>, failed: bool)

  /** The loop over the entries. `lookup` is the repository's answer to the
      query for a natural key and chain; nothing is written during the loop,
      so the answer depends on the key alone. */
  function IndepRun(entries: seq<Pharmacy>, lookup: (int, string) -> Result<seq<Pharmacy>, string>, env: Env)
    : (st: IndepState)
    ensures |st.calls| <= |entries|
    ensures forall i :: 0 <= i < |st.calls| ==> st.calls[i].FindPharmacyByChainAndPharmacyID?
  {
    if entries == [] then IndepState([], [], false)
    else
      var prev := IndepRun(entries[..|entries| - 1], lookup, env);
      if prev.failed then prev
      else
        var k := Keyed(entries[|entries| - 1], env);
        var calls := prev.calls + [LookupCall(k)];
        match lookup(k.pharmacyId, k.chain)
        case Failure(_) => IndepState(calls, prev.queue, true)
        case Success(rows) => IndepState(calls, if rows == [] then prev.queue + [k] else prev.queue, false)
  }

  /** The calls of a whole run: nothing when the embedded file did not open,
      read or decode; then the lookups; then one batch store when no lookup
      failed and the queue is not empty. */
  function IndependentTrace(decoded: Result<seq<Pharmacy>, string>,
                            lookup: (int, string) -> Result<seq<Pharmacy>, string>, env: Env): (calls: seq<Call>)
    ensures decoded.Failure? ==> calls == []
    ensures forall i :: 0 <= i < |calls| && calls[i].StoreAll? ==>
              i == |calls| - 1 && calls[i].batch != [] && !IndepRun(decoded.value, lookup, env).failed
  {
    if decoded.Failure? then []
    else
      var st := IndepRun(decoded.value, lookup, env);
      st.calls + (if !st.failed && st.queue != [] then [StoreAll(st.queue)] else [])
  }

  /** `IndependentScraper.Scrape` after the embedded file was decoded (or not). */
  method Scrape(decoded: Result<seq<Pharmacy>, string>,
                lookup: (int, string) -> Result<seq<Pharmacy>, string>, env: Env) returns (calls: seq<Call>)
    ensures calls == IndependentTrace(decoded, lookup, env)
  {
    calls := [];
    if decoded.Failure? {
      return;
    }
    var entries := decoded.value;
    var toStore: seq<Pharmacy> := [];
    var i := 0;
    while i < |entries|
      invariant 0 <= i <= |entries|
      invariant IndepRun(entries[..i], lookup, env) == IndepState(calls, toStore, false)
    {
      assert entries[..i + 1][..i] == entries[..i];
      var pharmacy := entries[i];
      pharmacy := pharmacy.(pharmacyId := env.crc64(pharmacy.name));
      calls := calls + [FindPharmacyByChainAndPharmacyID(pharmacy.pharmacyId, pharmacy.chain)];
      var resps := lookup(pharmacy.pharmacyId, pharmacy.chain);
      if resps.Failure? {
        FailedStays(entries, i + 1, lookup, env);
        return;
      }
      if |resps.value| == 0 {
        toStore := toStore + [pharmacy];
      }
      i := i + 1;
    }
    assert entries[..|entries|] == entries;
    if |toStore| > 0 {
      calls := calls + [StoreAll(toStore)];
    }
  }

  /** Once a lookup has failed, the rest of the entries change nothing. */
  lemma {:induction false} FailedStays(entries: seq<Pharmacy>, i: nat,
                                       lookup: (int, string) -> Result<seq<Pharmacy>, string>, env: Env)
    requires i <= |entries| && IndepRun(entries[..i], lookup, env).failed
    ensures IndepRun(entries, lookup, env) == IndepRun(entries[..i], lookup, env)
    decreases |entries|
  {
    if i < |entries| {
      var init := entries[..|entries| - 1];
      assert init[..i] == entries[..i];
      FailedStays(init, i, lookup, env);
    } else {
      assert entries[..i] == entries;
    }
  }

  /** Whether one entry is queued: keyed by its name's checksum, and only when
      the lookup answers with no rows. */
  function Queued(lookup: (int, string) -> Result<seq<Pharmacy>, string>, env: Env): Pharmacy -> Option<Pharmacy>
  {
    (p: Pharmacy) =>
      var k := Keyed(p, env);
      if lookup(k.pharmacyId, k.chain) == Success([]) then Some(k) else None
  }

  /** A run without a failing lookup looks every entry up, in order, under its
      checksum key, and queues exactly the entries not stored yet, in order; it
      fails exactly when some lookup fails. */
  lemma {:induction false} RunWithoutFailure(entries: seq<Pharmacy>,
                                             lookup: (int, string) -> Result<seq<Pharmacy>, string>, env: Env)
    ensures var st := IndepRun(entries, lookup, env);
      (!st.failed <==> forall i :: 0 <= i < |entries| ==>
                         lookup(env.crc64(entries[i].name), entries[i].chain).Success?) &&
      (!st.failed ==>
         |st.calls| == |entries| &&
         (forall i :: 0 <= i < |entries| ==>
            st.calls[i] == FindPharmacyByChainAndPharmacyID(env.crc64(entries[i].name), entries[i].chain)) &&
         st.queue == FilterMap(entries, Queued(lookup, env)))
  {
    if entries != [] {
      var init := entries[..|entries| - 1];
      RunWithoutFailure(init, lookup, env);
      assert forall i :: 0 <= i < |init| ==> init[i] == entries[i];
      var prev := IndepRun(init, lookup, env);
      if prev.failed {
        var i :| 0 <= i < |init| && !lookup(env.crc64(init[i].name), init[i].chain).Success?;
        assert !lookup(env.crc64(entries[i].name), entries[i].chain).Success?;
      }
    }
  }

  /** A failed lookup means nothing is stored. */
  lemma FailureStoresNothing(entries: seq<Pharmacy>, lookup: (int, string) -> Result<seq<Pharmacy>, string>,
                             env: Env, j: nat)
    requires j < |entries| && lookup(env.crc64(entries[j].name), entries[j].chain).Failure?
    ensures var calls := IndependentTrace(Success(entries), lookup, env);
            forall i :: 0 <= i < |calls| ==> !calls[i].StoreAll?
  {
    RunWithoutFailure(entries, lookup, env);
  }

  /** Every queued entry was looked up under its checksum key and found absent,
      existing rows are never updated (every queued row is an insert when the
      entries carry no surrogate id), and the store happens only for a
      non-empty queue. */
  lemma QueueIsInsertOnly(entries: seq<Pharmacy>, lookup: (int, string) -> Result<seq<Pharmacy>, string>, env: Env)
    requires forall i :: 0 <= i < |entries| ==> lookup(env.crc64(entries[i].name), entries[i].chain).Success?
    ensures var st := IndepRun(entries, lookup, env);
      (forall j :: 0 <= j < |st.queue| ==>
         st.queue[j].pharmacyId == env.crc64(st.queue[j].name) &&
         lookup(st.queue[j].pharmacyId, st.queue[j].chain) == Success([])) &&
      IndependentTrace(Success(entries), lookup, env) ==
        st.calls + (if st.queue == [] then [] else [StoreAll(st.queue)])
  {
    RunWithoutFailure(entries, lookup, env);
    var f := Queued(lookup, env);
    FilterMapKeeps(entries, f);
  }
}
