/** The scrape run shared by the two chains on the shop feed: read the stored
    rows of the chain, fetch the feed, map it, reconcile, store once. */
module ShopScraper {
  import opened Wrappers
  import opened Entity
  import opened Collaborators
  import opened Reconcile
  import opened ShopApi

  /** The calls a run issues, given what the store query and the fetch answer. */
  function ScrapeTrace(chain: string, endpoint: string, existing: Result<seq<Pharmacy>, string>,
                       fetched: Result<seq<Shop>, string>, env: Env): (calls: seq<Call>)
    ensures |calls| >= 1 && calls[0] == FindPharmaciesByChain(chain)
    ensures existing.Failure? ==> |calls| == 1
    ensures existing.Success? ==> |calls| >= 2 && calls[1] == FetchShops(endpoint)
    ensures existing.Failure? || fetched.Failure? ==> forall i :: 0 <= i < |calls| ==> !calls[i].StoreAll?
    ensures existing.Success? && fetched.Success? ==>
              |calls| == 3 &&
              calls[2] == StoreAll(Reconciled(ShopsToPharmacies(fetched.value, chain, env), existing.value))
  {
    if existing.Failure? then [FindPharmaciesByChain(chain)]
    else if fetched.Failure? then [FindPharmaciesByChain(chain), FetchShops(endpoint)]
    else
      [FindPharmaciesByChain(chain), FetchShops(endpoint),
       StoreAll(Reconciled(ShopsToPharmacies(fetched.value, chain, env), existing.value))]
  }

  /** One run: a failed store query returns before fetching, a failed fetch
      returns before storing, otherwise the reconciled batch is stored once,
      even when it is empty. */
  method Scrape(chain: string, endpoint: string, existing: Result<seq<Pharmacy>, string>,
                fetched: Result<seq<Shop>, string>, env: Env) returns (calls: seq<Call>)
    ensures calls == ScrapeTrace(chain, endpoint, existing, fetched, env)
  {
    calls := [FindPharmaciesByChain(chain)];
    if existing.Failure? {
      return;
    }
    calls := calls + [FetchShops(endpoint)];
    if fetched.Failure? {
      return;
    }
    var mapped := MapShopsToPharmacies(fetched.value, chain, env);
    var cands := new Pharmacy[|mapped|](i requires 0 <= i < |mapped| => mapped[i]);
    assert cands[..] == mapped;
    var toSave := ReconcileInPlace(cands, existing.value);
    calls := calls + [StoreAll(toSave)];
  }

  /** The batch an update stores is its own candidates, under stored ids: a
      freshly stored feed scraped again stores an empty batch. */
  lemma RescrapeStoresNothing(chain: string, endpoint: string, shops: seq<Shop>, env: Env)
    requires var rows := ShopsToPharmacies(shops, chain, env);
             forall i, j :: 0 <= i < j < |rows| ==> rows[i].pharmacyId != rows[j].pharmacyId
    ensures ScrapeTrace(chain, endpoint, Success(ShopsToPharmacies(shops, chain, env)), Success(shops), env)
            == [FindPharmaciesByChain(chain), FetchShops(endpoint), StoreAll([])]
  {
    ReconcileUnchanged(ShopsToPharmacies(shops, chain, env));
  }

  /** With nothing stored yet, every mapped row is stored as an insert. */
  lemma FirstScrapeInsertsAll(chain: string, endpoint: string, shops: seq<Shop>, env: Env)
    ensures ScrapeTrace(chain, endpoint, Success([]), Success(shops), env)
            == [FindPharmaciesByChain(chain), FetchShops(endpoint), StoreAll(ShopsToPharmacies(shops, chain, env))]
  {
    ReconcileEmptyStore(ShopsToPharmacies(shops, chain, env));
  }
}
