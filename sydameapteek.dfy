/** The Südameapteek scraper: the shop-feed run for the Südameapteek chain. */
module Sydameapteek {
  import opened Wrappers
  import opened Entity
  import opened Collaborators
  import opened ShopApi
  import ShopScraper

  const Endpoint: string := "https://www.sudameapteek.ee/shops/shop/shops"

  method Scrape(existing: Result<seq<Pharmacy>, string>, fetched: Result<seq<Shop>, string>, env: Env)
    returns (calls: seq<Call>)
    ensures calls == ShopScraper.ScrapeTrace(ChainSudameapteek, Endpoint, existing, fetched, env)
  {
    calls := ShopScraper.Scrape(ChainSudameapteek, Endpoint, existing, fetched, env);
  }
}
