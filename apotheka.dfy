/** The Apotheka scraper: the shop-feed run for the Apotheka chain. */
module Apotheka {
  import opened Wrappers
  import opened Entity
  import opened Collaborators
  import opened ShopApi
  import ShopScraper

  const Endpoint: string := "https://www.apotheka.ee/shops/shop/shops"

  method Scrape(existing: Result<seq<Pharmacy>, string>, fetched: Result<seq<Shop>, string>, env: Env)
    returns (calls: seq<Call>)
    ensures calls == ShopScraper.ScrapeTrace(ChainApotheka, Endpoint, existing, fetched, env)
  {
    calls := ShopScraper.Scrape(ChainApotheka, Endpoint, existing, fetched, env);
  }
}
