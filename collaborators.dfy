/** The outside world the scrapers talk to, reduced to what the core needs:
    library parsers and lookups as functions, and the repository and HTTP
    calls a scrape issues, recorded in order. */
module Collaborators {
  import opened Wrappers
  import opened Entity

  /** Collaborators whose internals are not modelled.
      - `parseTime`: `time.Parse("2006-01-02 15:04:05", s)` as Unix milliseconds;
      - `parseFloat32`: `strconv.ParseFloat(s, 32)` narrowed to `float32`;
      - `zipCode`: the Omniva postal-code lookup for a free-text address, "" when unknown;
      - `crc64`: `int64(crc64.Checksum(name, ISO table))`;
      - `now`: `time.Now().UTC()` as Unix milliseconds. */
  datatype Env = Env(
    parseTime: string -> Option<int>,
    parseFloat32: string -> Option<real>,
    zipCode: string -> string,
    crc64: string -> int,
    now: int)

  /** A repository or network call made during a scrape, with its argument. */
  datatype Call =
    | FindPharmaciesByChain(chain: string)
    | FetchShops(url: string)
    | FindPharmacyByChainAndPharmacyID(pharmacyId: int, byChain: string)
    | StoreAll(batch: seq<Pharmacy>)
}
