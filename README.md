# pharmacy-finder, modelled in Dafny

This project models the data path of pharmacy-finder. That path starts with the
scrapers that collect Estonian pharmacy locations from four chains and from an
embedded list of independent pharmacies. It continues through the repositories
that store pharmacies and reviews in PostgreSQL, the review endpoints that guard
edits with a secret modification code, and the `types.Time` codec. It ends with
the static file handler.

Each core file is modelled in the form it has in Go:

- **Scrapers.** The mapping and merge loops are methods with loop invariants,
  each proved equal to a specification function. The properties the scrapers
  promise are lemmas about those functions: insert, update or skip; order
  preserved; insert-only; abort paths. The scrapers write the stored id into the
  candidate slice in place. Benu also rewrites the stored row itself. Both are
  modelled on arrays.
- **Collaborators.** The repositories and the HTTP fetch a scrape talks to are
  replaced by their answers, passed in. A scrape returns the sequence of calls it
  makes: queries, fetches and `StoreAll` batches.
- **Tables.** The two tables are classes holding a `map` from surrogate id to
  row. `StoreAll`, the review `Store` and the delete change that map. The finders
  build an `SqlQuery`: the rows the inner SQL selects, in an order the database
  chooses, plus the bound arguments. `SQLXQuery.Page` is modelled by:
  - the argument list it builds;
  - the keyset page the outer query selects. That page is strictly past the
    `(key, uniqueKey)` cursor, ascending or descending, and at most `length` long.
    It is modelled for rows with pairwise distinct `(key, uniqueKey)` values,
    which both finders guarantee, because their unique key is the primary key.
- **Review endpoints.** They are methods of a controller over the review table.
  The SHA-256 + hex hash is a parameter. The random code generator picks from
  the 62-character alphabet nondeterministically.
- **Codecs.** `types.Time` and the static path resolver are pure functions.
  `strconv.ParseInt`, `FormatInt` and `ParseBool` and the `strings` helpers are
  modelled concretely, including the value Go returns alongside an error.

## Model

| member | source | states |
|---|---|---|
| Reconcile.FirstMatch | bg/apotheka_scraper.go:45-50 | the stored record found for a candidate is the first one with its natural key; none only when no stored record has that key |
| Reconcile.FindExisting | bg/sydameapteek_scraper.go:46-51 | the inner search loop stops at the first stored record carrying the key |
| Reconcile.FirstMatchIs | bg/benu_scraper.go:123-128 | a position holding the key, with no earlier holder, is the match the search finds |
| Reconcile.ReconcileInPlace | bg/apotheka_scraper.go:43-58 | the batch is the reconciled candidates in order; each candidate slot gets the stored id exactly when it is an update |
| Reconcile.ReconcileRules | bg/apotheka_scraper.go:52-57 | every output is a candidate, in order: unchanged when no stored record has its key, or under the first match's id when that match is strictly older; every dropped candidate has a match that is not older; the batch is no longer than the candidates |
| Reconcile.ReconcileEmptyStore | bg/apotheka_scraper.go:55-56 | against an empty store every candidate is inserted unchanged |
| Reconcile.ReconcileUnchanged | bg/sydameapteek_scraper.go:53-58 | re-scraping exactly what is stored (distinct keys) yields an empty batch: equal timestamps are skipped |
| ShopApi.MapShopsToPharmacies | bg/shop_api.go:80-121 | the mapping loop returns the feed's rows as the specification function defines them |
| ShopApi.ShopRows | bg/shop_api.go:82-117 | exactly the items whose shop id parses as an int64 give a row, in feed order. Each row has id 0, the parsed key, the chain, the copied name, city, county and email, the street part of the address, the postal code looked up on the full address, "+372" and the phone, the parsed timestamp or the zero time, and the unchanged coordinates |
| ShopApi.StreetIsFirstSegment | bg/shop_api.go:94-99 | the street is the text before the first comma, spaces trimmed |
| ShopApi.StreetIgnoresTail | bg/shop_api.go:94-96 | nothing after the first comma reaches the street |
| ShopScraper.ScrapeTrace | bg/apotheka_scraper.go:28-64 | the chain query comes first; a failed query stops there; a failed fetch issues no store; otherwise exactly one `StoreAll` of the reconciled batch |
| ShopScraper.Scrape | bg/sydameapteek_scraper.go:28-65 | a run issues exactly the calls of `ScrapeTrace` |
| ShopScraper.RescrapeStoresNothing | bg/apotheka_scraper.go:60-63 | scraping an already stored feed still calls `StoreAll`, with an empty batch |
| ShopScraper.FirstScrapeInsertsAll | bg/apotheka_scraper.go:55-56 | with nothing stored, every mapped row is stored as an insert |
| Apotheka.Scrape | bg/apotheka_scraper.go:28-64 | the Apotheka run is the shop-feed run for its chain and endpoint |
| Sydameapteek.Scrape | bg/sydameapteek_scraper.go:28-65 | the Südameapteek run is the shop-feed run for its chain and endpoint |
| Benu.MapToPharmacy | bg/benu_scraper.go:49-98 | writing through `dst[k]` turns that row into `MapInto` of its old value and changes no other row |
| Benu.MapIntoFields | bg/benu_scraper.go:50-69 | seven fields are always written: key, chain, county, postal code, email, "+372"+phone and timestamp. Coordinates and address fields are written only when both coordinates parse, and success holds exactly then. The surrogate id is never touched |
| Benu.BenuStep | bg/benu_scraper.go:115-144 | its own contract is only a shape fact: one visit keeps the number of stored rows. What it emits is pinned down by `DecideRules` and `DistinctRunIsFilter` |
| Benu.BenuRun | bg/benu_scraper.go:115-145 | its own contract is only a shape fact: the loop keeps the number of stored rows. Its content is stated by `RunKeepsKeys` and `DistinctRunIsFilter` |
| Benu.CreateEntities | bg/benu_scraper.go:100-148 | a decode failure, then a failed query, return their errors; otherwise the batch is the run over some visiting order of the decoded entries |
| Benu.VisitEntry | bg/benu_scraper.go:116-144 | one loop body changes the stored rows and the batch as one step of the run |
| Benu.RunKeepsKeys | bg/benu_scraper.go:131-136 | in-place updates never change a stored natural key, and a row whose key no entry carries stays as stored |
| Benu.FirstMatchByKeys | bg/benu_scraper.go:123-128 | the search only looks at natural keys |
| Benu.DistinctRunIsFilter | bg/benu_scraper.go:115-145 | with distinct entry ids the batch is each entry's decision against the rows as queried, in visiting order |
| Benu.OrderIrrelevant | bg/benu_scraper.go:101-115 | with distinct ids, any two visiting orders of the map give the same batch as a multiset |
| Benu.DecideRules | bg/benu_scraper.go:116-144 | no stored key gives a new row with id 0; a strictly older stored row is rewritten and keeps its id; otherwise nothing. Unparseable coordinates give nothing. The timestamp is the parsed `modTime` or the clock |
| BenuAddress.MatchAddress | bg/benu_scraper.go:72-73 | the address pattern matches exactly when the address has a dash and no newline |
| BenuAddress.ApplyAddress | bg/benu_scraper.go:78-95 | only name, address and city can change |
| BenuAddress.ThreeSeparators | bg/benu_scraper.go:79-82 | with three dashes: city = segment 1, name = segment 3, address = segment 4 + ", " + segment 2 |
| BenuAddress.TwoSeparators | bg/benu_scraper.go:83-86 | with two dashes: city = segment 1, name = segment 2, address = segment 3 |
| BenuAddress.OneSeparator | bg/benu_scraper.go:87-94 | with one dash: name = segment 1; address and city come from segment 2 only when it has exactly two comma parts |
| BenuAddress.StreetAndTown | bg/benu_scraper.go:89-93 | "street,town" without further commas splits into exactly those two parts |
| BenuAddress.UnmatchedAddress | bg/benu_scraper.go:72-78 | an address without a dash, or with a newline, leaves the record as it was |
| Euroapteek.MatchAt | bg/euroapteek_scraper.go:90-91 | a match starting on a digit or space always exists, and its group is a non-empty run of digits and spaces |
| Euroapteek.PhoneGroupFrom | bg/euroapteek_scraper.go:90-91 | the phone pattern matches exactly when the text has a digit or a space |
| Euroapteek.NormalisePhone | bg/euroapteek_scraper.go:89-96 | the phone is "" exactly when the pattern finds nothing, else "+372" followed by digits only |
| Euroapteek.PrefixedPhone | bg/euroapteek_scraper.go:90-93 | "+372", spaces, then digits grouped by spaces gives "+372" and the digits |
| Euroapteek.MapToPharmacies | bg/euroapteek_scraper.go:50-103 | the mapping loop returns the insert-only filter of the entries |
| Euroapteek.InsertOnly | bg/euroapteek_scraper.go:52-99 | every output row is new: id 0, epoch timestamp, chain Euroapteek, keyed by the checksum of its name, a key absent from the stored rows, address, city and county copied from the entry, no email, the coordinates as parsed, the postal code looked up on "address, city, county", the normalised phone. Outputs keep input order. An entry is output exactly when its key is unstored and both coordinates parse |
| Euroapteek.SameNameTwice | bg/euroapteek_scraper.go:51-60 | the stored list is only read, so two same-named new entries are both inserted |
| Independent.IndepRun | bg/independent_scraper.go:49-60 | at most one lookup per entry, each by natural key and chain |
| Independent.IndependentTrace | bg/independent_scraper.go:28-68 | an undecodable file issues no call; a store is issued only last, only for a non-empty batch, only when no lookup failed |
| Independent.Scrape | bg/independent_scraper.go:28-68 | a run issues exactly the calls of `IndependentTrace` |
| Independent.FailedStays | bg/independent_scraper.go:53-56 | after a failed lookup the remaining entries change nothing |
| Independent.RunWithoutFailure | bg/independent_scraper.go:50-60 | the run fails exactly when some lookup fails. Without failure every entry is looked up in order under the checksum of its name, and the queue is exactly the entries the lookup finds absent, in order |
| Independent.FailureStoresNothing | bg/independent_scraper.go:53-56 | any failing lookup means nothing is stored |
| Independent.QueueIsInsertOnly | bg/independent_scraper.go:57-67 | queued entries carry the checksum key and were found absent; the store happens exactly when the queue is non-empty |
| Db.ExtractPagerQueryParameters | db/db.go:76-95 | `uk` and `k` are the raw first values; `l` is an int64, 50 when missing or unparseable; `desc` holds exactly for the six true spellings |
| Db.PagerLength | db/db.go:86-88 | any int64 numeral for `l` is taken as written, negative ones included |
| Db.PageArgs | db/db.go:100-169 | the base arguments stay in front. Without both cursor parts only the length is appended, at `$(len+1)`. With both, key, unique key and length are appended at `$c`, `$c+1` and `$c+2` |
| Db.FirstBeyond | db/db.go:136-168 | the row the outer `ORDER BY` puts first, when there is one, is a row of the inner query strictly past the cursor |
| Db.FirstBeyondLeast | db/db.go:136-168 | that row precedes every other row past the cursor; none is found only when no row is past the cursor |
| Db.PageOf | db/db.go:136-168 | its own contract is only a shape fact: a page has at most `length` rows (the outer `LIMIT`). What it selects is stated by `PageShape`, `PageComplete` and `PageSplit` |
| Db.PageShape | db/db.go:136-168 | every row of a page is selected by the inner query and strictly past the cursor, and the page is strictly ordered ascending or descending |
| Db.PageComplete | db/db.go:143-160 | with distinct keys the page skips nothing: a row past the cursor missing from the page comes after the page's last row, and the page is full |
| Db.PageFullAt | db/db.go:143-160 | with distinct keys, a row past the cursor missing from the page means the page is full |
| Db.PageBeforeAt | db/db.go:143-160 | with distinct keys, a row past the cursor missing from the page comes after the page's last row |
| Db.Page | db/db.go:100-181 | for rows with distinct paging keys: a database failure is returned; a negative length is rejected; otherwise the result is the keyset page, the cursor used only when both parts are given, and an empty page is no error |
| Db.PageSplit | db/db.go:143-160 | paging on with the exact key of the last row of a full page continues where it stopped: the two pages together are the page of the summed length, so nothing is skipped or repeated |
| Db.QueryOne | db/db.go:42-53 | no rows is `(nil, nil)`: success with nothing; an error only from the database |
| Db.QueryAll | db/db.go:55-66 | all selected rows, an error only from the database |
| Db.NoRowsIsNotAnError | db/db.go:174-175 | with no rows `Query`, `QueryAll` and `Page` all succeed empty |
| PharmacyRepository.ApplyUpdate | db/pharmacy_repository.go:145-166 | an update overwrites every column of the row with that id and nothing else; an unknown id changes nothing |
| PharmacyRepository.InsertAll | db/pharmacy_repository.go:172-178 | the bulk insert adds one new id per batch record, from the sequence value on |
| PharmacyRepository.Partition | db/pharmacy_repository.go:144-170 | every record goes to exactly one of the updates (id ≠ 0) and the inserts (id = 0), as a multiset |
| PharmacyRepository.UpdatesPrefix | db/pharmacy_repository.go:145-166 | the updates issued before position `i` are a prefix of all updates |
| PharmacyRepository.ByChain | db/pharmacy_repository.go:55-73 | exactly the stored rows whose chain equals the argument |
| PharmacyRepository.InBounds | db/pharmacy_repository.go:28-53 | exactly the stored rows with sw ≤ coordinates ≤ ne, all four bounds inclusive |
| PharmacyRepository.BoundsMonotone | db/pharmacy_repository.go:34-41 | a larger box finds at least the same rows; a one-point box finds the rows standing on it |
| PharmacyRepository.InsertedAreFound | db/pharmacy_repository.go:172-178 | inserted rows are found by their chain under their new ids, old rows stay, the table stays keyed |
| PharmacyRepository.UpdatesKeepKeys | db/pharmacy_repository.go:147-163 | updates keep the table keyed, and the last update of an id wins |
| PharmacyRepository.PharmacyTable.FindPharmaciesByChain | db/pharmacy_repository.go:55-73 | the query binds the chain and selects each row of the chain once |
| PharmacyRepository.PharmacyTable.FindPharmaciesInCoordinateBounds | db/pharmacy_repository.go:28-53 | the query binds sw.lat, sw.lng, ne.lat, ne.lng in that order and selects each row in the box once |
| PharmacyRepository.PharmacyTable.StoreAll | db/pharmacy_repository.go:141-181 | on success: all updates in order, then one bulk insert of the id-0 records. On failure: the updates before the failing one stay applied, nothing later runs, and an error is only returned when an update or a non-empty insert failed. An empty input returns nil and changes nothing |
| PharmacyRepository.EmptyBatch | db/pharmacy_repository.go:172-180 | an empty batch has no updates and no inserts, and applying it leaves the rows |
| ReviewRepository.UpdateReview | db/pharmacy_review_repository.go:69-84 | the update overwrites the listed columns of that id, never the modification code; other rows unchanged |
| ReviewRepository.ReviewByID | db/pharmacy_review_repository.go:45-66 | a review is found exactly when both the id and the pharmacy id match |
| ReviewRepository.ForPharmacy | db/pharmacy_review_repository.go:24-43 | exactly the reviews of that pharmacy |
| ReviewRepository.KeysDistinct | db/pharmacy_review_repository.go:36-41 | `(updated_at, id)` keys of distinct rows differ, because `id` is the primary key |
| ReviewRepository.StoreThenFind | db/pharmacy_review_repository.go:86-99 | an inserted review is found under its pharmacy and new id with its code; an update keeps the stored code |
| ReviewRepository.ReviewTable.Store | db/pharmacy_review_repository.go:68-101 | id ≠ 0 updates and leaves the argument; id 0 inserts under the next id and returns the new row; a failure changes neither table nor argument |
| ReviewRepository.ReviewTable.FindReviewByID | db/pharmacy_review_repository.go:45-66 | the query binds both ids and selects at most that one review |
| ReviewRepository.ReviewTable.FindReviewForPharmacy | db/pharmacy_review_repository.go:24-43 | the query binds the pharmacy id and selects each of its reviews once, with distinct paging keys |
| ReviewRepository.ReviewTable.Delete | api/v1/pharmacies/reviews/review.go:290-293 | the row with that id is removed and returned, or nothing when there is none; a failure changes nothing |
| Reviews.AlphabetIsAlnum | api/v1/pharmacies/reviews/review.go:45 | the code alphabet is 62 distinct ASCII letters and digits |
| Reviews.Patched | api/v1/pharmacies/reviews/review.go:211-216 | a patch replaces exactly the five client fields and the update time |
| Reviews.BearerToken | api/v1/pharmacies/reviews/review.go:274-279 | a header without a space yields the empty token |
| Reviews.BearerOfScheme | api/v1/pharmacies/reviews/review.go:274-279 | "Bearer " + token yields the token |
| Reviews.BearerAfterTwoSpaces | api/v1/pharmacies/reviews/review.go:275-278 | two spaces after the scheme yield the empty token |
| Reviews.Cursor | api/v1/pharmacies/reviews/review.go:83-92 | the cursor is used exactly when both parsed values are non-zero, and is (k, uk) |
| Reviews.SentCursor | types/time.go:26-28 | with the time read in microseconds, as the database stores it: the key the next request pages past keeps the id and drops the sub-millisecond part of the time: it is the row's own key exactly when the time is a whole millisecond |
| Reviews.AscendingPageRepeats | api/v1/pharmacies/reviews/review.go:83-92 | ascending, a row stored 1.5 ms into the epoch comes back on the page after its own |
| Reviews.DescendingPageSkips | api/v1/pharmacies/reviews/review.go:83-92 | descending, with rows (1.7 ms, 2) and (1.3 ms, 1): the first page of length 1 is the first row, and the page after the cursor the client sends back is empty, so the second row is on neither page |
| Reviews.MillisecondPagesContinue | api/v1/pharmacies/reviews/review.go:83-92 | with times (read in microseconds) that are all whole milliseconds, the page after the cursor the client sends back continues the page exactly |
| Reviews.CursorParts | api/v1/pharmacies/reviews/review.go:84-88 | a malformed or missing part means the first page; a unique key past int64 is clamped, not dropped |
| Reviews.ReviewController.GenerateModificationCode | api/v1/pharmacies/reviews/review.go:44-57 | 16 characters, each an ASCII letter or digit |
| Reviews.ReviewController.GetPharmacyReviews | api/v1/pharmacies/reviews/review.go:75-113 | a malformed id is 400 "Malformed ID path variable"; a negative length is 500. A 200 returns the keyset page of that pharmacy's reviews for the parsed cursor, length and order |
| Reviews.ReviewController.PostPharmacyReview | api/v1/pharmacies/reviews/review.go:129-161 | a malformed id is 400. A 201 stores the review under the next id with the hash of a fresh 16-character code, and returns the plain code. Anything but 201 leaves the table unchanged |
| Reviews.ReviewController.ParseIds | api/v1/pharmacies/reviews/review.go:182-193 | the first malformed path id gives its 400 message |
| Reviews.ReviewController.PatchPharmacyReview | api/v1/pharmacies/reviews/review.go:178-233 | a malformed id is 400; a missing review or one of another pharmacy is 404; a wrong code is 403; the right code on an existing review is 200 (or 500 on a database failure). Every non-200 answer leaves the table unchanged. A 200 stores the patched review and returns it |
| Reviews.ReviewController.DeletePharmacyReview | api/v1/pharmacies/reviews/review.go:250-305 | as Patch, with the code taken from the bearer token: a wrong token is 403, the right token on an existing review is 200 or 500; a 200 removes the review and returns it |
| Reviews.ToResults | api/v1/pharmacies/reviews/review.go:98-110 | the result loop converts the page row by row |
| Reviews.Results | api/v1/pharmacies/reviews/review.go:98-110 | one result per row |
| TimeCodec.MarshalJSON | types/time.go:26-28 | a decimal numeral, with a leading '-' exactly for instants before the epoch |
| TimeCodec.UnmarshalJSON | types/time.go:30-38 | the error is `ParseInt`'s; an error leaves the receiver; otherwise the receiver is the parsed int64 |
| TimeCodec.RoundTrip | types/time.go:26-38 | decoding what was encoded gives the same instant, whatever the receiver held |
| TimeCodec.CanonicalRoundTrip | types/time.go:26-38 | a canonical numeral decodes and re-encodes to itself |
| TimeCodec.Scan | types/time.go:17-24 | only a time value is accepted; anything else is an error naming its type and leaves the receiver |
| TimeCodec.Value | types/time.go:13-15 | the wrapped time, unchanged |
| TimeCodec.ScanValue | types/time.go:13-24 | a stored value scans back to the same time |
| Server.Extension | server.go:17 | the pattern's group 2 is a '.' and one or more letters and digits ending the path; without dot-all it never matches text holding a newline |
| Server.ExtensionAt | server.go:17 | a dot followed by letters and digits to the end, after a slash, is the group found |
| Server.Resolve | server.go:19-26 | the resolved path is "frontend/build" followed by the request path, plus ".html" or "index.html" when the path has no extension |
| Server.NewlinePathPanics | server.go:20-29 | "/a\nb" resolves to "frontend/build/a\nb.html", which the pattern cannot match, so the handler panics |
| Server.StaticServer | server.go:15-48 | with dot-all matching: 500 exactly when the file is missing, else 200 with the file's content |
| Server.ResolvedHasExtension | server.go:20-30 | with dot-all matching the resolved path always matches; the extension is the request's own or ".html" |
| Server.NoNewlineNoPanic | server.go:20-30 | for paths without a newline the handler as written answers as the corrected one |
| Server.NoNewlineResolved | server.go:21-25 | resolving adds no newline |
| Numbers.ScanDigits | db/db.go:86 | the digit scan succeeds exactly for all-digit text within uint64, with its decimal value |
| Numbers.ParseInt | db/db.go:86 | the value is always an int64, 0 with a syntax error; empty text is a syntax error |
| Numbers.ParseIntMeaning | api/v1/pharmacies/reviews/review.go:77 | a successful parse is an optional sign and a non-empty digit run of that signed value |
| Numbers.ParseIntDigits | api/v1/pharmacies/reviews/review.go:77 | every signed numeral in the int64 range parses to its value |
| Numbers.ParseIntClamps | api/v1/pharmacies/reviews/review.go:84-85 | a numeral past the int64 range is a range error carrying the nearest bound |
| Numbers.FormatNat | types/time.go:27 | a digit string of exactly that value, without leading zeros |
| Numbers.FormatInt | types/time.go:27 | a leading '-' exactly for negative numbers |
| Numbers.ParseFormatInt | types/time.go:26-38 | formatting an int64 then parsing it gives it back without error |
| Numbers.ParseBool | db/db.go:90-92 | true for the six true spellings, false for the six false ones, an error otherwise |
| Strings.Split | bg/shop_api.go:94 | at least one piece, none holding the separator; one piece exactly when there is no separator |
| Strings.JoinSplit | bg/shop_api.go:94 | joining the pieces gives the text back |
| Strings.SplitFirst | bg/shop_api.go:94-96 | the first piece is the text before the first separator |
| Strings.TrimLeft | bg/benu_scraper.go:72 | only leading cut-set characters are dropped |
| Strings.TrimRight | bg/benu_scraper.go:72 | only trailing cut-set characters are dropped |
| Strings.TrimKeepsInner | bg/shop_api.go:96 | text without cut-set characters at its ends is unchanged |
| Strings.TrimPadding | api/v1/pharmacies/reviews/review.go:278 | trimming padding put around a token gives the token |
| Strings.RemoveAll | bg/euroapteek_scraper.go:93 | the result holds no removed character and only characters of the input |
| Strings.RemoveAllAbsent | bg/euroapteek_scraper.go:93 | removing an absent character changes nothing |
| Strings.RemoveAllConcat | bg/euroapteek_scraper.go:93 | removal distributes over concatenation |
| Seqs.FilterMap | bg/euroapteek_scraper.go:51-100 | the append loop returns at most one record per input |
| Seqs.FilterMapKeeps | bg/euroapteek_scraper.go:51-100 | the output is exactly the present images, in input order |
| Seqs.FilterMapConcat | bg/independent_scraper.go:50-60 | the loop over a concatenation is the concatenation of the loops |
| Seqs.FilterMapPermutation | bg/benu_scraper.go:115 | another visiting order gives the same records as a multiset |

## Left out

- **HTTP and JSON plumbing.** Router glue, body decoding and validation, and JSON decoding of feeds and files are left out. The decoded values, or the decode failure, are inputs. `fetchShops` and the Benu and Euroapteek HTML and script extraction are left out too; their results are inputs.
- **Collaborator internals.** These are opaque functions in `Collaborators.Env`:
  - `time.Parse` with the "2006-01-02 15:04:05" layout, as Unix milliseconds or nothing;
  - `strconv.ParseFloat(s, 32)` narrowed to float32 (coordinates are reals);
  - the Omniva postal-code lookup;
  - CRC-64 (ISO) of a name.
- **Hashing.** SHA-256 with hex encoding is an opaque function on the review controller.
- **Randomness.** `crypto/rand` is a nondeterministic choice from the alphabet.
- **The clock.** `time.Now` is one reading per Benu run, and per handler call.
- Benu.CreateEntities: reads the clock once per run, while the source reads it again for every entry whose timestamp does not parse.
- Reviews.ReviewController.PostPharmacyReview: the creation and update times are one clock reading, while the source reads the clock twice.
- **Database failures.** A failing statement is a nondeterministic choice. The error texts "update failed", "insert failed" and "statement failed" stand in for the driver's messages.
- **Row order.** PostgreSQL returns rows in an unspecified order. `Enumerate` picks an arbitrary order of the selected set.
- **Inserted ids.** A bulk insert is assumed to hand out consecutive ids in batch order.
- **Sub-millisecond precision.** `types.Time` is held as Unix milliseconds, so `Value`/`Scan` do not model sub-millisecond precision or time zones. The rest of the model therefore behaves as the corrected paging of the second finding below. The as-written paging, with times stored in microseconds, is exhibited separately.
- Db.Page: requires the rows to have pairwise distinct `(key, uniqueKey)` values. With ties, `ORDER BY key, uk LIMIT n` returns every tied row, while `PageOf` keeps one row per key. Both finders page on a key that ends in the primary key, so ties do not arise in the program.
- **Named parameters.** sqlx binding by name is not modelled. The review entity's db tags differ from the SQL column names, so binding as written may fail at run time.
- **Lookups missing from the interfaces.** `FindPharmacyByChainAndPharmacyID` (bg/independent_scraper.go:52) and `Delete` (review.go:290) are not in the repository interfaces shown.
  - The lookup is a parameter: an answer per natural key and chain. No rows are written during that loop.
  - The delete is modelled as a `DELETE ... RETURNING` query on the review table.
- **Other code.** The rating and pharmacy endpoints, float averages in SQL, reCAPTCHA, cron scheduling, dependency injection, logging, migrations, the frontend and the Content-Type lookup (`mime.TypeByExtension`) are not part of this model. The static handler's reply carries the extension instead.
- **Unreachable `Split` branch.** The `else` branch at bg/shop_api.go:97-98 cannot be taken, because `strings.Split` always returns at least one piece.
- **Negative page length.** A negative `l` passes through `ExtractPagerQueryParameters` unchanged. The model then has the database reject the `LIMIT`, which the list endpoint reports as 500.
- **Empty request path.** `Server.Resolve` and `Server.StaticServer` require a non-empty request path. The HTTP server always supplies one, and the source indexes its last character.

## Findings

| source | as written | input that shows it | evidently intended | confidence | as-written member | corrected member |
|---|---|---|---|---|---|---|
| server.go:17-29 | `.` in `^.*/(.*?(\.[A-Za-z0-9]+))$` does not match a newline. A request path holding one resolves to a file name the pattern cannot match, and `FindStringSubmatch(path)[2]` indexes a nil slice and panics | request path "/a%0Ab", decoded to "/a\nb", resolves to "frontend/build/a\nb.html" | the extension of the resolved path is always found (the file is then missing and the answer is 500) | not executed | Server.NewlinePathPanics | Server.ResolvedHasExtension |
| api/v1/pharmacies/reviews/review.go:83-92 | the review cursor `k` is the last row's `updated_at` as Unix milliseconds (types/time.go:26-28), bound back with `time.UnixMilli(k)`, while `updated_at` is written from `time.Now().UTC()` (review.go:150, 216) with sub-millisecond precision. The cursor then lies before the last row's real key | ascending: one row at 1.5 ms with id 1 is on the first page and again on the next; descending: rows at (1.7 ms, 2) and (1.3 ms, 1), page length 1, the second row is never returned | consecutive pages neither skip nor repeat a row, as when `updated_at` is stored truncated to milliseconds | not executed; assumes the column keeps PostgreSQL's default microsecond precision (the schema is not part of this model) | Reviews.AscendingPageRepeats | Reviews.MillisecondPagesContinue |
