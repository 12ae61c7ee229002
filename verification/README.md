# Community enrichment pipeline — a Dafny model of its core

The system builds a directory of communities in two phases.

1. **Enrichment.** A list of community URLs is read from a CSV file and cleaned. Each URL the local
   SQLite store does not hold yet is sent to an enrichment agent. The agent returns a structured
   `CommunityInfo` payload, which is serialised to JSON and saved under the URL.
2. **Migration.** Every stored row is parsed and transformed into a destination document. The
   documents are inserted into the destination collection in batches, and the run reports how many
   were loaded and how many failed.

This project models those two phases as pure functions over immutable data:

| module | file | models |
|---|---|---|
| `Values` | `values.dfy` | the shapes of a parsed JSON value, Python truthiness, `dict.get` with and without a default |
| `Ascii` | `ascii.dfy` | the ASCII part of `strip`, `lstrip`, `rstrip`, `rstrip(c)`, `upper`, `lower`, substring search and `split(c)[0]` |
| `Community` | `community.dfy` | the agent's `CommunityInfo` payload and the JSON object it serialises to |
| `Transform` | `transform.dfy` | `transform_community_data`: language collapsing, the virtual flag, pricing canonicalisation, defaults, pipeline-managed fields |
| `RecordStore` | `store.dfy` | the `communities` table with its UNIQUE `url`, and `init_database`, `url_exists`, `save_community_data`, `get_community_data`, `get_all_urls` |
| `UrlList` | `urls.dfy` | `read_urls_from_csv`: which rows give a URL, and how a first cell is cleaned |
| `Orchestrator` | `orchestrator.dfy` | `process_communities`: the skip / enrich / save loop and its counters |
| `Loader` | `loader.dfy` | `load_sqlite_to_mongodb`: the batching loop, its error handling and its counters |
| `Pipeline` | `pipeline.dfy` | the two phases run one after the other on a small example |

Everything the core cannot compute itself becomes a function-typed parameter (an oracle):

- the enrichment agent, as `(call number, url) -> Option<CommunityInfo>`;
- the payload serialiser;
- `json.loads`;
- the destination's `insert_many`, as `(attempt number, batch) -> Inserted | BulkError | OtherError`;
- the clocks.

A run is a left fold of one loop iteration over its input. Each loop state also records, for the
proofs, the calls it made: the URLs sent to the agent and the batches sent to the destination.

## Model

| member | source | states |
|---|---|---|
| `Values.Get` | enricher/load_to_mongodb.py:79-82 | `get(key, default)` returns the stored value whenever the key is present, even a null; the default is used only for a missing key |
| `Values.GetOrNull` | enricher/load_to_mongodb.py:80 | `get(key)` is the stored value whenever the key is present, even null, and null for a missing key; so it is null exactly when the key is missing or holds null |
| `Ascii.Upper` | enricher/load_to_mongodb.py:63 | `upper()` keeps the length and maps each lower-case ASCII letter to its capital, leaving every other character unchanged |
| `Ascii.Lower` | enricher/load_to_mongodb.py:66 | `lower()` keeps the length and maps each capital ASCII letter to its lower-case letter, leaving every other character unchanged |
| `Ascii.Strip` | enricher/process_communities.py:29 | `strip()` keeps the infix that starts after the leading whitespace, with only whitespace before and after it, and that infix has no whitespace at either end |
| `Ascii.StripIsInfix` | enricher/process_communities.py:31 | what `strip()` keeps is a contiguous piece of its input, starting where the leading whitespace ends |
| `Ascii.TrimRightChar` | enricher/process_communities.py:31 | `rstrip(",")` returns a prefix whose dropped tail is all commas and which does not end in a comma |
| `Ascii.BeforeFirst` | enricher/process_communities.py:34 | `split(",")[0]` is a comma-free prefix, cut at the first comma when there is one, and it is shorter than the input exactly when the input contains a comma |
| `Ascii.LowerOfUpper` | enricher/load_to_mongodb.py:63-66 | lower-casing an upper-cased text equals lower-casing the original, so the "free" test on the upper-cased value is a case-insensitive test on the stored value |
| `Community.ToJson` | enricher/openai_enricher.py:21-35 | the serialised payload is an object holding exactly the fourteen model fields as keys |
| `Community.ToJsonFields` | enricher/openai_enricher.py:22-34 | the values stored under `name`, `website`, `country`, `city`, `language` and `pricing_model`, with a missing optional value as an explicit null |
| `Transform.CollapseLanguage` | enricher/load_to_mongodb.py:49-55 | a list becomes its first element, or null when empty; any other falsy value becomes null; any other truthy value is kept |
| `Transform.NormalizePricing` | enricher/load_to_mongodb.py:60-71 | fails exactly on a truthy value that is not a string; gives no pricing model exactly on a falsy value; a pricing model is only ever derived from a non-empty string |
| `Transform.FocusAreasOrEmpty` | enricher/load_to_mongodb.py:83 | `x or ""` keeps every truthy `x` and gives `""` for every falsy `x` |
| `Transform.TransformRecord` | enricher/load_to_mongodb.py:38-105 | fails exactly when the payload is not an object or its pricing model is truthy and not a string; on success the reserved fields are neutral, the data source is the URL, both dates come from the clock's date and `last_verified_at` from its timestamp, `focus_areas` is never null, the pricing model is the canonicalisation of the stored `pricing_model`, and description, country, city, contact email and member count are copied with a missing key read as null |
| `Transform.VirtualIffNoLocation` | enricher/load_to_mongodb.py:57-58 | a document is virtual exactly when both country and city are missing or null; any present value, even an empty string, makes it non-virtual |
| `Transform.LanguageCollapsed` | enricher/load_to_mongodb.py:49-55 | the document's language in each of the four cases: a non-empty list, an empty list, a falsy non-list, a truthy non-list |
| `Transform.PricingRules` | enricher/load_to_mongodb.py:62-71 | the rules stated on the stored text: the empty string gives none; the canonical names in any case are kept; any other text mentioning "free" in any case is FREE; the rest is PAID |
| `Transform.PricingIdempotent` | enricher/load_to_mongodb.py:64-65 | a canonical pricing name is a fixed point of canonicalisation |
| `Transform.DefaultsOnlyForMissingKeys` | enricher/load_to_mongodb.py:79-90 | name, website, tags, social links and community info take their defaults only for missing keys; focus areas fall back to "" for any falsy value |
| `Transform.TransformDeterministic` | enricher/load_to_mongodb.py:73-101 | two clocks give the same outcome, and documents that differ only in `created_at`, `updated_at` and `last_verified_at` |
| `Transform.EnrichedPayloadTransforms` | enricher/load_to_mongodb.py:150-157 | every payload the agent can produce transforms without error, keeps the agent's name and website, and takes the URL as data source |
| `Transform.EnrichedPayloadVirtual` | enricher/load_to_mongodb.py:57-58 | an agent payload gives a virtual document exactly when the agent found neither a country nor a city |
| `Transform.EnrichedPayloadLanguage` | enricher/load_to_mongodb.py:49-55 | an agent payload keeps only the first detected language, and null when none was detected |
| `Transform.EnrichedPayloadPricing` | enricher/load_to_mongodb.py:60-71 | an agent payload gets a pricing model unless the agent gave none or the empty string |
| `Transform.FreeExample` | enricher/load_to_mongodb.py:63-65 | "free" upper-cases to a canonical name and becomes FREE |
| `Transform.FreemiumExample` | enricher/load_to_mongodb.py:63-65 | "Freemium" upper-cases to a canonical name and becomes FREEMIUM |
| `Transform.FreemiumPlanExample` | enricher/load_to_mongodb.py:66-67 | "Freemium Plan" is not a canonical name once upper-cased, but mentions "free", so it becomes FREE |
| `Transform.SubscriptionExample` | enricher/load_to_mongodb.py:68-69 | "Subscription" is not canonical and does not mention "free", so it becomes PAID |
| `RecordStore.InitDatabase` | enricher/database.py:23-33 | `CREATE TABLE IF NOT EXISTS` gives a missing table as an empty one, which meets the UNIQUE constraint, and leaves an existing table as it is |
| `RecordStore.InitIdempotent` | enricher/database.py:23-40 | initialising twice is the same as once, and no stored url is lost |
| `RecordStore.Lookup` | enricher/database.py:122-123 | `SELECT ... WHERE url = ?` finds no row exactly when the url is not stored, and otherwise a stored row with that url |
| `RecordStore.CountUrl` | enricher/database.py:74-75 | `COUNT(*)` for a url is zero exactly when no row has that url |
| `RecordStore.UniqueCountAtMostOne` | enricher/database.py:27 | under the UNIQUE constraint a url matches at most one row |
| `RecordStore.UrlExists` | enricher/database.py:60-78 | true exactly when some row has the url |
| `RecordStore.GetCommunityData` | enricher/database.py:108-126 | null exactly when the url does not exist; otherwise the stored text of a row with that url |
| `RecordStore.SaveCommunityData` | enricher/database.py:96-102 | INSERT OR REPLACE keeps the UNIQUE constraint, adds the url to the stored keys and nothing else, makes the url read back as the new row with both timestamps at the statement's time, and leaves every other url's row as it was |
| `RecordStore.SaveThenGet` | enricher/database.py:81-126 | after a save the url exists and reads back exactly the text saved |
| `RecordStore.SaveNewAppends` | enricher/database.py:96-102 | saving a url that is not stored appends one row and moves no other row |
| `RecordStore.GetAllUrls` | enricher/database.py:129-146 | one url per row; a url is listed exactly when it is stored; under the UNIQUE constraint no url is listed twice |
| `RecordStore.UniqueKeysCount` | enricher/database.py:27 | under the UNIQUE constraint the number of distinct urls is the number of rows |
| `UrlList.CleanCell` | enricher/process_communities.py:31-34 | a cleaned cell holds no comma and does not start with whitespace; a cell with no comma once stripped cleans to the stripped cell |
| `UrlList.RowUrls` | enricher/process_communities.py:29-36 | a row gives at most one URL, and gives one exactly when it has a first cell that is not blank and cleans to a non-empty text; that URL is the cleaned first cell |
| `UrlList.ReadUrls` | enricher/process_communities.py:14-38 | at most one URL per row; every URL is non-empty, comma-free and does not start with whitespace |
| `UrlList.ReadUrlsAppend` | enricher/process_communities.py:28-36 | reading keeps row order: the URLs of two files one after the other are the URLs of each, one after the other |
| `UrlList.ReadUrlsFromFirstCells` | enricher/process_communities.py:29-36 | every URL is exactly what one of the rows contributes |
| `UrlList.OnlyFirstCellMatters` | enricher/process_communities.py:29-31 | rows that share their first cell contribute the same URLs |
| `UrlList.BlankRowAddsNothing` | enricher/process_communities.py:29 | an empty row, or a row whose first cell is blank, adds no URL |
| `UrlList.CleanCellKeepsCleanUrl` | enricher/process_communities.py:31-34 | a comma-free cell with no whitespace at either end comes back unchanged |
| `UrlList.CleanCellDropsAnnotation` | enricher/process_communities.py:31-34 | with a comma in the stripped cell, the text after the first comma is dropped; the text before it is stripped when anything but commas follows it, and kept as it is when only commas follow |
| `UrlList.CleanCellIsInfix` | enricher/process_communities.py:31-34 | the cleaned URL is a contiguous piece of the cell |
| `UrlList.TrailingCommaKeepsSpace` | enricher/process_communities.py:31-34 | as written, for every non-empty comma-free URL u with no whitespace at its ends, the cell u + " ," cleans to u + " " while u cleans to u, so cleaning is not idempotent; the intended cleaning gives u |
| `UrlList.CleanCellIntended` | enricher/process_communities.py:30-34 | the corrected cleaning gives a comma-free URL with no whitespace at either end |
| `UrlList.CleanCellIntendedIsStrippedCleanCell` | enricher/process_communities.py:30-34 | the intended cleaning is the written cleaning followed by one more strip |
| `UrlList.CleanCellIntendedIdempotent` | enricher/process_communities.py:30-34 | the intended cleaning is idempotent |
| `Orchestrator.ProcessCommunities` | enricher/process_communities.py:41-101 | the total is the number of URLs read; processed, skipped and failed add up to the total; no url stored before the run is lost |
| `Orchestrator.Step` | enricher/process_communities.py:70-92 | one iteration increments exactly one of the three counters by one, leaving the other two unchanged, asks the agent at most once and only about the current URL, and loses no stored URL |
| `Orchestrator.Run` | enricher/process_communities.py:65-92 | the loop as a fold of `Step` over the URLs; characterised by `Orchestrator.RunCounts`, `Orchestrator.RunGrowsStore` and `Orchestrator.AllCachedRunIsNoOp` |
| `Orchestrator.CachedUrlSkipped` | enricher/process_communities.py:74-77 | a stored URL is only counted as skipped: the agent is not asked and the store is unchanged |
| `Orchestrator.EnrichedUrlSaved` | enricher/process_communities.py:80-87 | a new URL the agent enriches is saved, reads back as the serialised payload, is counted as processed with the other two counters unchanged, and costs one agent call |
| `Orchestrator.EnrichedUrlAppended` | enricher/process_communities.py:82-85 | that save appends one row, stamped with the statement's time, at the end of the store |
| `Orchestrator.FailedUrlLeavesStore` | enricher/process_communities.py:89-92 | a new URL whose enrichment raises leaves the store unchanged, is counted as failed, and the loop goes on |
| `Orchestrator.RunCounts` | enricher/process_communities.py:65-92 | each URL increments exactly one counter, and the agent is asked once per processed or failed URL |
| `Orchestrator.StepGrowsStore` | enricher/process_communities.py:74-92 | one iteration adds at most the current URL to the store, and only when it was not stored and its enrichment call succeeds; rows already stored are untouched and the UNIQUE constraint is kept |
| `Orchestrator.RunGrowsStore` | enricher/process_communities.py:70-92 | the store only grows: its keys become the old keys plus the URLs whose enrichment succeeded; rows stored before the run are untouched; the agent is never asked about a URL stored before the run, and only about listed URLs; the UNIQUE constraint is kept |
| `Orchestrator.RunWithoutFailuresStoresAll` | enricher/process_communities.py:70-92 | after a run without failures every listed URL is stored |
| `Orchestrator.AllCachedRunIsNoOp` | enricher/process_communities.py:74-77 | over a list whose URLs are all stored, a run asks nothing, skips every URL and changes nothing |
| `Orchestrator.SecondRunSkipsAll` | enricher/process_communities.py:70-92 | a second run over the same list after a run without failures skips every URL, asks the agent nothing and leaves the store as it is, whatever the agent would answer |
| `Loader.BulkCounts` | enricher/load_to_mongodb.py:168-172 | as written, a `BulkWriteError` leaves `processed` unchanged and adds the batch size less the write errors to `failed`; counted by the destination's inserted count, the counters grow by the batch size, of which the inserted documents are processed |
| `Loader.Prepare` | enricher/load_to_mongodb.py:153-156 | a row gives a document exactly when its JSON parses and the parsed value transforms; that document is the transform of the parsed row under the clock read for that row, so it has the row's URL as data source and neutral reserved fields |
| `Loader.Step` | enricher/load_to_mongodb.py:150-179 | one iteration sends at most one batch, the pending list with this row's document appended; afterwards the pending list is empty, is that batch, or is unchanged for a rejected row; `processed` never decreases |
| `Loader.Fold` | enricher/load_to_mongodb.py:146-179 | the loop as a fold of `Step` over the rows; characterised by `Loader.FoldWithoutErrors` and `Loader.CountsConserved` |
| `Loader.Load` | enricher/load_to_mongodb.py:139-191 | an empty store gives the early return and nothing else does; with nothing pending after the loop the run completes with the loop's own counters and sends; the final flush sends at most one more batch |
| `Loader.RejectedRowCountsOnce` | enricher/load_to_mongodb.py:174-179 | a row whose JSON does not parse or whose transform raises adds exactly one to `failed` and changes nothing else |
| `Loader.ShortBatchWaits` | enricher/load_to_mongodb.py:157-160 | a document that does not fill the batch is only appended to it |
| `Loader.BulkErrorClearsBatch` | enricher/load_to_mongodb.py:168-172 | a mid-run `BulkWriteError` sends the batch once, clears it, keeps `processed`, and adds the batch size less the write errors to `failed` |
| `Loader.OtherErrorKeepsBatch` | enricher/load_to_mongodb.py:161-179 | any other exception from a mid-run insert adds one to `failed` and keeps the whole batch pending, so the next insert sends it again |
| `Loader.FinalOtherErrorRaises` | enricher/load_to_mongodb.py:182-191 | any other exception from the final insert escapes the function, after the pending batch was sent |
| `Loader.FinalBulkErrorCompletes` | enricher/load_to_mongodb.py:189-191 | a `BulkWriteError` from the final insert completes the run after sending the pending batch; as written `processed` stays and `failed` grows by the batch size less the write errors, and counted by the inserted count the inserted documents are processed and the rest failed |
| `Loader.FinalInsertCompletes` | enricher/load_to_mongodb.py:182-188 | a final insert that succeeds adds its reported inserted ids to `processed` and completes the run with the batch sent |
| `Loader.FoldWithoutErrors` | enricher/load_to_mongodb.py:150-179 | while the destination accepts everything, the batches sent and the pending list together are the prepared documents in row order; every batch sent is full; the pending list is shorter than a batch; `processed` counts the documents sent; `failed` counts the rejected rows |
| `Loader.LoadWithoutErrors` | enricher/load_to_mongodb.py:146-191 | when no insert raises, every prepared document is inserted exactly once and in row order; mid-run batches are full; a trailing batch is non-empty and short; `processed` counts the rows that parse and transform, and `failed` the rest |
| `Loader.ShortStoreOneInsert` | enricher/load_to_mongodb.py:181-188 | a store with fewer prepared documents than the batch size is loaded in one insert after the loop, holding every prepared document |
| `Loader.CountsConserved` | enricher/load_to_mongodb.py:146-179 | counting by the inserted count, the counters and the pending list always add up to the rows seen |
| `Loader.LoadCountsEveryRow` | enricher/load_to_mongodb.py:139-191 | counting by the inserted count, `processed` plus `failed` is the number of stored rows |
| `Loader.BulkErrorMiscount` | enricher/load_to_mongodb.py:168-172 | a batch of five, four inserted and one rejected, is reported as written as 0 processed and 4 failed; counted by the inserted count it is 4 processed and 1 failed |
| `Loader.AsWrittenLosesWriteErrors` | enricher/load_to_mongodb.py:189-191 | as written, a bulk error with at least one write error leaves that many documents counted neither as processed nor as failed |
| `Pipeline.StoredRowPrepares` | enricher/load_to_mongodb.py:150-157 | a row saved from an agent payload parses and transforms, and its document's data source is the row's url |
| `Pipeline.TwoSitesEnriched` | enricher/process_communities.py:70-92 | any two distinct new sites on an empty store are both enriched and stored in list order, and counted as two processed |
| `Pipeline.TwoRowsMigrated` | enricher/load_to_mongodb.py:146-191 | two rows saved from agent payloads are loaded with batch size ten in a single insert of two documents, in store order |
| `Pipeline.TwoSitesEndToEnd` | enricher/process_communities.py:70-92 | enrichment then migration of any two distinct new sites: two rows stored, two documents loaded in one insert, and their data sources are the two URLs in list order |

## Left out

- The enrichment agent, its prompt, the page fetch and the HTTP client are not part of this model. The
  agent is a parameter that either returns a `CommunityInfo` or raises.
- Configuration loading and `validate_config` are not modelled. Neither is creating the destination
  client or closing connections.
- Logging, the progress and summary prints, the command-line entry points and `sys.exit` are left
  out: they are I/O. The summaries are returned as values instead.
- `get_connection` and the SQL connection and cursor objects are not modelled. The store is the
  table's rows, and each statement is a function on them.
- The `id INTEGER PRIMARY KEY AUTOINCREMENT` column and the `idx_url` index are not modelled. Neither
  is observable through the modelled operations.
- Row order: neither the migration's `SELECT url, enriched_data FROM communities`
  (enricher/load_to_mongodb.py:135) nor `get_all_urls`'s `SELECT url FROM communities`
  (enricher/database.py:142) has an `ORDER BY`, so SQLite promises no order. The model reads the table
  in rowid order, so a replaced row moves to the end. The "store order" and "list order" of
  `Pipeline.TwoRowsMigrated` and `Pipeline.TwoSitesEndToEnd` rest on this. `get_all_urls` may instead be
  answered from the url index, in url order, so `RecordStore.GetAllUrls` states only membership, count
  and distinctness, not order.
- Storage errors raised inside `save_community_data` are not modelled. The source catches them like
  agent errors and counts them as failed.
- `created_at` is not preserved on re-save. `INSERT OR REPLACE` deletes the old row and inserts a new
  one, so both `created_at` and `updated_at` take the statement's time. The model follows this code.
- `model_dump_json` and `json.loads` are parameters. The pipeline example assumes that parsing a
  serialised payload gives back `Community.ToJson` of it.
- `csv.reader` is not modelled: rows arrive already split into cells. Quoting and encoding are not
  modelled.
- Text is a sequence of characters. Whitespace and case mapping cover ASCII only; other characters
  are never whitespace and are left unchanged by `upper` and `lower`.
- Documents are plain values. `insert_many` adds an `_id` to each document in place, so a batch kept
  after a non-bulk error is sent again carrying the ids of the failed attempt; the insert is an
  unconstrained parameter here, so no contract depends on this.
- JSON numbers are integers only. Floating-point values are not modelled.
- The destination performs no de-duplication. Loading the same store twice inserts every document
  twice; the model inherits this and states nothing about duplicates.
- The tag vocabulary (`CommunityTags`) is only requested in the agent's prompt and never enforced, so
  `tags` is free text.
- The clock is a parameter. In the migration it is indexed by row and carries a date and a timestamp;
  in the enrichment it is indexed by call.

## Findings

| source | as written | input that shows it | evidently intended | confidence | as-written member | corrected member |
|---|---|---|---|---|---|---|
| enricher/load_to_mongodb.py:168-172 and 189-191 | on a `BulkWriteError`, `failed += len(documents) - len(writeErrors)`, so the documents that did not fail are counted as failed and the ones that did fail are not counted at all | a batch of 5 in which the destination inserts 4 and rejects 1 gives processed 0 and failed 4 | the inserted documents count as processed and the rest as failed, so that processed + failed is the number of rows | not executed | `Loader.BulkErrorMiscount` | `Loader.LoadCountsEveryRow` |
| enricher/process_communities.py:31-34 | `strip()` runs before `rstrip(",")`, and the `split` branch is taken only when a comma is still left | the cell "a ," becomes "a " with a trailing space, a different store key from "a" (the lemma with u = "a") | strip the text before the first comma in every case, so that "a ," becomes "a" and cleaning is idempotent | not executed | `UrlList.TrailingCommaKeepsSpace` | `UrlList.CleanCellIntendedIdempotent` |

`Loader.Load` takes an `Accounting` switch. `AsWritten` models the source as written, and
`ByInsertedCount` is the corrected accounting that `Loader.LoadCountsEveryRow` is proved for.
`UrlList.ReadUrls` keeps the cleaning as written. `UrlList.CleanCellIntended` is the corrected
cleaning, and `UrlList.CleanCellIntendedIsStrippedCleanCell` relates the two.
