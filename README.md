# docuRAG ingestion core in Dafny

This project models the sequential logic at the heart of a documentation
retrieval-augmented-generation service. Three parts are covered:
- **Embedder** (`embedder.dfy`):
  - markdown headings are found with the pattern `^(#{1,6})\s+(.*)`;
  - every chunk of a page gets the title of the nearest heading before it, a
    running chunk number, its source URL and its size;
  - hybrid search merges its two result lists, keeping each first occurrence
    by `(source, chunk_number)` and cutting off at `k`.
- **Crawler** (`crawler.dfy`):
  - the probe of the four well-known sitemap locations;
  - the filter that hands only successful, non-empty crawl results to the
    ingestion callback;
  - the process-wide set of crawled URLs.
- **Registry** (`app.dfy`), a class over the two in-memory maps
  `scraped_sites` and `crawl_status`:
  - adding a site;
  - the background state machine `starting → finding_urls → crawling →
    completed | error`;
  - the per-page progress callback with its throttled notifications;
  - the status query, site deletion and clearing the database.

`pystr.dfy` holds the pieces of Python's `str` the code relies on:
- `str.isspace` / `\s` whitespace;
- `strip()`;
- `find(sub, start)`, including its slice treatment of a negative start;
- the `in` test.

`wrappers.dfy` holds `Option` and `Result`.

Everything the core gets from outside is a parameter:
- the text splitter's output;
- the two similarity-search result lists;
- the HTTP responses, given as an oracle where `None` means the request raised;
- `urljoin`;
- the URLs discovery produced, or the failure it raised;
- the crawl results, or the failure the crawl raised;
- the outcome of splitting and storing one page;
- the fresh site id, the timestamp, and the presence and failures of the vector store.

Broadcasts to the web clients are appended to the registry's `outbox`.

In two places the code does less than its own comments say. The model follows the code:
- The callback's error branch (app.py:546) explains that a URL is counted as
  processed even on error so that progress continues. The early returns for
  blank content and for a split with no documents (app.py:513-520) skip that
  count, so such a page is never counted as processed.
- `chunk_and_annotate` means to find the start index of each chunk
  (embedder.py:67). It searches from the end of the previous chunk's
  occurrence, which misses overlapping chunks; see Findings.

## Model

| member | source | states |
|---|---|---|
| PyStr.RunLengthSpec | embedder.py:43 | a greedy repetition of a character class (`#`, `\s`, `.`) consumes only characters of that class and stops at the first one outside it or at the end |
| PyStr.StripEmptyIffAllSpace | app.py:513 | `strip()` leaves the empty string exactly when every character is Python whitespace |
| PyStr.StripKeepsWindow | embedder.py:46 | a non-empty `strip()` result is the slice from the first to the last non-whitespace character, with only whitespace outside it |
| PyStr.FindFrom | embedder.py:68 | the search returns the first index at or after `j` where `sub` occurs, or -1 exactly when there is none |
| PyStr.Find | embedder.py:68 | `s.find(sub, start)` is the lowest occurrence at or after the begin position (a negative start counts from the end, clamped to 0), or -1 when there is none |
| PyStr.ContainsIffOccurs | crawler.py:22 | `sub in s` holds exactly when `sub` occurs at some index of `s` |
| Embedder.MatchAt | embedder.py:43-48 | a match at `i` yields a header starting at `i` and ends strictly after `i`, within the text |
| Embedder.MatchAtSpec | embedder.py:43-48 | the pattern matches at `i` exactly when `i` starts a line and some choice of 1 to 6 `#` at `i` is followed by a whitespace character, which covers every backtracking alternative of `#{1,6}`; the header is then well formed: its level is the length of a `#` run followed by whitespace, and its title is a span ending at the line's end, after a maximal whitespace run, stripped |
| Embedder.MatchedWellFormed | embedder.py:43-48 | every header the scan yields, at a match position, is well formed as above |
| Embedder.HeaderFromIsMatched | embedder.py:43 | every header the scan yields from `i` comes from a match at a position at or after `i` |
| Embedder.HeadersFromOrdered | embedder.py:43 | headers yielded by the scan have strictly increasing start offsets |
| Embedder.HeadersWellFormed | embedder.py:43-48 | every header of the text is well formed and the list is strictly ordered by start |
| Embedder.NoHeaderWithoutSpaceOrTooDeep | embedder.py:43 | where a maximal run of `m` `#` begins, with `m` at least 7 or no whitespace after the run, no header of the text starts |
| Embedder.ScanFindsMatch | embedder.py:43 | the scan from `i`, which resumes at the end of each match, reports the match at `p` whenever no match starting between `i` and `p` runs past `p` |
| Embedder.HeadingReported | embedder.py:41-48 | conversely to the well-formedness lemmas, every line starting with 1 to 6 `#` and whitespace is reported with the header its match yields, unless an earlier match runs past its start (as the `\s+` of `"#\n# B"` takes the newline) |
| Embedder.ExtractHeaders | embedder.py:40-49 | the loop returns exactly the headers of the scan, all well formed, in strictly increasing start order |
| Embedder.NearestIndex | embedder.py:51-58 | the chosen header, if any, is an index of the header list |
| Embedder.NearestIndexSpec | embedder.py:51-58 | the chosen header has the greatest start not after the chunk start (the first such when starts tie), and there is none exactly when every header starts after the chunk |
| Embedder.NegativeStartIsUntitled | embedder.py:55-58 | a negative chunk start always gives "Untitled" |
| Embedder.AssignNearestHeader | embedder.py:51-58 | the loop returns the title of the nearest preceding header, or "Untitled" |
| Embedder.ChunkOffsetSpec | embedder.py:65-70 | a chunk's offset is its first occurrence at or after where the search resumes, `last_idx` becomes offset plus length, and a chunk not found gets -1 and "Untitled" |
| Embedder.ChunkAndAnnotate | embedder.py:60-80 | one document per split, in order: same text, chunk numbers 0..n-1, the page URL as source, the chunk length as size, and the title of the header nearest before the chunk's found offset |
| Embedder.SplitAndEmbed | embedder.py:82-84 | the same documents as chunk annotation of the page content |
| Embedder.OverlapLosesHeading | embedder.py:68-70 | for two overlapping chunks of `"# A\nxyz"`, the second occurs at 5 but gets offset -1 and "Untitled", although heading "A" precedes it |
| Embedder.ExampleHeaders | embedder.py:43-48 | the example text has the single heading "A" of level 1 at offset 0 |
| Embedder.CorrectedFindsEveryChunk | embedder.py:68-69 | when the chunks occur at increasing positions, resuming one past the previous offset finds every chunk at an occurrence of its text no later than its own position |
| Embedder.FirstOccurrencesKeys | embedder.py:94-100 | kept documents have pairwise distinct keys, none already seen, and cover every key of the input not already seen |
| Embedder.FirstOccurrencesAreFirst | embedder.py:96-100 | every kept document is the first document of the input with its key |
| Embedder.MergeStep | embedder.py:96-100 | one loop step keeps `seen` equal to the kept keys and the kept list plus the first occurrences of the rest unchanged |
| Embedder.MergedPrefix | embedder.py:101-102 | once `k` documents are kept (one when `k` < 1), the kept list is the merged result |
| Embedder.MergedKeys | embedder.py:96-103 | no two results share a key; there are `min(max(k,1), number of distinct keys)` results; empty inputs give no result |
| Embedder.MergedFirst | embedder.py:96-100 | each result is the first document with its key in keyword-then-vector order |
| Embedder.KeyIndex | embedder.py:96-98 | the first index of a key in a list, or the list's length: the document there has the key and no earlier one has it |
| Embedder.KeyIndexFound | embedder.py:96-98 | a key's first index lies inside the list exactly when some document has the key |
| Embedder.FirstOccurrencesOrder | embedder.py:96-100 | kept documents come in the order their keys first appear in the input |
| Embedder.FirstOccurrencesComplete | embedder.py:96-102 | no key is skipped: any document before the first appearance of the `m`-th kept key has its key among the first `m` kept |
| Embedder.MergedOrder | embedder.py:96-103 | the results' keys first appear in keyword-then-vector order at strictly increasing indices, and every document before the last result's first appearance has its key among the results |
| Embedder.HybridSearch | embedder.py:94-103 | the merge loop with its early break returns exactly the merged result |
| Crawler.FindSitemap | crawler.py:12-28 | candidates are requested in the fixed order, stopping at the first accepted one (200 and `<urlset` or `<sitemapindex` in the body); a raising request moves on; None exactly when no candidate is accepted, after probing all four |
| Crawler.PassingIndicesIncrease | crawler.py:74-75 | the indices of the results passed on lie within the results and increase |
| Crawler.PassingIndicesExact | crawler.py:75 | an index is passed on exactly when its result succeeded with non-empty markdown |
| Crawler.DeliveredAtPassing | crawler.py:74-77 | the callback is called once per passing result, the `j`-th call with the `j`-th passing result's URL and markdown |
| Crawler.PassingIndicesBound | crawler.py:74-77 | no more callbacks than results |
| Crawler.UrlTracker.constructor | crawler.py:10 | the tracker starts empty |
| Crawler.UrlTracker.CrawlAndProcess | crawler.py:74-80 | the callbacks are exactly those for the passing results, in order, and the tracker grows by exactly their URLs |
| Crawler.UrlTracker.GetCrawledUrls | crawler.py:82-84 | returns the tracker's current contents |
| App.Progress | app.py:529-531 | progress lies between 0 and 100 and is 100 exactly when the processed count reaches `max(1, total)` |
| App.BlankIffStripsToEmpty | app.py:513 | the blank test (all whitespace) agrees with `not content.strip()` |
| App.CallbackSpec | app.py:511-557 | blank content or zero documents change nothing and send nothing; a stored page adds one processed URL and its documents, becomes the current URL and notifies exactly when the throttle allows; a raised failure adds one processed URL, no chunks, and sends a URL error; progress is recomputed, and the phase, total and error never change |
| App.SmallTotalAlwaysNotifies | app.py:537 | with fewer than 20 URLs every processed count notifies |
| App.LastUrlNotifies | app.py:537 | processing the last URL always notifies |
| App.RunCounters | app.py:525-550 | over a run of callbacks, the processed count rises by the counted pages and the chunk count by the documents stored; the total, phase and error are untouched |
| App.BackgroundCompletes | app.py:480-571 | a run that discovers URLs and crawls ends "completed" in both records, total = URL count, counters raised by the counted pages and stored documents, at most one per crawl result, chunk total mirrored; broadcasts start with the "finding_urls" status and end with the completion message |
| App.CompletionMirrorsStores | app.py:533-563 | when the site's chunk total starts equal to the status record's count, as the registry keeps it, setting it at completion leaves it raised by exactly the stored documents, which is what copying the count after each stored page gives |
| App.ProcessedWithinTotal | app.py:506-550 | on a fresh record with at most one result per URL, the processed count never exceeds the total |
| App.BackgroundNoUrls | app.py:501-584 | an empty URL list ends "error" in both records with "No URLs found to crawl for the given site." stored; no page is crawled; counters untouched |
| App.BackgroundTerminal | app.py:480-584 | every run ends "completed" or "error"; the two records agree on which; the error message is present exactly on failure |
| App.SiteRegistry.constructor | app.py:49-53 | start-up: both maps empty, vector store present or not, registry consistent |
| App.SiteRegistry.AddSite | app.py:432-475 | without a vector store: a 500 wrapping the 503 and nothing created; otherwise the "starting" status record with zero counters and the "crawling" site record (name = name or URL, zero chunks), announced once; the registry stays consistent |
| App.SiteRegistry.ProcessCallback | app.py:511-557 | the site's status record becomes the callback's result, the chunk total is mirrored when documents were stored, the callback's broadcasts are sent, and nothing else changes |
| App.SiteRegistry.CallbackStep | app.py:559-560 | one more callback of a run moves the records and the broadcasts on by one step of the run |
| App.SiteRegistry.RunCallbacks | app.py:559-560 | the callbacks for the delivered pages leave the records and broadcasts of the whole run |
| App.SiteRegistry.RecordFailure | app.py:573-584 | both records say "error", the message is stored and broadcast, nothing else changes |
| App.SiteRegistry.MarkCompleted | app.py:562-571 | both records say "completed" and the chunk count is broadcast |
| App.SiteRegistry.CrawlPages | app.py:559-571 | the crawler's filtered pages go through the callback and the run completes; the tracker gains the delivered URLs |
| App.SiteRegistry.CrawlSiteStage | app.py:559-584 | a raising crawl records the error; otherwise the crawling stage runs |
| App.SiteRegistry.DiscoverSite | app.py:490-584 | failed or empty discovery records the error; otherwise total = URL count, phase "crawling", then the crawl stage |
| App.SiteRegistry.CrawlSiteBackground | app.py:477-598 | a known site's records and broadcasts become those of the background run; an unknown id only broadcasts the critical error; the registry stays consistent |
| App.SiteRegistry.GetSites | app.py:600-604 | returns the site records |
| App.SiteRegistry.GetCrawlStatus | app.py:606-621 | None exactly for an unknown site; otherwise the record's fields with the phase name as status |
| App.SiteRegistry.DeleteSite | app.py:623-652 | unknown id: 404 and nothing changes; a failing store delete (filtered on the seed URL): 500 and nothing changes; otherwise both records removed and the deletion announced |
| App.SiteRegistry.ClearDatabase | app.py:654-688 | a failing collection drop: 500 before anything is cleared; otherwise both maps emptied, then a failing reload gives a 500 with the old store kept, and a good one a ready store and the clearing announcement; the collection counts as dropped exactly when a store existed and its drop did not fail |

## Left out

- Persistence: `load_sites_metadata` and `save_sites_metadata` are file I/O and are treated as no-ops, including the reload at the start of `get_sites` and `get_crawl_status`.
- The metadata-file removal in `clear_database` is file I/O whose failure is caught; it does not affect the maps.
- Concurrency: the background task is one sequential run. A site deleted while its crawl is running is not modelled. The critical-error handler is modelled only for a site id unknown at the start.
- App.SiteRegistry.CrawlSiteBackground: URL discovery (`find_sitemap`, then `parse_sitemap` or browser discovery) is one `Discovery` parameter. `Crawler.FindSitemap` is modelled on its own and not composed into the run.
- `parse_sitemap` (XML parsing and recursion) and `discover_with_crawl4ai` are network and XML code; their result is the `Discovery` parameter.
- The browser crawl `arun_many` is the `CrawlRun` parameter. A crawl that raises is assumed to raise before any callback.
- Exceptions raised inside the broadcasts or inside saving are not modelled; only exceptions from discovery, the crawl, splitting, storing and the vector store are.
- Progress is computed in exact rational arithmetic, not 64-bit floating point. The 0..100 bound and the 100-exactly-when-done property hold there, but float rounding is not captured.
- App.SiteRegistry.GetSites: returns the set of site records, not the insertion-ordered list.
- App.SiteRegistry.GetCrawlStatus: the lookup defaults are not modelled, because every modelled record has all fields; an absent `error` is `None`.
- App.SiteRegistry.CrawlSiteBackground: the critical-error message writes the `KeyError`'s text as the id in single quotes, which is Python's `repr` only for ids without quotes, backslashes or unprintable characters; the ids `add_site` makes are UUID strings, which have none.
- The add-site 500 message assumes the web framework renders an HTTP exception as `"<code>: <detail>"`.
- The markdown of a crawl result is a string; a missing markdown is the empty string.
- A chunk's `crawled_at` (a clock reading) is left out, and its `url_path` (`urlparse(url).path`) is a parameter.
- The text splitter, the embedding model and both similarity searches are foreign calls; their outputs are parameters.
- Chat handling, the WebSocket and HTTP plumbing, the CLI scripts, the storage wrappers and their test are outside the ingestion core.
- The start-up's construction of the embedder and the vector store is reduced to the flag the registry is constructed with.

## Findings

| source | as written | input that shows it | evidently intended | confidence | as-written member | corrected member |
|---|---|---|---|---|---|---|
| embedder.py:68-69 | each chunk is searched for from the END of the previous chunk's found occurrence, but the splitter is configured with an overlap of 200 characters (embedder.py:31), so the next chunk begins before that end | text `"# A\nxyz"` split into `"# A\nxy"` and `"yz"`: the second chunk occurs at 5 but gets offset -1 and the title "Untitled" instead of "A" | when the chunks occur at increasing positions, every chunk is found at an occurrence of its text no later than its own position, so no chunk gets offset -1 and, with it, the forced "Untitled" | not executed | Embedder.OverlapLosesHeading | Embedder.CorrectedFindsEveryChunk |
