/**
 * The site registry of the web application: the two in-memory maps
 * `scraped_sites` and `crawl_status`, the ingestion state machine that drives
 * one site from "starting" to "completed" or "error", the per-URL progress
 * callback, and the deletion and clearing operations.
 *
 * Everything the registry does not compute itself is a parameter: the site id
 * (a fresh UUID), the timestamp, the URLs discovery produced or the failure
 * it raised, the crawl results or the failure of the crawl, the outcome of
 * chunking and storing one page, and the failures of the vector store.
 * Broadcasts to the connected clients are appended to `outbox`; saving the
 * metadata file is not modelled.
 */
module App {
  import opened Wrappers
  import opened PyStr
  import Crawler

  /** `crawl_status[id]["status"]`. */
  datatype Phase = Starting | FindingUrls | Crawling | Completed | Error {
    function Name(): string {
      match this
      case Starting => "starting"
      case FindingUrls => "finding_urls"
      case Crawling => "crawling"
      case Completed => "completed"
      case Error => "error"
    }
  }

  /** `scraped_sites[id]["status"]`. */
  datatype SiteState = SiteCrawling | SiteCompleted | SiteError {
    function Name(): string {
      match this
      case SiteCrawling => "crawling"
      case SiteCompleted => "completed"
      case SiteError => "error"
    }
  }

  /** The progress record of one site; `error` is absent until a run fails. */
  datatype CrawlStatus = CrawlStatus(
    phase: Phase,
    progress: real,
    totalUrls: nat,
    processedUrls: nat,
    currentUrl: string,
    chunksAdded: nat,
    error: Option<string>)

  /** The metadata record of one site. */
  datatype Site = Site(
    id: string,
    name: string,
    url: string,
    addedAt: string,
    status: SiteState,
    totalChunks: nat)

  /** The messages broadcast to connected clients. */
  datatype Event =
    | SiteAdded(site: Site)
    | CrawlStatusChanged(siteId: string, status: CrawlStatus)
    | CrawlProgress(siteId: string, status: CrawlStatus)
    | CrawlUrlError(siteId: string, url: string, error: string)
    | CrawlCompleted(siteId: string, totalChunks: nat)
    | CrawlError(siteId: string, error: string)
    | SiteDeleted(siteId: string)
    | DatabaseCleared

  /** An HTTP error response: status code and detail. */
  datatype HttpError = HttpError(code: int, detail: string)

  /**
   * What happens when the callback splits and stores a page: `Chunked(n)` when
   * splitting gave `n` documents and, for `n > 0`, storing them succeeded;
   * `Raised(m)` when splitting or storing raised an exception with message `m`.
   */
  datatype Outcome = Chunked(docs: nat) | Raised(message: string)

  /** The result of URL discovery: the URLs found, or the message of the exception it raised. */
  datatype Discovery = Discovered(urls: seq<string>) | DiscoveryRaised(message: string)

  /** The result of the browser crawl: its results, or the message of the exception it raised. */
  datatype CrawlRun = Crawled(results: seq<Crawler.CrawlResult>) | CrawlRaised(message: string)

  /** What `get_crawl_status` returns for a known site. */
  datatype StatusReport = StatusReport(
    progress: real,
    totalUrls: nat,
    processedUrls: nat,
    chunksAdded: nat,
    currentUrl: string,
    error: Option<string>,
    status: string)

  /** The effect of one background run on the site's two records, the broadcasts, and the pages crawled. */
  datatype RunResult = RunResult(status: CrawlStatus, site: Site, events: seq<Event>, pages: seq<Crawler.Page>)

  const NoVectorstoreDetail := "503: Vector store not initialized. Please load some data first."
  const NoUrlsMessage := "No URLs found to crawl for the given site."

  // ---------------------------------------------------------------------------
  // The per-URL callback as a function of the site's status record
  // ---------------------------------------------------------------------------

  /** Python's `max(1, n)`. */
  function Max1(n: int): (m: int)
    ensures 1 <= m && n <= m
  {
    if n < 1 then 1 else n
  }

  /**
   * `min(100.0, processed / max(1, total) * 100.0)` in exact arithmetic: never
   * negative, never above 100, and 100 exactly when every URL is processed.
   */
  function Progress(processed: nat, totalUrls: nat): (p: real)
    ensures 0.0 <= p <= 100.0
    ensures p == 100.0 <==> processed >= Max1(totalUrls)
  {
    var total := Max1(totalUrls) as real;
    var ratio := (processed as real / total) * 100.0;
    assert ratio >= 100.0 <==> processed as real >= total;
    if ratio < 100.0 then ratio else 100.0
  }

  /** The throttle: notify when `processed` is a multiple of a twentieth of the total, or is the total. */
  predicate ShouldNotify(processed: nat, totalUrls: nat) {
    var total := Max1(totalUrls);
    processed % Max1(total / 20) == 0 || processed == total
  }

  /** `not content or not content.strip()`: the content is empty or all whitespace. */
  predicate IsBlank(content: string) {
    forall i :: 0 <= i < |content| ==> IsSpace(content[i])
  }

  /** The blank test is exactly "stripping leaves nothing". */
  lemma BlankIffStripsToEmpty(content: string)
    ensures IsBlank(content) <==> Strip(content) == ""
  {
    StripEmptyIffAllSpace(content);
  }

  /** The callback counts the page as processed: it is not blank and did not give zero documents. */
  predicate Counted(content: string, outcome: Outcome) {
    !IsBlank(content) && (outcome.Raised? || outcome.docs > 0)
  }

  /** The callback stored documents for the page. */
  predicate Stored(content: string, outcome: Outcome) {
    !IsBlank(content) && outcome.Chunked? && outcome.docs > 0
  }

  /** The status record after the callback for `url` (`process_callback`). */
  function CallbackStatus(cs: CrawlStatus, url: string, content: string, outcome: Outcome): CrawlStatus {
    if IsBlank(content) then cs
    else match outcome
      case Chunked(n) =>
        if n == 0 then cs
        else
          var processed := cs.processedUrls + 1;
          cs.(processedUrls := processed, chunksAdded := cs.chunksAdded + n, currentUrl := url,
              progress := Progress(processed, cs.totalUrls))
      case Raised(_) =>
        var processed := cs.processedUrls + 1;
        cs.(processedUrls := processed, progress := Progress(processed, cs.totalUrls))
  }

  /** The broadcasts the callback for `url` sends. */
  function CallbackEvents(siteId: string, cs: CrawlStatus, url: string, content: string, outcome: Outcome): seq<Event> {
    if IsBlank(content) then []
    else match outcome
      case Chunked(n) =>
        var next := CallbackStatus(cs, url, content, outcome);
        if n > 0 && ShouldNotify(next.processedUrls, next.totalUrls) then [CrawlProgress(siteId, next)] else []
      case Raised(m) => [CrawlUrlError(siteId, url, m)]
  }

  /**
   * What one callback does to the counters: a blank page or one giving no
   * documents changes nothing and sends nothing; a stored page adds one
   * processed URL and its documents, becomes the current URL, and sends a
   * progress message exactly when the throttle allows; a page whose splitting or
   * storing raised adds one processed URL, no chunks, and sends an error message.
   * Progress is recomputed from the counters and the phase never changes.
   */
  lemma CallbackSpec(siteId: string, cs: CrawlStatus, url: string, content: string, outcome: Outcome)
    ensures var next := CallbackStatus(cs, url, content, outcome);
            var events := CallbackEvents(siteId, cs, url, content, outcome);
            && next.phase == cs.phase && next.totalUrls == cs.totalUrls && next.error == cs.error
            && (!Counted(content, outcome) ==> next == cs && events == [])
            && (Stored(content, outcome) ==>
                  && next.processedUrls == cs.processedUrls + 1
                  && next.chunksAdded == cs.chunksAdded + outcome.docs
                  && next.currentUrl == url
                  && next.progress == Progress(next.processedUrls, cs.totalUrls)
                  && (events != [] <==> ShouldNotify(next.processedUrls, cs.totalUrls))
                  && (events != [] ==> events == [CrawlProgress(siteId, next)]))
            && (!IsBlank(content) && outcome.Raised? ==>
                  && next.processedUrls == cs.processedUrls + 1
                  && next.chunksAdded == cs.chunksAdded
                  && next.currentUrl == cs.currentUrl
                  && next.progress == Progress(next.processedUrls, cs.totalUrls)
                  && events == [CrawlUrlError(siteId, url, outcome.message)])
  {
  }

  /** With fewer than 20 URLs the throttle lets every message through. */
  lemma SmallTotalAlwaysNotifies(processed: nat, totalUrls: nat)
    requires totalUrls < 20
    ensures ShouldNotify(processed, totalUrls)
  {
    assert Max1(totalUrls) / 20 == 0;
  }

  /** The last URL always notifies, whatever the total. */
  lemma LastUrlNotifies(totalUrls: nat)
    ensures ShouldNotify(Max1(totalUrls), totalUrls)
  {
  }

  // ---------------------------------------------------------------------------
  // A run of callbacks and the background task
  // ---------------------------------------------------------------------------

  /** The status record after the callbacks for `pages`, in order. */
  function RunStatus(cs: CrawlStatus, pages: seq<Crawler.Page>, outcomeOf: (string, string) -> Outcome): CrawlStatus {
    if pages == [] then cs
    else
      var last := pages[|pages| - 1];
      CallbackStatus(RunStatus(cs, pages[..|pages| - 1], outcomeOf), last.url, last.content,
                     outcomeOf(last.url, last.content))
  }

  /** The broadcasts of the callbacks for `pages`, in order. */
  function RunEvents(siteId: string, cs: CrawlStatus, pages: seq<Crawler.Page>,
                     outcomeOf: (string, string) -> Outcome): seq<Event>
  {
    if pages == [] then []
    else
      var init := pages[..|pages| - 1];
      var last := pages[|pages| - 1];
      RunEvents(siteId, cs, init, outcomeOf)
      + CallbackEvents(siteId, RunStatus(cs, init, outcomeOf), last.url, last.content,
                       outcomeOf(last.url, last.content))
  }

  /** One more page extends the run by one callback. */
  lemma RunStep(siteId: string, cs: CrawlStatus, pages: seq<Crawler.Page>, i: nat,
                outcomeOf: (string, string) -> Outcome)
    requires i < |pages|
    ensures var before := RunStatus(cs, pages[..i], outcomeOf);
            var p := pages[i];
            && RunStatus(cs, pages[..i + 1], outcomeOf)
               == CallbackStatus(before, p.url, p.content, outcomeOf(p.url, p.content))
            && RunEvents(siteId, cs, pages[..i + 1], outcomeOf)
               == RunEvents(siteId, cs, pages[..i], outcomeOf)
                  + CallbackEvents(siteId, before, p.url, p.content, outcomeOf(p.url, p.content))
  {
    assert pages[..i + 1][..i] == pages[..i];
  }

  /** How many of `pages` the callback counts as processed. */
  function CountedPages(pages: seq<Crawler.Page>, outcomeOf: (string, string) -> Outcome): (n: nat)
    ensures n <= |pages|
  {
    if pages == [] then 0
    else
      var last := pages[|pages| - 1];
      CountedPages(pages[..|pages| - 1], outcomeOf)
      + (if Counted(last.content, outcomeOf(last.url, last.content)) then 1 else 0)
  }

  /** How many documents the callback stores for `pages`. */
  function StoredChunks(pages: seq<Crawler.Page>, outcomeOf: (string, string) -> Outcome): nat {
    if pages == [] then 0
    else
      var last := pages[|pages| - 1];
      var o := outcomeOf(last.url, last.content);
      StoredChunks(pages[..|pages| - 1], outcomeOf) + (if Stored(last.content, o) then o.docs else 0)
  }

  /**
   * Over a run of callbacks the processed count rises by the number of counted
   * pages and the chunk count by the documents stored, so neither ever falls;
   * the total, the phase and the error are untouched.
   */
  lemma {:induction false} RunCounters(cs: CrawlStatus, pages: seq<Crawler.Page>, outcomeOf: (string, string) -> Outcome)
    ensures var r := RunStatus(cs, pages, outcomeOf);
            && r.processedUrls == cs.processedUrls + CountedPages(pages, outcomeOf)
            && r.chunksAdded == cs.chunksAdded + StoredChunks(pages, outcomeOf)
            && r.totalUrls == cs.totalUrls && r.phase == cs.phase && r.error == cs.error
  {
    if pages != [] {
      RunCounters(cs, pages[..|pages| - 1], outcomeOf);
    }
  }

  /** The status after a run that fails with `message`. */
  function Fail(siteId: string, cs: CrawlStatus, site: Site, message: string): RunResult {
    RunResult(cs.(phase := Error, error := Some(message)), site.(status := SiteError),
              [CrawlError(siteId, message)], [])
  }

  /**
   * `crawl_site_background` for a site whose records are `cs` and `site`:
   * "finding_urls"; then "error" if discovery raised or found nothing or the
   * crawl raised; otherwise "crawling" with the URL count as total, the
   * callbacks for the crawled pages, and "completed". The site's chunk total
   * is set to the status record's final chunk count. The source copies the
   * count only when a page is stored; the two agree when the site's total
   * equals the record's count at the start, which the registry's `Consistent`
   * invariant keeps at every call (`CompletionMirrorsStores`).
   */
  function Background(siteId: string, cs: CrawlStatus, site: Site, discovery: Discovery, run: CrawlRun,
                      outcomeOf: (string, string) -> Outcome): RunResult
  {
    var finding := cs.(phase := FindingUrls);
    var later := DiscoveryStage(siteId, finding, site, discovery, run, outcomeOf);
    later.(events := [CrawlStatusChanged(siteId, finding)] + later.events)
  }

  /** The run from "finding_urls" on: "error" if discovery raised or found nothing, otherwise the crawl. */
  function DiscoveryStage(siteId: string, finding: CrawlStatus, site: Site, discovery: Discovery, run: CrawlRun,
                          outcomeOf: (string, string) -> Outcome): RunResult
  {
    match discovery
    case DiscoveryRaised(m) => Fail(siteId, finding, site, m)
    case Discovered(urls) =>
      if urls == [] then Fail(siteId, finding, site, NoUrlsMessage)
      else CrawlStage(siteId, finding.(totalUrls := |urls|, phase := Crawling), site, run, outcomeOf)
  }

  /** The run once discovery found URLs: "error" if the crawl raised, otherwise the crawling stage. */
  function CrawlStage(siteId: string, crawling: CrawlStatus, site: Site, run: CrawlRun,
                      outcomeOf: (string, string) -> Outcome): RunResult
  {
    match run
    case CrawlRaised(m) => Fail(siteId, crawling, site, m)
    case Crawled(results) => Completion(siteId, crawling, site, results, outcomeOf)
  }

  /**
   * The crawling stage of a run: the callbacks for the delivered pages, then
   * "completed", with the site's chunk total set to the final chunk count.
   */
  function Completion(siteId: string, crawling: CrawlStatus, site: Site, results: seq<Crawler.CrawlResult>,
                      outcomeOf: (string, string) -> Outcome): RunResult
  {
    var pages := Crawler.Delivered(results);
    var done := RunStatus(crawling, pages, outcomeOf).(phase := Completed);
    RunResult(done, site.(status := SiteCompleted, totalChunks := done.chunksAdded),
              RunEvents(siteId, crawling, pages, outcomeOf) + [CrawlCompleted(siteId, done.chunksAdded)],
              pages)
  }

  /**
   * When the site's chunk total starts equal to the status record's count, the
   * crawling stage leaves it raised by exactly the documents stored, as copying
   * the count after every stored page does.
   */
  lemma CompletionMirrorsStores(siteId: string, crawling: CrawlStatus, site: Site,
                                results: seq<Crawler.CrawlResult>, outcomeOf: (string, string) -> Outcome)
    requires site.totalChunks == crawling.chunksAdded
    ensures Completion(siteId, crawling, site, results, outcomeOf).site.totalChunks
            == site.totalChunks + StoredChunks(Crawler.Delivered(results), outcomeOf)
  {
    RunCounters(crawling, Crawler.Delivered(results), outcomeOf);
  }

  /**
   * A run that discovers URLs and crawls them ends "completed" in both records,
   * with the URL count as total, one processed URL per counted page on top of
   * the earlier count, and at most one per crawl result; its broadcasts start with
   * the "finding_urls" status and end with the completion message.
   */
  lemma BackgroundCompletes(siteId: string, cs: CrawlStatus, site: Site, urls: seq<string>,
                            results: seq<Crawler.CrawlResult>, outcomeOf: (string, string) -> Outcome)
    requires urls != []
    ensures var r := Background(siteId, cs, site, Discovered(urls), Crawled(results), outcomeOf);
            var pages := Crawler.Delivered(results);
            && r.status.phase == Completed && r.site.status == SiteCompleted
            && r.status.totalUrls == |urls|
            && r.status.processedUrls == cs.processedUrls + CountedPages(pages, outcomeOf)
            && r.status.processedUrls <= cs.processedUrls + |results|
            && r.status.chunksAdded == cs.chunksAdded + StoredChunks(pages, outcomeOf)
            && r.site.totalChunks == r.status.chunksAdded
            && r.status.error == cs.error
            && r.pages == pages
            && r.events[0] == CrawlStatusChanged(siteId, cs.(phase := FindingUrls))
            && r.events[|r.events| - 1] == CrawlCompleted(siteId, r.status.chunksAdded)
  {
    var crawling := cs.(phase := FindingUrls).(totalUrls := |urls|, phase := Crawling);
    RunCounters(crawling, Crawler.Delivered(results), outcomeOf);
    Crawler.DeliveredAtPassing(results);
    Crawler.PassingIndicesBound(results);
  }

  /**
   * On a fresh record (nothing processed yet), when the crawl returns at most one
   * result per discovered URL, the processed count never exceeds the total.
   */
  lemma ProcessedWithinTotal(siteId: string, cs: CrawlStatus, site: Site, urls: seq<string>,
                             results: seq<Crawler.CrawlResult>, outcomeOf: (string, string) -> Outcome)
    requires urls != [] && cs.processedUrls == 0 && |results| <= |urls|
    ensures var r := Background(siteId, cs, site, Discovered(urls), Crawled(results), outcomeOf);
            r.status.processedUrls <= r.status.totalUrls
  {
    BackgroundCompletes(siteId, cs, site, urls, results, outcomeOf);
  }

  /**
   * Discovery that finds no URL ends the run in "error" in both records with the
   * message "No URLs found to crawl for the given site." kept in the status
   * record; no page is crawled and the counters are untouched.
   */
  lemma BackgroundNoUrls(siteId: string, cs: CrawlStatus, site: Site, run: CrawlRun,
                         outcomeOf: (string, string) -> Outcome)
    ensures var r := Background(siteId, cs, site, Discovered([]), run, outcomeOf);
            && r.status == cs.(phase := Error, error := Some(NoUrlsMessage))
            && r.site == site.(status := SiteError)
            && r.pages == []
            && r.events == [CrawlStatusChanged(siteId, cs.(phase := FindingUrls)), CrawlError(siteId, NoUrlsMessage)]
  {
  }

  /**
   * Every run ends in a terminal phase, and the two records agree on it:
   * "completed" in both or "error" in both, the error message present exactly
   * in the failed case (when the record had none before).
   */
  lemma BackgroundTerminal(siteId: string, cs: CrawlStatus, site: Site, discovery: Discovery, run: CrawlRun,
                           outcomeOf: (string, string) -> Outcome)
    requires cs.error.None?
    ensures var r := Background(siteId, cs, site, discovery, run, outcomeOf);
            && (r.status.phase == Completed || r.status.phase == Error)
            && (r.status.phase == Completed <==> r.site.status == SiteCompleted)
            && (r.status.phase == Error <==> r.site.status == SiteError)
            && (r.status.error.Some? <==> r.status.phase == Error)
  {
    match discovery
    case DiscoveryRaised(_) =>
    case Discovered(urls) =>
      if urls != [] && run.Crawled? {
        BackgroundCompletes(siteId, cs, site, urls, run.results, outcomeOf);
      }
  }

  /** Updating a key twice keeps the second value. */
  lemma UpdateTwice<K, V>(m: map<K, V>, k: K, a: V, b: V)
    ensures m[k := a][k := b] == m[k := b]
  {
  }

  /** The record `add_site` creates in `crawl_status`. */
  function InitialStatus(): CrawlStatus {
    CrawlStatus(Starting, 0.0, 0, 0, "", 0, None)
  }

  /** The record `add_site` creates in `scraped_sites`; the name is `name or url`. */
  function NewSite(siteId: string, url: string, name: Option<string>, addedAt: string): Site {
    Site(siteId, if name.None? || name.value == "" then url else name.value, url, addedAt, SiteCrawling, 0)
  }

  /** The fields `get_crawl_status` reports for a record. */
  function Report(cs: CrawlStatus): StatusReport {
    StatusReport(cs.progress, cs.totalUrls, cs.processedUrls, cs.chunksAdded, cs.currentUrl, cs.error, cs.phase.Name())
  }

  /**
   * Every site has a status record and no status record is orphaned; each
   * site record carries its own id; and the site's chunk total mirrors the
   * status record's chunk count.
   */
  ghost predicate Consistent(sites: map<string, Site>, statuses: map<string, CrawlStatus>) {
    && statuses.Keys == sites.Keys
    && forall id :: id in sites ==>
         && sites[id].id == id
         && id in statuses
         && sites[id].totalChunks == statuses[id].chunksAdded
  }

  /** Replacing the records of a known site by a matching pair keeps the registry consistent. */
  lemma ConsistentUpdate(sites: map<string, Site>, statuses: map<string, CrawlStatus>, id: string,
                         site: Site, status: CrawlStatus)
    requires Consistent(sites, statuses) && id in sites
    requires site.id == id && site.totalChunks == status.chunksAdded
    ensures Consistent(sites[id := site], statuses[id := status])
  {
  }

  // ---------------------------------------------------------------------------
  // The registry
  // ---------------------------------------------------------------------------

  /** The process-wide state of the web application that the ingestion touches. */
  class SiteRegistry {
    var sites: map<string, Site>
    var crawlStatus: map<string, CrawlStatus>
    var vectorstoreReady: bool
    var outbox: seq<Event>

    /**
     * Every site has a status record and no status record is orphaned; each
     * site record carries its own id; and the site's chunk total mirrors the
     * status record's chunk count.
     */
    ghost predicate Valid()
      reads this
    {
      Consistent(sites, crawlStatus)
    }

    /** Start-up: both maps empty, the vector store present or not. */
    constructor (vectorstoreReady: bool)
      ensures Valid()
      ensures sites == map[] && crawlStatus == map[] && outbox == []
      ensures this.vectorstoreReady == vectorstoreReady
    {
      sites := map[];
      crawlStatus := map[];
      this.vectorstoreReady := vectorstoreReady;
      outbox := [];
    }

    /**
     * `add_site`: without a vector store it fails (the 503 is caught by the
     * generic handler and re-raised as a 500) and creates nothing; otherwise it
     * creates both records for `siteId` and announces the site.
     */
    method AddSite(siteId: string, url: string, name: Option<string>, addedAt: string)
      returns (r: Result<string, HttpError>)
      requires Valid()
      modifies this
      ensures Valid()
      ensures vectorstoreReady == old(vectorstoreReady)
      ensures !old(vectorstoreReady) ==>
                && r == Failure(HttpError(500, "Failed to add site: " + NoVectorstoreDetail))
                && sites == old(sites) && crawlStatus == old(crawlStatus) && outbox == old(outbox)
      ensures old(vectorstoreReady) ==>
                && r == Success(siteId)
                && crawlStatus == old(crawlStatus)[siteId := InitialStatus()]
                && sites == old(sites)[siteId := NewSite(siteId, url, name, addedAt)]
                && outbox == old(outbox) + [SiteAdded(NewSite(siteId, url, name, addedAt))]
    {
      if !vectorstoreReady {
        r := Failure(HttpError(500, "Failed to add site: " + NoVectorstoreDetail));
        return;
      }
      crawlStatus := crawlStatus[siteId := InitialStatus()];
      var site := NewSite(siteId, url, name, addedAt);
      sites := sites[siteId := site];
      outbox := outbox + [SiteAdded(site)];
      r := Success(siteId);
    }

    /**
     * `process_callback` for one crawled page of `siteId`, with the outcome of
     * splitting and storing it.
     */
    method ProcessCallback(siteId: string, url: string, content: string, outcome: Outcome)
      requires Valid() && siteId in crawlStatus
      modifies this
      ensures Valid()
      ensures crawlStatus == old(crawlStatus)[siteId := CallbackStatus(old(crawlStatus[siteId]), url, content, outcome)]
      ensures sites == if Stored(content, outcome)
                       then old(sites)[siteId := old(sites[siteId]).(totalChunks := crawlStatus[siteId].chunksAdded)]
                       else old(sites)
      ensures outbox == old(outbox) + CallbackEvents(siteId, old(crawlStatus[siteId]), url, content, outcome)
      ensures vectorstoreReady == old(vectorstoreReady)
    {
      if IsBlank(content) {
        return;
      }
      match outcome
      case Chunked(n) =>
        if n == 0 {
          return;
        }
        var cs := crawlStatus[siteId];
        var processed := cs.processedUrls + 1;
        cs := cs.(processedUrls := processed, chunksAdded := cs.chunksAdded + n, currentUrl := url);
        cs := cs.(progress := Progress(processed, cs.totalUrls));
        crawlStatus := crawlStatus[siteId := cs];
        sites := sites[siteId := sites[siteId].(totalChunks := cs.chunksAdded)];
        if ShouldNotify(processed, cs.totalUrls) {
          outbox := outbox + [CrawlProgress(siteId, cs)];
        }
      case Raised(message) =>
        var cs := crawlStatus[siteId];
        var processed := cs.processedUrls + 1;
        cs := cs.(processedUrls := processed, progress := Progress(processed, cs.totalUrls));
        crawlStatus := crawlStatus[siteId := cs];
        outbox := outbox + [CrawlUrlError(siteId, url, message)];
    }

    /**
     * The callback for `pages[i]` after those for `pages[..i]`: the records and
     * the broadcasts move on by one step of the run.
     */
    method CallbackStep(siteId: string, ghost cs0: CrawlStatus, ghost site0: Site, pages: seq<Crawler.Page>, i: nat,
                        outcomeOf: (string, string) -> Outcome)
      requires Valid() && i < |pages| && siteId in crawlStatus
      requires crawlStatus[siteId] == RunStatus(cs0, pages[..i], outcomeOf)
      requires siteId in sites && sites[siteId] == site0.(totalChunks := crawlStatus[siteId].chunksAdded)
      modifies this
      ensures Valid()
      ensures crawlStatus == old(crawlStatus)[siteId := RunStatus(cs0, pages[..i + 1], outcomeOf)]
      ensures sites == old(sites)[siteId := site0.(totalChunks := crawlStatus[siteId].chunksAdded)]
      ensures outbox == old(outbox) + CallbackEvents(siteId, RunStatus(cs0, pages[..i], outcomeOf), pages[i].url,
                                                      pages[i].content, outcomeOf(pages[i].url, pages[i].content))
      ensures vectorstoreReady == old(vectorstoreReady)
    {
      var page := pages[i];
      RunStep(siteId, cs0, pages, i, outcomeOf);
      ProcessCallback(siteId, page.url, page.content, outcomeOf(page.url, page.content));
    }

    /**
     * The callbacks for `pages`, in order, as the crawler makes them for
     * `siteId`.
     */
    method RunCallbacks(siteId: string, pages: seq<Crawler.Page>, outcomeOf: (string, string) -> Outcome)
      requires Valid() && siteId in crawlStatus
      modifies this
      ensures Valid()
      ensures crawlStatus == old(crawlStatus)[siteId := RunStatus(old(crawlStatus[siteId]), pages, outcomeOf)]
      ensures sites == old(sites)[siteId := old(sites[siteId]).(totalChunks := crawlStatus[siteId].chunksAdded)]
      ensures outbox == old(outbox) + RunEvents(siteId, old(crawlStatus[siteId]), pages, outcomeOf)
      ensures vectorstoreReady == old(vectorstoreReady)
    {
      ghost var cs0 := crawlStatus[siteId];
      ghost var site0 := sites[siteId];
      for i := 0 to |pages|
        invariant Valid()
        invariant crawlStatus == old(crawlStatus)[siteId := RunStatus(cs0, pages[..i], outcomeOf)]
        invariant sites == old(sites)[siteId := site0.(totalChunks := crawlStatus[siteId].chunksAdded)]
        invariant outbox == old(outbox) + RunEvents(siteId, cs0, pages[..i], outcomeOf)
        invariant vectorstoreReady == old(vectorstoreReady)
      {
        ghost var sent := outbox;
        ghost var ev := CallbackEvents(siteId, RunStatus(cs0, pages[..i], outcomeOf), pages[i].url,
                                       pages[i].content, outcomeOf(pages[i].url, pages[i].content));
        RunStep(siteId, cs0, pages, i, outcomeOf);
        CallbackStep(siteId, cs0, site0, pages, i, outcomeOf);
        UpdateTwice(old(crawlStatus), siteId, RunStatus(cs0, pages[..i], outcomeOf), RunStatus(cs0, pages[..i + 1], outcomeOf));
        UpdateTwice(old(sites), siteId, site0.(totalChunks := RunStatus(cs0, pages[..i], outcomeOf).chunksAdded),
                    site0.(totalChunks := crawlStatus[siteId].chunksAdded));
        assert outbox == old(outbox) + (RunEvents(siteId, cs0, pages[..i], outcomeOf) + ev);
      }
      assert pages[..|pages|] == pages;
    }

    /** The handler of `crawl_site_background`: both records say "error" and the message is broadcast. */
    method RecordFailure(siteId: string, message: string)
      requires Valid() && siteId in crawlStatus
      modifies this
      ensures Valid()
      ensures crawlStatus == old(crawlStatus)[siteId := old(crawlStatus[siteId]).(phase := Error, error := Some(message))]
      ensures sites == old(sites)[siteId := old(sites[siteId]).(status := SiteError)]
      ensures outbox == old(outbox) + [CrawlError(siteId, message)]
      ensures vectorstoreReady == old(vectorstoreReady)
    {
      crawlStatus := crawlStatus[siteId := crawlStatus[siteId].(phase := Error, error := Some(message))];
      sites := sites[siteId := sites[siteId].(status := SiteError)];
      outbox := outbox + [CrawlError(siteId, message)];
    }

    /** The end of a run whose crawl finished: both records say "completed" and the total is broadcast. */
    method MarkCompleted(siteId: string)
      requires Valid() && siteId in crawlStatus
      modifies this
      ensures Valid()
      ensures crawlStatus == old(crawlStatus)[siteId := old(crawlStatus[siteId]).(phase := Completed)]
      ensures sites == old(sites)[siteId := old(sites[siteId]).(status := SiteCompleted)]
      ensures outbox == old(outbox) + [CrawlCompleted(siteId, old(crawlStatus[siteId]).chunksAdded)]
      ensures vectorstoreReady == old(vectorstoreReady)
    {
      ConsistentUpdate(sites, crawlStatus, siteId, sites[siteId].(status := SiteCompleted),
                       crawlStatus[siteId].(phase := Completed));
      crawlStatus := crawlStatus[siteId := crawlStatus[siteId].(phase := Completed)];
      sites := sites[siteId := sites[siteId].(status := SiteCompleted)];
      outbox := outbox + [CrawlCompleted(siteId, crawlStatus[siteId].chunksAdded)];
    }

    /**
     * The crawling stage of `crawl_site_background`: the crawler hands the
     * passing results to the callback, and the run is marked completed.
     */
    method CrawlPages(siteId: string, results: seq<Crawler.CrawlResult>, outcomeOf: (string, string) -> Outcome,
                      tracker: Crawler.UrlTracker)
      requires Valid() && siteId in crawlStatus
      modifies this, tracker
      ensures Valid()
      ensures var r := Completion(siteId, old(crawlStatus[siteId]), old(sites[siteId]), results, outcomeOf);
              && crawlStatus == old(crawlStatus)[siteId := r.status]
              && sites == old(sites)[siteId := r.site]
              && outbox == old(outbox) + r.events
              && tracker.crawled == old(tracker.crawled) + Crawler.UrlsOf(r.pages)
      ensures vectorstoreReady == old(vectorstoreReady)
    {
      ghost var crawling := crawlStatus[siteId];
      ghost var site0 := sites[siteId];
      var pages := tracker.CrawlAndProcess(results);
      RunCallbacks(siteId, pages, outcomeOf);
      ghost var ran := RunStatus(crawling, pages, outcomeOf);
      ghost var events := RunEvents(siteId, crawling, pages, outcomeOf);
      UpdateTwice(old(crawlStatus), siteId, crawling, ran);
      assert outbox == old(outbox) + events;
      MarkCompleted(siteId);
      UpdateTwice(old(crawlStatus), siteId, ran, ran.(phase := Completed));
      UpdateTwice(old(sites), siteId, site0.(totalChunks := ran.chunksAdded),
                  site0.(status := SiteCompleted, totalChunks := ran.chunksAdded));
      assert outbox == old(outbox) + (events + [CrawlCompleted(siteId, ran.chunksAdded)]);
    }

    /** The part of `crawl_site_background` from "finding_urls" on. */
    method DiscoverSite(siteId: string, discovery: Discovery, run: CrawlRun, outcomeOf: (string, string) -> Outcome,
                        tracker: Crawler.UrlTracker)
      requires Valid() && siteId in crawlStatus
      modifies this, tracker
      ensures Valid()
      ensures var r := DiscoveryStage(siteId, old(crawlStatus[siteId]), old(sites[siteId]), discovery, run, outcomeOf);
              && crawlStatus == old(crawlStatus)[siteId := r.status]
              && sites == old(sites)[siteId := r.site]
              && outbox == old(outbox) + r.events
              && tracker.crawled == old(tracker.crawled) + Crawler.UrlsOf(r.pages)
      ensures vectorstoreReady == old(vectorstoreReady)
    {
      match discovery
      case DiscoveryRaised(m) =>
        RecordFailure(siteId, m);
      case Discovered(urls) =>
        if |urls| == 0 {
          RecordFailure(siteId, NoUrlsMessage);
        } else {
          ghost var crawling := crawlStatus[siteId].(totalUrls := |urls|, phase := Crawling);
          crawlStatus := crawlStatus[siteId := crawlStatus[siteId].(totalUrls := |urls|, phase := Crawling)];
          CrawlSiteStage(siteId, run, outcomeOf, tracker);
          UpdateTwice(old(crawlStatus), siteId, crawling, crawlStatus[siteId]);
        }
    }

    /** The part of `crawl_site_background` after discovery found URLs. */
    method CrawlSiteStage(siteId: string, run: CrawlRun, outcomeOf: (string, string) -> Outcome,
                          tracker: Crawler.UrlTracker)
      requires Valid() && siteId in crawlStatus
      modifies this, tracker
      ensures Valid()
      ensures var r := CrawlStage(siteId, old(crawlStatus[siteId]), old(sites[siteId]), run, outcomeOf);
              && crawlStatus == old(crawlStatus)[siteId := r.status]
              && sites == old(sites)[siteId := r.site]
              && outbox == old(outbox) + r.events
              && tracker.crawled == old(tracker.crawled) + Crawler.UrlsOf(r.pages)
      ensures vectorstoreReady == old(vectorstoreReady)
    {
      match run
      case CrawlRaised(m) =>
        RecordFailure(siteId, m);
      case Crawled(results) =>
        CrawlPages(siteId, results, outcomeOf, tracker);
    }

    /**
     * `crawl_site_background` for `siteId`. For an unknown id the first update
     * raises `KeyError`, and the outer handler finds neither record and only
     * broadcasts the error.
     */
    method CrawlSiteBackground(siteId: string, discovery: Discovery, run: CrawlRun,
                               outcomeOf: (string, string) -> Outcome, tracker: Crawler.UrlTracker)
      requires Valid()
      modifies this, tracker
      ensures Valid()
      ensures vectorstoreReady == old(vectorstoreReady)
      ensures siteId !in old(crawlStatus) ==>
                && crawlStatus == old(crawlStatus) && sites == old(sites)
                && outbox == old(outbox) + [CrawlError(siteId, "Unexpected critical error during crawl: '" + siteId + "'")]
                && tracker.crawled == old(tracker.crawled)
      ensures siteId in old(crawlStatus) ==>
                var r := Background(siteId, old(crawlStatus[siteId]), old(sites[siteId]), discovery, run, outcomeOf);
                && crawlStatus == old(crawlStatus)[siteId := r.status]
                && sites == old(sites)[siteId := r.site]
                && outbox == old(outbox) + r.events
                && tracker.crawled == old(tracker.crawled) + Crawler.UrlsOf(r.pages)
    {
      if siteId !in crawlStatus {
        outbox := outbox + [CrawlError(siteId, "Unexpected critical error during crawl: '" + siteId + "'")];
        return;
      }
      ghost var finding := crawlStatus[siteId].(phase := FindingUrls);
      ghost var later := DiscoveryStage(siteId, finding, sites[siteId], discovery, run, outcomeOf);
      ghost var announced := [CrawlStatusChanged(siteId, finding)];
      crawlStatus := crawlStatus[siteId := crawlStatus[siteId].(phase := FindingUrls)];
      outbox := outbox + [CrawlStatusChanged(siteId, crawlStatus[siteId])];
      assert outbox == old(outbox) + announced;
      DiscoverSite(siteId, discovery, run, outcomeOf, tracker);
      UpdateTwice(old(crawlStatus), siteId, finding, later.status);
      assert outbox == old(outbox) + (announced + later.events);
    }

    /** `get_sites`: every site record (the file reload before it is not modelled). */
    method GetSites() returns (all: set<Site>)
      ensures all == sites.Values
    {
      all := sites.Values;
    }

    /** `get_crawl_status`: the report for a known site, and the "not found" answer otherwise. */
    method GetCrawlStatus(siteId: string) returns (r: Option<StatusReport>)
      ensures r.None? <==> siteId !in crawlStatus
      ensures r.Some? ==> r.value == Report(crawlStatus[siteId])
    {
      if siteId !in crawlStatus {
        return None;
      }
      r := Some(Report(crawlStatus[siteId]));
    }

    /**
     * `delete_site`: an unknown id is a 404 and changes nothing. For a known id
     * the vector store is asked to delete the chunks whose source is the site's
     * seed URL (`storeFilter`); if that raises, the answer is a 500 and nothing
     * else changes; otherwise both records go and the deletion is announced.
     */
    method DeleteSite(siteId: string, storeFailure: Option<string>)
      returns (r: Result<string, HttpError>, storeFilter: Option<string>)
      requires Valid()
      modifies this
      ensures Valid()
      ensures vectorstoreReady == old(vectorstoreReady)
      ensures siteId !in old(sites) ==>
                && r == Failure(HttpError(404, "Site not found.")) && storeFilter == None
                && sites == old(sites) && crawlStatus == old(crawlStatus) && outbox == old(outbox)
      ensures siteId in old(sites) ==> storeFilter == Some(old(sites[siteId].url))
      ensures siteId in old(sites) && storeFailure.Some? ==>
                && r == Failure(HttpError(500, "Failed to delete site: " + storeFailure.value))
                && sites == old(sites) && crawlStatus == old(crawlStatus) && outbox == old(outbox)
      ensures siteId in old(sites) && storeFailure.None? ==>
                && r == Success("Site deleted successfully.")
                && sites == old(sites) - {siteId} && crawlStatus == old(crawlStatus) - {siteId}
                && outbox == old(outbox) + [SiteDeleted(siteId)]
    {
      if siteId !in sites {
        return Failure(HttpError(404, "Site not found.")), None;
      }
      storeFilter := Some(sites[siteId].url);
      if storeFailure.Some? {
        r := Failure(HttpError(500, "Failed to delete site: " + storeFailure.value));
        return;
      }
      sites := sites - {siteId};
      if siteId in crawlStatus {
        crawlStatus := crawlStatus - {siteId};
      }
      outbox := outbox + [SiteDeleted(siteId)];
      r := Success("Site deleted successfully.");
    }

    /**
     * `clear_database`: drop the collection when there is a vector store (a
     * failure there is a 500 before anything is cleared), empty both maps, then
     * reinitialise the vector store (a failure there is a 500 after the maps are
     * already empty, and the old store stays in place). `dropped` says whether
     * the collection was actually dropped: there was a store and the drop did
     * not fail.
     */
    method ClearDatabase(dropFailure: Option<string>, reloadFailure: Option<string>)
      returns (r: Result<string, HttpError>, dropped: bool)
      requires Valid()
      modifies this
      ensures Valid()
      ensures dropped == (old(vectorstoreReady) && dropFailure.None?)
      ensures old(vectorstoreReady) && dropFailure.Some? ==>
                && r == Failure(HttpError(500, "Failed to clear database: " + dropFailure.value))
                && sites == old(sites) && crawlStatus == old(crawlStatus)
                && outbox == old(outbox) && vectorstoreReady == old(vectorstoreReady)
      ensures !(old(vectorstoreReady) && dropFailure.Some?) ==>
                && sites == map[] && crawlStatus == map[]
                && (reloadFailure.Some? ==>
                      && r == Failure(HttpError(500, "Failed to clear database: " + reloadFailure.value))
                      && outbox == old(outbox) && vectorstoreReady == old(vectorstoreReady))
                && (reloadFailure.None? ==>
                      && r == Success("Database cleared successfully.")
                      && outbox == old(outbox) + [DatabaseCleared] && vectorstoreReady)
    {
      dropped := vectorstoreReady && dropFailure.None?;
      if vectorstoreReady && dropFailure.Some? {
        r := Failure(HttpError(500, "Failed to clear database: " + dropFailure.value));
        return;
      }
      sites := map[];
      crawlStatus := map[];
      if reloadFailure.Some? {
        r := Failure(HttpError(500, "Failed to clear database: " + reloadFailure.value));
        return;
      }
      vectorstoreReady := true;
      outbox := outbox + [DatabaseCleared];
      r := Success("Database cleared successfully.");
    }
  }
}
