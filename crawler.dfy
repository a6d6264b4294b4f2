/**
 * The sequential logic of the crawler: probing the well-known sitemap
 * locations, and filtering the crawl results before they reach the ingestion
 * callback while recording the URLs handed over.
 *
 * HTTP requests are an oracle `get` (`None` stands for a request that raised),
 * `urljoin` is a function parameter `join`, and the browser crawl's results
 * are an input sequence.
 */
module Crawler {
  import opened Wrappers
  import opened PyStr

  /** An HTTP response: status code and body text. */
  datatype Response = Response(status: int, text: string)

  /** One crawl result: the page URL, whether the crawl succeeded, and its markdown ("" when there is none). */
  datatype CrawlResult = CrawlResult(url: string, success: bool, markdown: string)

  /** What the callback is called with: a URL and its markdown. */
  datatype Page = Page(url: string, content: string)

  // ---------------------------------------------------------------------------
  // find_sitemap
  // ---------------------------------------------------------------------------

  /** The locations `find_sitemap` tries, in this order, each joined to the base URL. */
  function Candidates(baseUrl: string, join: (string, string) -> string): seq<string> {
    [ join(baseUrl, "/sitemap.xml"),
      join(baseUrl, "/sitemap_index.xml"),
      join(baseUrl, "/sitemap1.xml"),
      join(baseUrl, "/sitemap/sitemap.xml") ]
  }

  /**
   * The acceptance test: the request did not raise, the status is 200, and the
   * body contains `<urlset` or `<sitemapindex`.
   */
  predicate IsSitemap(r: Option<Response>) {
    && r.Some?
    && r.value.status == 200
    && (Contains(r.value.text, "<urlset") || Contains(r.value.text, "<sitemapindex"))
  }

  /**
   * `find_sitemap`: request each candidate once, in order, and return the first
   * one accepted; a request that raises, or a response that fails the test,
   * moves on to the next candidate. `probed` lists the URLs requested.
   */
  method FindSitemap(baseUrl: string, join: (string, string) -> string, get: string -> Option<Response>)
    returns (found: Option<string>, probed: seq<string>)
    ensures var c := Candidates(baseUrl, join);
            found.None? <==> forall j :: 0 <= j < |c| ==> !IsSitemap(get(c[j]))
    ensures found.None? ==> probed == Candidates(baseUrl, join)
    ensures var c := Candidates(baseUrl, join);
            found.Some? ==>
              exists i :: 0 <= i < |c| && found.value == c[i] && IsSitemap(get(c[i]))
                          && probed == c[..i + 1]
                          && forall j :: 0 <= j < i ==> !IsSitemap(get(c[j]))
  {
    var candidates := Candidates(baseUrl, join);
    probed := [];
    var i := 0;
    while i < |candidates|
      invariant i <= |candidates|
      invariant probed == candidates[..i]
      invariant forall j :: 0 <= j < i ==> !IsSitemap(get(candidates[j]))
    {
      var url := candidates[i];
      var response := get(url);
      probed := probed + [url];
      assert probed == candidates[..i + 1];
      if IsSitemap(response) {
        found := Some(url);
        return;
      }
      i := i + 1;
    }
    assert probed == candidates;
    found := None;
  }

  // ---------------------------------------------------------------------------
  // crawl_and_process
  // ---------------------------------------------------------------------------

  /** A result is handed to the callback when it succeeded and its markdown is not empty. */
  predicate Passes(r: CrawlResult) {
    r.success && r.markdown != ""
  }

  /** The calls of the callback for `results`, in order. */
  function Delivered(results: seq<CrawlResult>): seq<Page> {
    if results == [] then []
    else
      var last := results[|results| - 1];
      Delivered(results[..|results| - 1])
      + (if Passes(last) then [Page(last.url, last.markdown)] else [])
  }

  /** The indices of the results that pass the filter, in increasing order. */
  function PassingIndices(results: seq<CrawlResult>): seq<nat> {
    if results == [] then []
    else
      PassingIndices(results[..|results| - 1])
      + (if Passes(results[|results| - 1]) then [|results| - 1] else [])
  }

  /** The URLs of a list of pages. */
  function UrlsOf(pages: seq<Page>): set<string> {
    set p | p in pages :: p.url
  }

  /** Every passing index is an index of `results`, and they increase. */
  lemma {:induction false} PassingIndicesIncrease(results: seq<CrawlResult>)
    ensures forall j :: 0 <= j < |PassingIndices(results)| ==> PassingIndices(results)[j] < |results|
    ensures forall a, b :: 0 <= a < b < |PassingIndices(results)| ==>
              PassingIndices(results)[a] < PassingIndices(results)[b]
  {
    if results != [] {
      PassingIndicesIncrease(results[..|results| - 1]);
    }
  }

  /** An index is a passing index exactly when its result passes. */
  lemma {:induction false} PassingIndicesExact(results: seq<CrawlResult>)
    ensures forall i :: 0 <= i < |results| ==> (i in PassingIndices(results) <==> Passes(results[i]))
  {
    if results != [] {
      var init := results[..|results| - 1];
      PassingIndicesExact(init);
      PassingIndicesIncrease(init);
      assert forall i :: 0 <= i < |init| ==> init[i] == results[i];
    }
  }

  /** The `j`-th call of the callback is for the `j`-th passing result. */
  lemma {:induction false} DeliveredAtPassing(results: seq<CrawlResult>)
    ensures |Delivered(results)| == |PassingIndices(results)|
    ensures forall j :: 0 <= j < |PassingIndices(results)| ==>
              PassingIndices(results)[j] < |results|
              && Delivered(results)[j] == Page(results[PassingIndices(results)[j]].url,
                                               results[PassingIndices(results)[j]].markdown)
  {
    PassingIndicesIncrease(results);
    if results != [] {
      var init := results[..|results| - 1];
      DeliveredAtPassing(init);
      PassingIndicesIncrease(init);
      assert forall i :: 0 <= i < |init| ==> init[i] == results[i];
    }
  }

  /** There are no more passing results than results. */
  lemma {:induction false} PassingIndicesBound(results: seq<CrawlResult>)
    ensures |PassingIndices(results)| <= |results|
  {
    if results != [] {
      PassingIndicesBound(results[..|results| - 1]);
    }
  }

  /**
   * The process-wide `crawled_urls_tracker`: the set of URLs whose results
   * were handed to a callback.
   */
  class UrlTracker {
    var crawled: set<string>

    /** The tracker starts empty. */
    constructor ()
      ensures crawled == {}
    {
      crawled := {};
    }

    /**
     * The result loop of `crawl_and_process`: each passing result goes to the
     * callback and its URL into the tracker; failed or empty results are
     * skipped. The calls are returned in order instead of being made.
     */
    method CrawlAndProcess(results: seq<CrawlResult>) returns (delivered: seq<Page>)
      modifies this
      ensures delivered == Delivered(results)
      ensures crawled == old(crawled) + UrlsOf(delivered)
    {
      delivered := [];
      for i := 0 to |results|
        invariant delivered == Delivered(results[..i])
        invariant crawled == old(crawled) + UrlsOf(delivered)
      {
        assert results[..i + 1][..i] == results[..i];
        var result := results[i];
        if result.success && result.markdown != "" {
          delivered := delivered + [Page(result.url, result.markdown)];
          crawled := crawled + {result.url};
        }
      }
      assert results[..|results|] == results;
    }

    /** `get_crawled_urls`: the tracker's current contents. */
    method GetCrawledUrls() returns (urls: set<string>)
      ensures urls == crawled
    {
      urls := crawled;
    }
  }
}
