/**
 * The sequential core of `Embedder`: finding markdown headings, giving each
 * chunk the title of the heading that precedes it, numbering the chunks of a
 * page, and merging the two result lists of a hybrid search.
 *
 * The text splitter, the embedding model and the two similarity searches are
 * outside the model: their outputs (the list of chunks, the two result lists)
 * are parameters.
 */
module Embedder {
  import opened Wrappers
  import opened PyStr

  /** A markdown heading found by `extract_headers`. */
  datatype Header = Header(level: nat, title: string, start: nat)

  /** One match of the heading pattern: the header it yields and where the match ends. */
  datatype HeaderMatch = HeaderMatch(header: Header, end: nat)

  /** A chunk of a page with the metadata `chunk_and_annotate` attaches to it. */
  datatype Document = Document(
    content: string,
    source: string,
    chunkNumber: nat,
    title: string,
    chunkSize: nat,
    urlPath: string)

  /** The key by which `hybrid_search` removes duplicates: `(source, chunk_number)`. */
  function Key(d: Document): (string, nat) {
    (d.source, d.chunkNumber)
  }

  const Untitled: string := "Untitled"

  /** Where `^` matches under `re.MULTILINE`: the start of the text or just after a newline. */
  predicate LineStart(text: string, i: nat)
    requires i <= |text|
  {
    i == 0 || text[i - 1] == '\n'
  }

  // ---------------------------------------------------------------------------
  // extract_headers
  // ---------------------------------------------------------------------------

  /**
   * An attempt to match `^(#{1,6})\s+(.*)` (multi-line mode) at index `i`.
   * Since `\s` cannot match `#`, backtracking `#{1,6}` to fewer hashes never
   * helps, so the hashes are exactly the maximal run of `#`, which must be 1 to
   * 6 long and followed by whitespace. `\s+` then takes the maximal whitespace
   * run (newlines included) and `(.*)` the rest of that line. The title is the
   * second group stripped.
   */
  function MatchAt(text: string, i: nat): (r: Option<HeaderMatch>)
    requires i <= |text|
    ensures r.Some? ==> r.value.header.start == i && i < r.value.end <= |text|
  {
    if !HeadingStart(text, i) then None
    else
      var hashes := RunLength(text, i, HashMark);
      var from := i + hashes + RunLength(text, i + hashes, Whitespace);
      Some(HeaderMatch(Header(hashes, TitleFrom(text, from), i), from + RunLength(text, from, NotNewline)))
  }

  /** The pattern can match at `i`: a line starts there with 1 to 6 `#` followed by whitespace. */
  predicate HeadingStart(text: string, i: nat)
    requires i <= |text|
  {
    && LineStart(text, i)
    && 1 <= RunLength(text, i, HashMark) <= 6
    && i + RunLength(text, i, HashMark) < |text|
    && IsSpace(text[i + RunLength(text, i, HashMark)])
  }

  /** The title of a heading whose text begins at `from`: the rest of that line, stripped. */
  function TitleFrom(text: string, from: nat): string
    requires from <= |text|
  {
    Strip(text[from..from + RunLength(text, from, NotNewline)])
  }

  /**
   * The headers `re.finditer` yields when it scans from index `i`: at each
   * position it tries a match; after a match it resumes at the match's end.
   */
  function HeadersFrom(text: string, i: nat): seq<Header>
    decreases |text| - i
  {
    if i >= |text| then []
    else match MatchAt(text, i)
      case Some(m) => [m.header] + HeadersFrom(text, m.end)
      case None => HeadersFrom(text, i + 1)
  }

  /** All headers of `text`, in the order `extract_headers` returns them. */
  function Headers(text: string): seq<Header> {
    HeadersFrom(text, 0)
  }

  /**
   * Where the title group of a heading whose `#`s end at `w` lies, by the
   * regex's own rules: `\s+` takes every whitespace character from `w` on (so
   * at least one, and newlines too) up to `a`, and `(.*)` takes the rest of
   * that line, from `a` up to `b`.
   */
  predicate TitleSpan(text: string, w: nat, a: nat, b: nat) {
    && w < a <= b <= |text|
    && (forall j :: w <= j < a ==> IsSpace(text[j]))
    && (a == |text| || !IsSpace(text[a]))
    && (forall j :: a <= j < b ==> text[j] != '\n')
    && (b == |text| || text[b] == '\n')
  }

  /**
   * What a reported header looks like in the text: it starts a line; its level
   * is the number of leading `#`, between 1 and 6, and whitespace follows them;
   * its title is the title group of the match stripped.
   */
  ghost predicate WellFormed(text: string, h: Header) {
    && h.start < |text|
    && LineStart(text, h.start)
    && 1 <= h.level <= 6
    && h.start + h.level < |text|
    && (forall j :: h.start <= j < h.start + h.level ==> text[j] == '#')
    && IsSpace(text[h.start + h.level])
    && exists a: nat, b: nat :: TitleSpan(text, h.start + h.level, a, b) && h.title == Strip(text[a..b])
  }

  /** `h` is the header that the pattern matched at `h.start` yields. */
  predicate Matched(text: string, h: Header) {
    h.start <= |text| && MatchAt(text, h.start).Some? && MatchAt(text, h.start).value.header == h
  }

  /**
   * The pattern matches at `i` exactly when `i` starts a line and some 1 to 6
   * `#` there are followed by whitespace (backtracking `#{1,6}` to fewer
   * hashes never helps, since `\s` cannot match `#`); the header it yields is
   * well formed.
   */
  lemma MatchAtSpec(text: string, i: nat)
    requires i <= |text|
    ensures MatchAt(text, i).Some? <==> LineStart(text, i) && exists n :: HashesThenSpace(text, i, n)
    ensures MatchAt(text, i).Some? ==> WellFormed(text, MatchAt(text, i).value.header)
  {
    var r := RunLength(text, i, HashMark);
    RunLengthSpec(text, i, HashMark);
    if HeadingStart(text, i) {
      assert HashesThenSpace(text, i, r);
      HeadingWellFormed(text, i);
    } else {
      forall n | HashesThenSpace(text, i, n)
        ensures !LineStart(text, i)
      {
        HashRunUnique(text, i, r, i, n);
      }
    }
  }

  /** `n` hashes, 1 to 6 of them, start at `i` and whitespace follows them. */
  predicate HashesThenSpace(text: string, i: nat, n: nat) {
    && 1 <= n <= 6
    && i + n < |text|
    && (forall j :: i <= j < i + n ==> text[j] == '#')
    && IsSpace(text[i + n])
  }

  /**
   * A maximal run of `m` hashes from `p` and a run of `n` hashes from the same
   * place followed by whitespace have the same length.
   */
  lemma HashRunUnique(text: string, p: nat, m: nat, q: nat, n: nat)
    requires p + m <= |text| && q + n <= |text|
    requires forall j :: p <= j < p + m ==> text[j] == '#'
    requires p + m == |text| || text[p + m] != '#'
    requires forall j :: q <= j < q + n ==> text[j] == '#'
    ensures q == p && q + n < |text| && IsSpace(text[q + n]) ==> m == n
  {
  }

  /**
   * At a heading start, with `r` the `#` run, `a` the end of the whitespace
   * run after it and `b` the end of the line, the `#`s fill `[i, i + r)` and
   * the title span is `[a, b)`.
   */
  lemma HeadingParts(text: string, i: nat, r: nat, a: nat, b: nat)
    requires i <= |text| && HeadingStart(text, i) && r == RunLength(text, i, HashMark)
    requires a == i + r + RunLength(text, i + r, Whitespace) && b == a + RunLength(text, a, NotNewline)
    ensures forall j :: i <= j < i + r ==> text[j] == '#'
    ensures TitleSpan(text, i + r, a, b)
  {
    RunLengthSpec(text, i, HashMark);
    RunLengthSpec(text, i + r, Whitespace);
    RunLengthSpec(text, a, NotNewline);
  }

  /** At a heading start, the match spans the `#` run, the whitespace run and the rest of the line. */
  lemma MatchAtValue(text: string, i: nat, r: nat, a: nat, b: nat)
    requires i <= |text| && HeadingStart(text, i) && r == RunLength(text, i, HashMark)
    requires a == i + r + RunLength(text, i + r, Whitespace) && b == a + RunLength(text, a, NotNewline)
    ensures MatchAt(text, i) == Some(HeaderMatch(Header(r, Strip(text[a..b]), i), b))
  {
  }

  /** The header read at a heading start is well formed. */
  lemma HeadingWellFormed(text: string, i: nat)
    requires i <= |text| && HeadingStart(text, i)
    ensures MatchAt(text, i).Some? && WellFormed(text, MatchAt(text, i).value.header)
  {
    var r := RunLength(text, i, HashMark);
    var a := i + r + RunLength(text, i + r, Whitespace);
    var b := a + RunLength(text, a, NotNewline);
    var h := Header(r, Strip(text[a..b]), i);
    MatchAtValue(text, i, r, a, b);
    HeadingParts(text, i, r, a, b);
    PartsWellFormed(text, h, a, b);
  }

  /** A header assembled from a `#` run and a title span behind it is well formed. */
  lemma PartsWellFormed(text: string, h: Header, a: nat, b: nat)
    requires h.start < |text| && LineStart(text, h.start) && 1 <= h.level <= 6
    requires h.start + h.level < |text| && IsSpace(text[h.start + h.level])
    requires forall j :: h.start <= j < h.start + h.level ==> text[j] == '#'
    requires TitleSpan(text, h.start + h.level, a, b) && h.title == Strip(text[a..b])
    ensures WellFormed(text, h)
  {
  }

  /** A header yielded by a match is well formed. */
  lemma MatchedWellFormed(text: string, h: Header)
    requires Matched(text, h)
    ensures WellFormed(text, h)
  {
    MatchAtSpec(text, h.start);
  }

  /** The headers of `hs` have strictly increasing start offsets. */
  predicate StrictlyOrdered(hs: seq<Header>) {
    forall a, b :: 0 <= a < b < |hs| ==> hs[a].start < hs[b].start
  }

  /** The `k`-th header found from index `i` was yielded by a match at or after `i`. */
  lemma {:induction false} HeaderFromIsMatched(text: string, i: nat, k: nat)
    requires k < |HeadersFrom(text, i)|
    ensures Matched(text, HeadersFrom(text, i)[k]) && i <= HeadersFrom(text, i)[k].start
    decreases |text| - i
  {
    var m := MatchAt(text, i);
    if m.Some? {
      if k > 0 {
        HeaderFromIsMatched(text, m.value.end, k - 1);
      }
    } else {
      HeaderFromIsMatched(text, i + 1, k);
    }
  }

  /** Headers found from index `i` come in strictly increasing start order. */
  lemma {:induction false} HeadersFromOrdered(text: string, i: nat, a: nat, b: nat)
    requires a < b < |HeadersFrom(text, i)|
    ensures HeadersFrom(text, i)[a].start < HeadersFrom(text, i)[b].start
    decreases |text| - i
  {
    var m := MatchAt(text, i);
    if m.Some? {
      var rest := HeadersFrom(text, m.value.end);
      assert HeadersFrom(text, i) == [m.value.header] + rest;
      assert HeadersFrom(text, i)[b] == rest[b - 1];
      if a > 0 {
        assert HeadersFrom(text, i)[a] == rest[a - 1];
        HeadersFromOrdered(text, m.value.end, a - 1, b - 1);
      } else {
        assert HeadersFrom(text, i)[a].start == i;
        HeaderFromIsMatched(text, m.value.end, b - 1);
      }
    } else {
      assert HeadersFrom(text, i) == HeadersFrom(text, i + 1);
      HeadersFromOrdered(text, i + 1, a, b);
    }
  }

  /** Every header of `text` is well formed, and the list is strictly ordered by start offset. */
  lemma HeadersWellFormed(text: string)
    ensures forall k :: 0 <= k < |Headers(text)| ==> WellFormed(text, Headers(text)[k])
    ensures StrictlyOrdered(Headers(text))
  {
    forall k | 0 <= k < |Headers(text)| ensures WellFormed(text, Headers(text)[k]) {
      HeaderFromIsMatched(text, 0, k);
      MatchedWellFormed(text, Headers(text)[k]);
    }
    forall a, b | 0 <= a < b < |Headers(text)| ensures Headers(text)[a].start < Headers(text)[b].start {
      HeadersFromOrdered(text, 0, a, b);
    }
  }

  /** No match starting in `[i, p)` ends after `p`. */
  predicate NoMatchPast(text: string, i: nat, p: nat)
    requires p <= |text|
  {
    forall q :: i <= q < p && MatchAt(text, q).Some? ==> MatchAt(text, q).value.end <= p
  }

  /**
   * The scan from `i` reports the match at `p` when no match starting in
   * between runs past `p`.
   */
  lemma {:induction false} ScanFindsMatch(text: string, i: nat, p: nat)
    requires i <= p < |text| && MatchAt(text, p).Some? && NoMatchPast(text, i, p)
    ensures exists k :: 0 <= k < |HeadersFrom(text, i)| && HeadersFrom(text, i)[k] == MatchAt(text, p).value.header
    decreases p - i
  {
    var m := MatchAt(text, i);
    var h := MatchAt(text, p).value.header;
    if m.Some? {
      var rest := HeadersFrom(text, m.value.end);
      assert HeadersFrom(text, i) == [m.value.header] + rest;
      if i == p {
        assert HeadersFrom(text, i)[0] == h;
      } else {
        assert m.value.end <= p;
        ScanFindsMatch(text, m.value.end, p);
        var k :| 0 <= k < |rest| && rest[k] == h;
        assert HeadersFrom(text, i)[k + 1] == h;
      }
    } else {
      assert HeadersFrom(text, i) == HeadersFrom(text, i + 1);
      ScanFindsMatch(text, i + 1, p);
      var k :| 0 <= k < |HeadersFrom(text, i + 1)| && HeadersFrom(text, i + 1)[k] == h;
      assert HeadersFrom(text, i)[k] == h;
    }
  }

  /**
   * Every heading line is reported: a line that starts with 1 to 6 `#`
   * followed by whitespace yields a header of the text, unless an earlier
   * match runs past its start (the `\s+` of `"#\n# B"` takes the newline, so
   * that text has the single header "# B").
   */
  lemma HeadingReported(text: string, p: nat)
    requires p < |text| && LineStart(text, p) && exists n :: HashesThenSpace(text, p, n)
    requires NoMatchPast(text, 0, p)
    ensures MatchAt(text, p).Some?
    ensures exists k :: 0 <= k < |Headers(text)| && Headers(text)[k] == MatchAt(text, p).value.header
  {
    MatchAtSpec(text, p);
    ScanFindsMatch(text, 0, p);
    assert Headers(text) == HeadersFrom(text, 0);
  }

  /**
   * A line that starts with seven or more `#`, or with `#`s not followed by
   * whitespace, yields no header at its start: here the maximal run of `#` at
   * `p` is `m` long.
   */
  lemma NoHeaderWithoutSpaceOrTooDeep(text: string, p: nat, m: nat)
    requires 1 <= m && p + m <= |text|
    requires forall j :: p <= j < p + m ==> text[j] == '#'
    requires p + m == |text| || text[p + m] != '#'
    requires m >= 7 || p + m == |text| || !IsSpace(text[p + m])
    ensures forall k :: 0 <= k < |Headers(text)| ==> Headers(text)[k].start != p
  {
    HeadersWellFormed(text);
    forall k | 0 <= k < |Headers(text)| ensures Headers(text)[k].start != p {
      var h := Headers(text)[k];
      HashRunUnique(text, p, m, h.start, h.level);
    }
  }

  /** `extract_headers`: the `finditer` loop appending one header per match. */
  method ExtractHeaders(text: string) returns (headers: seq<Header>)
    ensures headers == Headers(text)
    ensures forall k :: 0 <= k < |headers| ==> WellFormed(text, headers[k])
    ensures StrictlyOrdered(headers)
  {
    headers := [];
    var i := 0;
    while i < |text|
      invariant i <= |text|
      invariant headers + HeadersFrom(text, i) == Headers(text)
      decreases |text| - i
    {
      var m := MatchAt(text, i);
      if m.Some? {
        headers := headers + [m.value.header];
        i := m.value.end;
      } else {
        i := i + 1;
      }
    }
    HeadersWellFormed(text);
  }

  // ---------------------------------------------------------------------------
  // assign_nearest_header
  // ---------------------------------------------------------------------------

  /**
   * Index of the header the loop of `assign_nearest_header` ends up holding:
   * a header replaces the current one when it starts at or before `chunkStart`
   * and strictly after the current one.
   */
  function NearestIndex(chunkStart: int, hs: seq<Header>): (r: Option<nat>)
    ensures r.Some? ==> r.value < |hs|
  {
    if hs == [] then None
    else
      var p := NearestIndex(chunkStart, hs[..|hs| - 1]);
      var last := hs[|hs| - 1];
      if last.start <= chunkStart && (p.None? || last.start > hs[p.value].start)
      then Some(|hs| - 1)
      else p
  }

  /** The title `assign_nearest_header` returns. */
  function NearestTitle(chunkStart: int, hs: seq<Header>): string {
    match NearestIndex(chunkStart, hs)
    case None => Untitled
    case Some(j) => hs[j].title
  }

  /**
   * The chosen header is the one with the greatest start not after
   * `chunkStart`, the first of them when several share that start; there is
   * none exactly when every header starts after `chunkStart`.
   */
  lemma {:induction false} NearestIndexSpec(chunkStart: int, hs: seq<Header>)
    ensures NearestIndex(chunkStart, hs).None? <==> forall k :: 0 <= k < |hs| ==> hs[k].start > chunkStart
    ensures NearestIndex(chunkStart, hs).Some? ==>
              var j := NearestIndex(chunkStart, hs).value;
              && hs[j].start <= chunkStart
              && (forall k :: 0 <= k < |hs| && hs[k].start <= chunkStart ==> hs[k].start <= hs[j].start)
              && (forall k :: 0 <= k < j ==> hs[k].start != hs[j].start)
  {
    if hs != [] {
      var init := hs[..|hs| - 1];
      NearestIndexSpec(chunkStart, init);
      assert forall k :: 0 <= k < |init| ==> init[k] == hs[k];
    }
  }

  /** No header starts before 0, so a negative chunk start (a chunk that was not found) is "Untitled". */
  lemma NegativeStartIsUntitled(chunkStart: int, hs: seq<Header>)
    requires chunkStart < 0
    ensures NearestTitle(chunkStart, hs) == Untitled
  {
    NearestIndexSpec(chunkStart, hs);
  }

  /** `assign_nearest_header`: the loop that keeps the best header seen so far. */
  method AssignNearestHeader(chunkStart: int, headers: seq<Header>) returns (title: string)
    ensures title == NearestTitle(chunkStart, headers)
  {
    var nearest: Option<Header> := None;
    for i := 0 to |headers|
      invariant nearest == match NearestIndex(chunkStart, headers[..i])
                           case None => None
                           case Some(j) => Some(headers[j])
    {
      assert headers[..i + 1][..i] == headers[..i];
      var header := headers[i];
      if header.start <= chunkStart {
        if nearest.None? || header.start > nearest.value.start {
          nearest := Some(header);
        }
      }
    }
    assert headers[..|headers|] == headers;
    title := if nearest.Some? then nearest.value.title else Untitled;
  }

  // ---------------------------------------------------------------------------
  // chunk_and_annotate
  // ---------------------------------------------------------------------------

  /**
   * `last_idx` before chunk `k` is looked up: 0 at first, then the found offset
   * of the previous chunk plus its length (so `len(chunk) - 1` after a chunk
   * that was not found).
   */
  function LastIdx(text: string, splits: seq<string>, k: nat): int
    requires k <= |splits|
  {
    if k == 0 then 0
    else Find(text, splits[k - 1], LastIdx(text, splits, k - 1)) + |splits[k - 1]|
  }

  /** The offset `text.find(chunk, last_idx)` gives chunk `k`. */
  function ChunkOffset(text: string, splits: seq<string>, k: nat): int
    requires k < |splits|
  {
    Find(text, splits[k], LastIdx(text, splits, k))
  }

  /** The document `chunk_and_annotate` builds for chunk `k`. */
  function Annotation(text: string, url: string, urlPath: string, splits: seq<string>, k: nat): Document
    requires k < |splits|
  {
    Document(splits[k], url, k, NearestTitle(ChunkOffset(text, splits, k), Headers(text)), |splits[k]|, urlPath)
  }

  /**
   * A chunk's offset is its first occurrence at or after where the search
   * resumes, and then `last_idx` becomes offset plus length; a chunk with no
   * such occurrence gets -1 and the title "Untitled".
   */
  lemma ChunkOffsetSpec(text: string, url: string, urlPath: string, splits: seq<string>, k: nat)
    requires k < |splits|
    ensures var o := ChunkOffset(text, splits, k);
            var from := FindBegin(text, LastIdx(text, splits, k));
            && (o == -1 || (from <= o && OccursAt(text, splits[k], o)))
            && (forall j :: from <= j && (o == -1 || j < o) ==> !OccursAt(text, splits[k], j))
            && LastIdx(text, splits, k + 1) == o + |splits[k]|
            && (o == -1 ==> Annotation(text, url, urlPath, splits, k).title == Untitled)
  {
    if ChunkOffset(text, splits, k) == -1 {
      NegativeStartIsUntitled(-1, Headers(text));
    }
  }

  /**
   * `chunk_and_annotate` over the splitter's output `splits`: one document per
   * chunk, in order, with the chunk's text, `chunk_number` 0, 1, 2, ..., the
   * page URL as source, the chunk's length as size and the nearest heading as
   * title.
   */
  method ChunkAndAnnotate(text: string, url: string, urlPath: string, splits: seq<string>)
    returns (docs: seq<Document>)
    ensures |docs| == |splits|
    ensures forall k :: 0 <= k < |docs| ==>
              && docs[k].content == splits[k]
              && docs[k].chunkNumber == k
              && docs[k].source == url
              && docs[k].chunkSize == |splits[k]|
    ensures forall k :: 0 <= k < |docs| ==> docs[k] == Annotation(text, url, urlPath, splits, k)
  {
    var headers := ExtractHeaders(text);
    docs := [];
    var lastIdx := 0;
    for i := 0 to |splits|
      invariant |docs| == i
      invariant lastIdx == LastIdx(text, splits, i)
      invariant forall k :: 0 <= k < i ==> docs[k] == Annotation(text, url, urlPath, splits, k)
    {
      var chunk := splits[i];
      var idx := Find(text, chunk, lastIdx);
      var title := AssignNearestHeader(idx, headers);
      AnnotationStep(text, url, urlPath, splits, i, lastIdx, idx, title);
      lastIdx := idx + |chunk|;
      docs := docs + [Document(chunk, url, i, title, |chunk|, urlPath)];
    }
    forall k | 0 <= k < |docs|
      ensures docs[k].content == splits[k] && docs[k].chunkNumber == k
      ensures docs[k].source == url && docs[k].chunkSize == |splits[k]|
    {
      assert docs[k] == Annotation(text, url, urlPath, splits, k);
    }
  }

  /** One pass of the annotation loop computes chunk `i`'s document and the next `last_idx`. */
  lemma AnnotationStep(text: string, url: string, urlPath: string, splits: seq<string>, i: nat,
                       lastIdx: int, idx: int, title: string)
    requires i < |splits| && lastIdx == LastIdx(text, splits, i)
    requires idx == Find(text, splits[i], lastIdx) && title == NearestTitle(idx, Headers(text))
    ensures idx + |splits[i]| == LastIdx(text, splits, i + 1)
    ensures Document(splits[i], url, i, title, |splits[i]|, urlPath) == Annotation(text, url, urlPath, splits, i)
  {
  }

  /** `split_and_embed`: the same annotation with the arguments in the other order. */
  method SplitAndEmbed(url: string, content: string, urlPath: string, splits: seq<string>)
    returns (docs: seq<Document>)
    ensures |docs| == |splits|
    ensures forall k :: 0 <= k < |docs| ==> docs[k] == Annotation(content, url, urlPath, splits, k)
  {
    docs := ChunkAndAnnotate(content, url, urlPath, splits);
  }

  /**
   * With overlapping chunks (the splitter is configured with an overlap of 200
   * characters) the next chunk begins before the previous one ends, so a search
   * resuming at the previous END misses it. Here "# A\nxyz" is cut into
   * "# A\nxy" and "yz": the second chunk occurs at 5, after the first chunk's
   * start, yet its offset is -1 and it loses the heading "A" that precedes it.
   */
  lemma OverlapLosesHeading()
    ensures var text, splits := "# A\nxyz", ["# A\nxy", "yz"];
            && ChunkOffset(text, splits, 0) == 0
            && OccursAt(text, splits[1], 5)
            && ChunkOffset(text, splits, 1) == -1
            && Headers(text) == [Header(1, "A", 0)]
            && NearestTitle(5, Headers(text)) == "A"
            && Annotation(text, "u", "", splits, 1).title == Untitled
  {
    var text, splits := "# A\nxyz", ["# A\nxy", "yz"];
    assert text[0..6] == splits[0];
    assert text[5..7] == splits[1];
    assert LastIdx(text, splits, 1) == 6;
    ExampleHeaders();
    NegativeStartIsUntitled(-1, Headers(text));
  }

  /** The example text of `OverlapLosesHeading` has the one heading "A", at offset 0. */
  lemma ExampleHeaders()
    ensures Headers("# A\nxyz") == [Header(1, "A", 0)]
  {
    var text := "# A\nxyz";
    assert RunLength(text, 1, HashMark) == 0;
    assert RunLength(text, 2, Whitespace) == 0;
    assert RunLength(text, 1, Whitespace) == 1;
    assert RunLength(text, 3, NotNewline) == 0;
    assert RunLength(text, 2, NotNewline) == 1;
    assert text[2..3] == "A";
    assert Strip("A") == "A";
    assert MatchAt(text, 0) == Some(HeaderMatch(Header(1, "A", 0), 3));
    assert HeadersFrom(text, 3) == [] by {
      assert MatchAt(text, 3).None?;
      assert MatchAt(text, 4).None?;
      assert MatchAt(text, 5).None?;
      assert MatchAt(text, 6).None?;
    }
  }

  /**
   * The intended search: resume one character after the previous chunk's
   * offset, so that a chunk overlapping its predecessor is still found; when
   * a chunk is not found the search position stays where it was.
   */
  function SearchStart(text: string, splits: seq<string>, k: nat): (s: nat)
    requires k <= |splits|
  {
    if k == 0 then 0
    else
      var prev := SearchStart(text, splits, k - 1);
      var o := Find(text, splits[k - 1], prev);
      if o == -1 then prev else o + 1
  }

  /** The offset chunk `k` gets with the intended search. */
  function CorrectedOffset(text: string, splits: seq<string>, k: nat): int
    requires k < |splits|
  {
    Find(text, splits[k], SearchStart(text, splits, k))
  }

  /**
   * When the chunks occur in the text at strictly increasing positions `pos`
   * (however much they overlap), the intended search finds every chunk: at an
   * occurrence of its text no later than its own position.
   */
  lemma {:induction false} CorrectedFindsEveryChunk(text: string, splits: seq<string>, pos: seq<nat>, k: nat)
    requires |pos| == |splits|
    requires forall a :: 0 <= a < |splits| ==> OccursAt(text, splits[a], pos[a])
    requires forall a, b :: 0 <= a < b < |pos| ==> pos[a] < pos[b]
    requires k < |splits|
    ensures 0 <= SearchStart(text, splits, k) <= CorrectedOffset(text, splits, k) <= pos[k]
    ensures OccursAt(text, splits[k], CorrectedOffset(text, splits, k))
  {
    if k > 0 {
      CorrectedFindsEveryChunk(text, splits, pos, k - 1);
    }
  }

  // ---------------------------------------------------------------------------
  // hybrid_search
  // ---------------------------------------------------------------------------

  /** The keys of the documents in `s`. */
  function KeySet(s: seq<Document>): set<(string, nat)> {
    set d | d in s :: Key(d)
  }

  /** The documents of `s` whose key is not in `seen` and not held by an earlier document, in order. */
  function FirstOccurrences(s: seq<Document>, seen: set<(string, nat)>): seq<Document> {
    if s == [] then []
    else if Key(s[0]) in seen then FirstOccurrences(s[1..], seen)
    else [s[0]] + FirstOccurrences(s[1..], seen + {Key(s[0])})
  }

  /**
   * The result list of `hybrid_search`: first occurrences by key of the
   * concatenated lists, cut off once `k` are collected. The length test comes
   * after the first document, so a `k` below 1 behaves as 1.
   */
  function Merged(keywordResults: seq<Document>, vectorResults: seq<Document>, k: int): seq<Document> {
    var d := FirstOccurrences(keywordResults + vectorResults, {});
    var limit := if k < 1 then 1 else k;
    if limit < |d| then d[..limit] else d
  }

  /**
   * First occurrences carry pairwise distinct keys, none of them in `seen`,
   * and they cover every key of `s` outside `seen`.
   */
  lemma {:induction false} FirstOccurrencesKeys(s: seq<Document>, seen: set<(string, nat)>)
    ensures forall a, b :: 0 <= a < b < |FirstOccurrences(s, seen)| ==>
              Key(FirstOccurrences(s, seen)[a]) != Key(FirstOccurrences(s, seen)[b])
    ensures forall a :: 0 <= a < |FirstOccurrences(s, seen)| ==> Key(FirstOccurrences(s, seen)[a]) !in seen
    ensures KeySet(FirstOccurrences(s, seen)) == KeySet(s) - seen
  {
    if s != [] {
      var rest := s[1..];
      assert KeySet(s) == {Key(s[0])} + KeySet(rest) by {
        assert s == [s[0]] + rest;
      }
      if Key(s[0]) in seen {
        FirstOccurrencesKeys(rest, seen);
      } else {
        FirstOccurrencesKeys(rest, seen + {Key(s[0])});
        var f := FirstOccurrences(rest, seen + {Key(s[0])});
        assert FirstOccurrences(s, seen) == [s[0]] + f;
        assert KeySet([s[0]] + f) == {Key(s[0])} + KeySet(f) by {
          assert forall d :: d in [s[0]] + f <==> d == s[0] || d in f;
        }
      }
    }
  }

  /**
   * Each kept document is the first document of `s` with its key: it sits at
   * some index `i` of `s`, and no earlier document has that key.
   */
  lemma {:induction false} FirstOccurrencesAreFirst(s: seq<Document>, seen: set<(string, nat)>, j: nat)
    requires j < |FirstOccurrences(s, seen)|
    ensures exists i :: 0 <= i < |s| && s[i] == FirstOccurrences(s, seen)[j]
                        && forall i' :: 0 <= i' < i ==> Key(s[i']) != Key(s[i])
  {
    var rest := s[1..];
    if Key(s[0]) in seen {
      FirstOccurrencesAreFirst(rest, seen, j);
      var i :| 0 <= i < |rest| && rest[i] == FirstOccurrences(rest, seen)[j]
               && forall i' :: 0 <= i' < i ==> Key(rest[i']) != Key(rest[i]);
      FirstOccurrencesKeys(rest, seen);
      assert Key(rest[i]) !in seen by {
        assert FirstOccurrences(rest, seen)[j] == FirstOccurrences(s, seen)[j];
      }
      assert s[i + 1] == rest[i];
      forall i' | 0 <= i' < i + 1 ensures Key(s[i']) != Key(s[i + 1]) {
        if i' > 0 { assert s[i'] == rest[i' - 1]; }
      }
    } else if j == 0 {
      assert s[0] == FirstOccurrences(s, seen)[0];
    } else {
      var seen' := seen + {Key(s[0])};
      FirstOccurrencesAreFirst(rest, seen', j - 1);
      var i :| 0 <= i < |rest| && rest[i] == FirstOccurrences(rest, seen')[j - 1]
               && forall i' :: 0 <= i' < i ==> Key(rest[i']) != Key(rest[i]);
      FirstOccurrencesKeys(rest, seen');
      assert Key(rest[i]) != Key(s[0]);
      assert s[i + 1] == rest[i];
      forall i' | 0 <= i' < i + 1 ensures Key(s[i']) != Key(s[i + 1]) {
        if i' > 0 { assert s[i'] == rest[i' - 1]; }
      }
    }
  }

  /** The index of the first document of `s` with key `key`, or `|s|` when there is none. */
  function KeyIndex(s: seq<Document>, key: (string, nat)): (i: nat)
    ensures i <= |s|
    ensures i < |s| ==> Key(s[i]) == key
    ensures forall j :: 0 <= j < i ==> Key(s[j]) != key
  {
    if s == [] then 0
    else if Key(s[0]) == key then 0
    else 1 + KeyIndex(s[1..], key)
  }

  /** A key occurs in `s` exactly when its first index is inside `s`. */
  lemma KeyIndexFound(s: seq<Document>, key: (string, nat))
    ensures KeyIndex(s, key) < |s| <==> key in KeySet(s)
  {
    if key in KeySet(s) {
      var d :| d in s && Key(d) == key;
      var j :| 0 <= j < |s| && s[j] == d;
      assert KeyIndex(s, key) <= j;
    }
  }

  /**
   * First occurrences come in the order in which their keys first appear in
   * `s`: their first indices strictly increase.
   */
  lemma {:induction false} FirstOccurrencesOrder(s: seq<Document>, seen: set<(string, nat)>)
    ensures forall a, b :: 0 <= a < b < |FirstOccurrences(s, seen)| ==>
              KeyIndex(s, Key(FirstOccurrences(s, seen)[a])) < KeyIndex(s, Key(FirstOccurrences(s, seen)[b]))
  {
    if s != [] {
      var rest := s[1..];
      var k0 := Key(s[0]);
      var seen' := if k0 in seen then seen else seen + {k0};
      var f := FirstOccurrences(rest, seen');
      FirstOccurrencesOrder(rest, seen');
      FirstOccurrencesKeys(rest, seen');
      // every key kept from `rest` differs from the key of `s[0]`, so its index shifts by one
      assert forall c :: 0 <= c < |f| ==> KeyIndex(s, Key(f[c])) == 1 + KeyIndex(rest, Key(f[c]));
      if k0 !in seen {
        assert FirstOccurrences(s, seen) == [s[0]] + f;
        forall a, b | 0 <= a < b < |FirstOccurrences(s, seen)|
          ensures KeyIndex(s, Key(FirstOccurrences(s, seen)[a])) < KeyIndex(s, Key(FirstOccurrences(s, seen)[b]))
        {
          assert FirstOccurrences(s, seen)[b] == f[b - 1];
          if a > 0 {
            assert FirstOccurrences(s, seen)[a] == f[a - 1];
          }
        }
      }
    }
  }

  /** A list with pairwise distinct keys has as many keys as documents. */
  lemma {:induction false} DistinctKeysCount(d: seq<Document>)
    requires forall a, b :: 0 <= a < b < |d| ==> Key(d[a]) != Key(d[b])
    ensures |KeySet(d)| == |d|
  {
    if d != [] {
      var init := d[..|d| - 1];
      DistinctKeysCount(init);
      assert KeySet(d) == KeySet(init) + {Key(d[|d| - 1])} by {
        assert d == init + [d[|d| - 1]];
      }
      assert Key(d[|d| - 1]) !in KeySet(init);
    }
  }

  /**
   * The merged results carry pairwise distinct keys; there are `k` of them
   * (one when `k` is below 1) unless fewer distinct keys exist, and then one
   * per key; empty inputs give nothing.
   */
  lemma MergedKeys(keywordResults: seq<Document>, vectorResults: seq<Document>, k: int)
    ensures var r, all := Merged(keywordResults, vectorResults, k), keywordResults + vectorResults;
            && (forall a, b :: 0 <= a < b < |r| ==> Key(r[a]) != Key(r[b]))
            && |r| == (var limit := if k < 1 then 1 else k;
                       if limit < |KeySet(all)| then limit else |KeySet(all)|)
            && (all == [] ==> r == [])
  {
    var d := FirstOccurrences(keywordResults + vectorResults, {});
    FirstOccurrencesKeys(keywordResults + vectorResults, {});
    DistinctKeysCount(d);
  }

  /** Each merged result is the first document with its key in keyword-then-vector order. */
  lemma MergedFirst(keywordResults: seq<Document>, vectorResults: seq<Document>, k: int)
    ensures var r, all := Merged(keywordResults, vectorResults, k), keywordResults + vectorResults;
            forall j :: 0 <= j < |r| ==>
              exists i :: 0 <= i < |all| && all[i] == r[j]
                          && forall i' :: 0 <= i' < i ==> Key(all[i']) != Key(all[i])
  {
    var all := keywordResults + vectorResults;
    var r := Merged(keywordResults, vectorResults, k);
    forall j | 0 <= j < |r|
      ensures exists i :: 0 <= i < |all| && all[i] == r[j]
                          && forall i' :: 0 <= i' < i ==> Key(all[i']) != Key(all[i])
    {
      assert r[j] == FirstOccurrences(all, {})[j];
      FirstOccurrencesAreFirst(all, {}, j);
    }
  }

  /**
   * No key is skipped: a document of `s` that comes before the first
   * occurrence of the key of the `m`-th first occurrence has its key among the
   * first `m` first occurrences.
   */
  lemma FirstOccurrencesComplete(s: seq<Document>, m: nat, i: nat)
    requires 0 < m <= |FirstOccurrences(s, {})| && i < |s|
    requires i < KeyIndex(s, Key(FirstOccurrences(s, {})[m - 1]))
    ensures exists c :: 0 <= c < m && Key(FirstOccurrences(s, {})[c]) == Key(s[i])
  {
    var d := FirstOccurrences(s, {});
    var x := Key(s[i]);
    FirstOccurrencesKeys(s, {});
    assert x in KeySet(s);
    assert x in KeySet(d);
    var doc :| doc in d && Key(doc) == x;
    var c :| 0 <= c < |d| && d[c] == doc;
    assert KeyIndex(s, x) <= i;
    // a later first occurrence would have its key first appear after `i`
    FirstOccurrencesOrder(s, {});
    assert c < m;
  }

  /**
   * The merged results come in the order in which their keys first appear in
   * keyword-then-vector order, and none is skipped: every document before the
   * first occurrence of the last result's key has its key among the results.
   */
  lemma MergedOrder(keywordResults: seq<Document>, vectorResults: seq<Document>, k: int)
    ensures var r, all := Merged(keywordResults, vectorResults, k), keywordResults + vectorResults;
            && (forall a, b :: 0 <= a < b < |r| ==> KeyIndex(all, Key(r[a])) < KeyIndex(all, Key(r[b])))
            && (forall i :: 0 <= i < |all| && |r| > 0 && i < KeyIndex(all, Key(r[|r| - 1])) ==>
                  Key(all[i]) in KeySet(r))
  {
    var all := keywordResults + vectorResults;
    var d := FirstOccurrences(all, {});
    var r := Merged(keywordResults, vectorResults, k);
    assert |r| <= |d| && forall j :: 0 <= j < |r| ==> r[j] == d[j];
    FirstOccurrencesOrder(all, {});
    forall i | 0 <= i < |all| && |r| > 0 && i < KeyIndex(all, Key(r[|r| - 1]))
      ensures Key(all[i]) in KeySet(r)
    {
      FirstOccurrencesComplete(all, |r|, i);
      var c :| 0 <= c < |r| && Key(d[c]) == Key(all[i]);
      assert r[c] in r;
    }
  }

  /**
   * One step of the merge loop: keeping `s[i]` and adding its key to `seen`
   * when the key is new keeps the kept list plus the first occurrences of
   * the rest equal to `d`.
   */
  lemma MergeStep(s: seq<Document>, i: nat, results: seq<Document>, seen: set<(string, nat)>, d: seq<Document>)
    requires i < |s| && seen == KeySet(results)
    requires results + FirstOccurrences(s[i..], seen) == d
    ensures var kept := if Key(s[i]) in seen then results else results + [s[i]];
            var seen' := if Key(s[i]) in seen then seen else seen + {Key(s[i])};
            && KeySet(kept) == seen'
            && kept + FirstOccurrences(s[i + 1..], seen') == d
  {
    assert s[i..] == [s[i]] + s[i + 1..];
    if Key(s[i]) !in seen {
      var kept := results + [s[i]];
      assert KeySet(kept) == KeySet(results) + {Key(s[i])} by {
        assert forall x :: x in kept <==> x in results || x == s[i];
      }
      assert kept + FirstOccurrences(s[i + 1..], seen + {Key(s[i])})
          == results + ([s[i]] + FirstOccurrences(s[i + 1..], seen + {Key(s[i])}));
    }
  }

  /**
   * `hybrid_search`'s merge loop over the two result lists (the similarity
   * searches themselves are outside the model): walk the concatenation, keep a
   * document whose key has not been seen, stop as soon as `k` are kept.
   */
  method HybridSearch(keywordResults: seq<Document>, vectorResults: seq<Document>, k: int)
    returns (results: seq<Document>)
    ensures results == Merged(keywordResults, vectorResults, k)
  {
    var all := keywordResults + vectorResults;
    ghost var d := FirstOccurrences(all, {});
    var seen: set<(string, nat)> := {};
    results := [];
    var i := 0;
    while i < |all|
      invariant i <= |all|
      invariant seen == KeySet(results)
      invariant results + FirstOccurrences(all[i..], seen) == d
      invariant i == 0 ==> results == []
      invariant i > 0 ==> |results| < k
    {
      var doc := all[i];
      var key := Key(doc);
      MergeStep(all, i, results, seen, d);
      if key !in seen {
        results := results + [doc];
        seen := seen + {key};
      }
      i := i + 1;
      if |results| >= k {
        MergedPrefix(keywordResults, vectorResults, k, results, FirstOccurrences(all[i..], seen));
        break;
      }
    }
    if i == |all| {
      assert all[i..] == [];
    }
  }

  /** Once the kept list reaches the limit, it is the merged result. */
  lemma MergedPrefix(keywordResults: seq<Document>, vectorResults: seq<Document>, k: int,
                     results: seq<Document>, rest: seq<Document>)
    requires results + rest == FirstOccurrences(keywordResults + vectorResults, {})
    requires |results| == (if k < 1 then 1 else k)
    ensures Merged(keywordResults, vectorResults, k) == results
  {
    assert (results + rest)[..|results|] == results;
  }
}
