/**
 * The novel spider of biquge_with_proxy.py: every page request goes
 * through the proxy pool, checking out one proxy per attempt and reporting
 * it afterwards; chapters are downloaded with a resume set of finished
 * chapter URLs and progress is written every ten chapters.
 *
 * What a request returns is the parameter `request`: `request(i, p)` is
 * the body of attempt i when the request is made with proxy mapping p
 * (None: no proxies), or None when it raises. For chapter downloads,
 * `pages(pos, a)` is that parameter for the `get_page` call of attempt a
 * of the chapter at position pos, and `extract(html)` is the text of the
 * page's content element (None: there is none); `writes(pos, a)` is
 * whether that attempt's chapter-file write succeeded. The pool is
 * threaded through the chapters in download order.
 */
module BiqugeWithProxy {
  import opened Base
  import opened ProxyPool
  import opened NovelCommon

  /** The proxy a request is made with: `proxies` is None unless the checked-out proxy is truthy. */
  function ProxyArg(p: Option<string>): Option<string> {
    if Truthy(p) then p else None
  }

  /** The outcome of `get_page`: the body, the pool afterwards, and the proxy checked out by each attempt made. */
  datatype Fetched = Fetched(body: string, pool: PoolState, used: seq<Option<string>>)

  /** The pool's `get_proxy`, as the step each attempt of `get_page` takes. */
  function CheckoutStep(sources: seq<string>, valid: string -> bool,
                        fetch: string -> (seq<string>, seq<string>)): PoolState -> (Option<string>, PoolState)
  {
    s => Checkout(s, sources, valid, fetch)
  }

  /**
   * `get_page` from attempt `attempt` on: check out a proxy, request with
   * it, report it; the first success returns its body, and "" when every
   * attempt failed.
   */
  function ProxiedFetch(s: PoolState, checkout: PoolState -> (Option<string>, PoolState),
                        request: (nat, Option<string>) -> Option<string>,
                        attempt: nat, retry: nat): Fetched
    decreases retry - attempt
  {
    if attempt >= retry then Fetched("", s, [])
    else
      var (p, s1) := checkout(s);
      match request(attempt, ProxyArg(p))
      case Some(body) => Fetched(body, Report(s1, p, true), [p])
      case None =>
        var rest := ProxiedFetch(Report(s1, p, false), checkout, request, attempt + 1, retry);
        Fetched(rest.body, rest.pool, [p] + rest.used)
  }

  /** The `retry` of `get_page` when `download_chapter` calls it. */
  const PageRetry := 3

  /**
   * One attempt of `download_chapter`: `get_page` from pool state s, then
   * the content element of a non-empty page. Gives what the attempt found
   * and the pool afterwards.
   */
  function ChapterAttempt(s: PoolState, checkout: PoolState -> (Option<string>, PoolState),
                          page: (nat, Option<string>) -> Option<string>,
                          extract: string -> Option<string>): (Option<string>, PoolState)
  {
    var f := ProxiedFetch(s, checkout, page, 0, PageRetry);
    (if f.body == "" then None else extract(f.body), f.pool)
  }

  /** The pool before attempt a of the chapter at pos, starting from s before attempt 0. */
  function PoolBefore(s: PoolState, checkout: PoolState -> (Option<string>, PoolState),
                      pages: (nat, nat) -> (nat, Option<string>) -> Option<string>,
                      extract: string -> Option<string>, pos: nat, a: nat): PoolState
  {
    if a == 0 then s
    else ChapterAttempt(PoolBefore(s, checkout, pages, extract, pos, a - 1), checkout, pages(pos, a - 1), extract).1
  }

  /** What each attempt of a chapter download finds, each attempt seeing the pool the previous one left. */
  function Found(s: PoolState, checkout: PoolState -> (Option<string>, PoolState),
                 pages: (nat, nat) -> (nat, Option<string>) -> Option<string>,
                 extract: string -> Option<string>): (nat, nat) -> Option<string>
  {
    (pos: nat, a: nat) => ChapterAttempt(PoolBefore(s, checkout, pages, extract, pos, a), checkout, pages(pos, a), extract).0
  }

  /**
   * How many attempts from `from` on are made: up to and including the
   * first that succeeds, `saved(pos, a)` being Some for an attempt that
   * found content and wrote the chapter file (NovelCommon.Saved).
   */
  function AttemptsMade(saved: (nat, nat) -> Option<string>, pos: nat, from: nat, retry: nat): nat
    decreases retry - from
  {
    if from >= retry then from
    else if saved(pos, from).Some? then from + 1
    else AttemptsMade(saved, pos, from + 1, retry)
  }

  /**
   * `download_chapter` with the pool: the result and resume state are
   * `ChapterOutcome` over what the attempts find and whether their writes
   * succeed; a skipped chapter leaves the pool alone, otherwise the pool is
   * the one the attempts made left.
   */
  function ProxiedChapter(ch: Chapter, st: Resume, s: PoolState, pos: nat,
                          checkout: PoolState -> (Option<string>, PoolState),
                          pages: (nat, nat) -> (nat, Option<string>) -> Option<string>,
                          extract: string -> Option<string>, writes: (nat, nat) -> bool, retry: nat): (ChapterResult, Resume, PoolState)
  {
    var found := Found(s, checkout, pages, extract);
    var (r, st2) := ChapterOutcome(ch, st, pos, found, writes, retry, true);
    var s2 := if ch.url in st.downloaded || ChapterFile(ch.title) in st.files then s
              else PoolBefore(s, checkout, pages, extract, pos, AttemptsMade(Saved(found, writes), pos, 0, retry));
    (r, st2, s2)
  }

  /** `download_novel`'s chapter loop with the pool: every chapter in order, each seeing the resume state and pool the previous left. */
  function ProxiedRun(chs: seq<Chapter>, st: Resume, s: PoolState,
                      checkout: PoolState -> (Option<string>, PoolState),
                      pages: (nat, nat) -> (nat, Option<string>) -> Option<string>,
                      extract: string -> Option<string>, writes: (nat, nat) -> bool, retry: nat): (seq<ChapterResult>, Resume, PoolState)
  {
    if chs == [] then ([], st, s)
    else
      var n := |chs| - 1;
      var prev := ProxiedRun(chs[..n], st, s, checkout, pages, extract, writes, retry);
      var last := ProxiedChapter(chs[n], prev.1, prev.2, n, checkout, pages, extract, writes, retry);
      (prev.0 + [last.0], last.1, last.2)
  }

  class ProxySpider {
    var downloaded: set<string>
    const pool: Pool
    const maxWorkers: int
    const timeout: int

    constructor (maxWorkers: int, timeout: int)
      ensures downloaded == {} && fresh(pool)
      ensures pool.State() == PoolState([], {}, false)
      ensures pool.minProxies == DefaultMinProxies && pool.checkInterval == DefaultCheckInterval
      ensures this.maxWorkers == maxWorkers && this.timeout == timeout
    {
      downloaded := {};
      pool := new Pool(DefaultMinProxies, DefaultCheckInterval, DefaultTimeout);
      this.maxWorkers, this.timeout := maxWorkers, timeout;
    }

    /** `get_page(url, retry)`, for the page whose responses `request` describes. */
    method GetPage(retry: nat, valid: string -> bool, fetch: string -> (seq<string>, seq<string>),
                   request: (nat, Option<string>) -> Option<string>) returns (body: string)
      modifies pool
      ensures var r := ProxiedFetch(old(pool.State()), CheckoutStep(pool.sources, valid, fetch), request, 0, retry);
              body == r.body && pool.State() == r.pool
    {
      ghost var goal := ProxiedFetch(pool.State(), CheckoutStep(pool.sources, valid, fetch), request, 0, retry);
      var attempt := 0;
      while attempt < retry
        invariant 0 <= attempt <= retry
        invariant var r := ProxiedFetch(pool.State(), CheckoutStep(pool.sources, valid, fetch), request, attempt, retry);
                  goal.body == r.body && goal.pool == r.pool
      {
        var proxy := pool.GetProxy(valid, fetch);
        var proxies := if proxy.Some? && proxy.value != "" then proxy else None;
        var response := request(attempt, proxies);
        if response.Some? {
          if proxy.Some? && proxy.value != "" {
            pool.ReportProxy(proxy, true);
          }
          return response.value;
        }
        if proxy.Some? && proxy.value != "" {
          pool.ReportProxy(proxy, false);
        }
        attempt := attempt + 1;
      }
      return "";
    }

    /**
     * `download_chapter` for the chapter at position `pos` of the download,
     * with `files` the chapter files present in the novel directory; every
     * attempt fetches the page through `get_page` and so through the pool.
     */
    method DownloadChapter(ch: Chapter, files: set<string>, pos: nat, valid: string -> bool,
                           fetch: string -> (seq<string>, seq<string>),
                           pages: (nat, nat) -> (nat, Option<string>) -> Option<string>,
                           extract: string -> Option<string>, writes: (nat, nat) -> bool, retry: nat)
      returns (r: ChapterResult, files': set<string>)
      modifies this, pool
      ensures (r, Resume(downloaded, files'), pool.State()) ==
              ProxiedChapter(ch, Resume(old(downloaded), files), old(pool.State()), pos,
                             CheckoutStep(pool.sources, valid, fetch), pages, extract, writes, retry)
    {
      if ch.url in downloaded {
        return ChapterResult(ch.title, "", true), files;
      }
      if ChapterFile(ch.title) in files {
        downloaded := downloaded + {ch.url};
        return ChapterResult(ch.title, "", true), files;
      }
      ghost var s0 := pool.State();
      ghost var checkout := CheckoutStep(pool.sources, valid, fetch);
      ghost var found := Found(s0, checkout, pages, extract);
      var attempt := 0;
      while attempt < retry
        invariant 0 <= attempt <= retry
        invariant FirstContent(Saved(found, writes), pos, attempt, retry) == FirstContent(Saved(found, writes), pos, 0, retry)
        invariant AttemptsMade(Saved(found, writes), pos, attempt, retry) == AttemptsMade(Saved(found, writes), pos, 0, retry)
        invariant pool.State() == PoolBefore(s0, checkout, pages, extract, pos, attempt)
        invariant downloaded == old(downloaded)
      {
        var html := GetPage(PageRetry, valid, fetch, pages(pos, attempt));
        var content := if html == "" then None else extract(html);
        assert found(pos, attempt) == content;
        assert pool.State() == PoolBefore(s0, checkout, pages, extract, pos, attempt + 1);
        if content.Some? {
          var text := CleanChapterText(Strip(content.value));
          if writes(pos, attempt) {
            files' := files + {ChapterFile(ch.title)};
            downloaded := downloaded + {ch.url};
            return ChapterResult(ch.title, text, true), files';
          }
        }
        attempt := attempt + 1;
      }
      return ChapterResult(ch.title, "", false), files;
    }

    /**
     * `download_novel`: `saved` is the `downloaded_chapters` list of an
     * existing progress.json, `saves` the values of `completed` at which
     * progress.json is written.
     */
    method DownloadNovel(chapters: seq<Chapter>, start: int, end: Option<int>, saved: Option<set<string>>,
                         files: set<string>, valid: string -> bool, fetch: string -> (seq<string>, seq<string>),
                         pages: (nat, nat) -> (nat, Option<string>) -> Option<string>,
                         extract: string -> Option<string>, writes: (nat, nat) -> bool, retry: nat)
      returns (results: seq<ChapterResult>, files': set<string>, saves: seq<nat>, success: nat, fail: int)
      modifies this, pool
      ensures var from := if saved.Some? then saved.value else old(downloaded);
              var run := ProxiedRun(DownloadRange(chapters, start, end), Resume(from, files), old(pool.State()),
                                    CheckoutStep(pool.sources, valid, fetch), pages, extract, writes, retry);
              results == run.0 && downloaded == run.1.downloaded && files' == run.1.files && pool.State() == run.2
      ensures saves == Checkpoints(|results|, |results|)
      ensures success == CountOk(results) && fail == CountFailed(results)
    {
      if saved.Some? {
        downloaded := saved.value;
      }
      var todo := DownloadRange(chapters, start, end);
      var total := |todo|;
      ghost var from := downloaded;
      ghost var s0 := pool.State();
      ghost var checkout := CheckoutStep(pool.sources, valid, fetch);
      results, files', saves := [], files, [];
      var completed := 0;
      while completed < total
        invariant 0 <= completed <= total && |results| == completed
        invariant (results, Resume(downloaded, files'), pool.State()) ==
                  ProxiedRun(todo[..completed], Resume(from, files), s0, checkout, pages, extract, writes, retry)
        invariant saves == Checkpoints(completed, total)
      {
        ProxiedRunStep(todo, completed, Resume(from, files), s0, checkout, pages, extract, writes, retry);
        var r, f := DownloadChapter(todo[completed], files', completed, valid, fetch, pages, extract, writes, retry);
        results, files' := results + [r], f;
        completed := completed + 1;
        if completed % ProgressEvery == 0 || completed == total {
          saves := saves + [completed];
        }
      }
      assert todo[..completed] == todo;
      success, fail := CountResults(results);
    }
  }

  // One more chapter of a run: the run so far, then that chapter from the state it left.
  lemma ProxiedRunStep(chs: seq<Chapter>, i: nat, st: Resume, s: PoolState,
                       checkout: PoolState -> (Option<string>, PoolState),
                       pages: (nat, nat) -> (nat, Option<string>) -> Option<string>,
                       extract: string -> Option<string>, writes: (nat, nat) -> bool, retry: nat)
    requires i < |chs|
    ensures var prev := ProxiedRun(chs[..i], st, s, checkout, pages, extract, writes, retry);
            var last := ProxiedChapter(chs[i], prev.1, prev.2, i, checkout, pages, extract, writes, retry);
            ProxiedRun(chs[..i + 1], st, s, checkout, pages, extract, writes, retry) == (prev.0 + [last.0], last.1, last.2)
  {
    assert chs[..i + 1][..i] == chs[..i];
  }

  // ------------------------------------------------------------ lemmas: get_page

  /** `get_page` checks out one proxy per attempt and makes at most `retry - attempt` attempts. */
  lemma {:induction false} ProxiedFetchAttempts(s: PoolState, checkout: PoolState -> (Option<string>, PoolState),
                                                request: (nat, Option<string>) -> Option<string>,
                                                attempt: nat, retry: nat)
    requires attempt <= retry
    ensures var r := ProxiedFetch(s, checkout, request, attempt, retry);
            |r.used| <= retry - attempt && (attempt < retry <==> |r.used| > 0)
    decreases retry - attempt
  {
    if attempt < retry {
      var (p, s1) := checkout(s);
      if request(attempt, ProxyArg(p)).None? {
        ProxiedFetchAttempts(Report(s1, p, false), checkout, request, attempt + 1, retry);
      }
    }
  }

  /** Every attempt of `get_page` before the last one failed. */
  lemma {:induction false} ProxiedFetchEarlierFailed(s: PoolState, checkout: PoolState -> (Option<string>, PoolState),
                                                     request: (nat, Option<string>) -> Option<string>,
                                                     attempt: nat, retry: nat)
    ensures var r := ProxiedFetch(s, checkout, request, attempt, retry);
            forall k :: 0 <= k < |r.used| - 1 ==> request(attempt + k, ProxyArg(r.used[k])).None?
    decreases retry - attempt
  {
    if attempt < retry {
      var (p, s1) := checkout(s);
      if request(attempt, ProxyArg(p)).None? {
        ProxiedFetchEarlierFailed(Report(s1, p, false), checkout, request, attempt + 1, retry);
        var rest := ProxiedFetch(Report(s1, p, false), checkout, request, attempt + 1, retry);
        var r := ProxiedFetch(s, checkout, request, attempt, retry);
        assert r.used == [p] + rest.used;
        assert var r' := ProxiedFetch(Report(s1, p, false), checkout, request, attempt + 1, retry);
               forall k :: 0 <= k < |r'.used| - 1 ==> request(attempt + 1 + k, ProxyArg(r'.used[k])).None?;
        forall k | 0 <= k < |r.used| - 1
          ensures request(attempt + k, ProxyArg(r.used[k])).None?
        {
          if k > 0 {
            assert r.used[k] == rest.used[k - 1];
          }
        }
      }
    }
  }

  /**
   * The last attempt decides: its body is returned when it succeeded, and
   * then a truthy proxy that served it is back at the end of the queue;
   * when it failed, all `retry` attempts were used and the result is "".
   */
  lemma {:induction false} ProxiedFetchLast(s: PoolState, checkout: PoolState -> (Option<string>, PoolState),
                                            request: (nat, Option<string>) -> Option<string>,
                                            attempt: nat, retry: nat)
    requires attempt < retry
    ensures var r := ProxiedFetch(s, checkout, request, attempt, retry);
            && |r.used| > 0
            && var last := request(attempt + |r.used| - 1, ProxyArg(r.used[|r.used| - 1]));
            && (last.Some? ==> r.body == last.value)
            && (last.None? ==> r.body == "" && |r.used| == retry - attempt)
            && (last.Some? && Truthy(r.used[|r.used| - 1]) ==>
                  |r.pool.queue| > 0 && r.pool.queue[|r.pool.queue| - 1] == r.used[|r.used| - 1].value)
    decreases retry - attempt
  {
    var (p, s1) := checkout(s);
    if request(attempt, ProxyArg(p)).None? && attempt + 1 < retry {
      ProxiedFetchLast(Report(s1, p, false), checkout, request, attempt + 1, retry);
      var rest := ProxiedFetch(Report(s1, p, false), checkout, request, attempt + 1, retry);
      var r := ProxiedFetch(s, checkout, request, attempt, retry);
      assert r.used == [p] + rest.used;
      assert r.used[|r.used| - 1] == rest.used[|rest.used| - 1];
    }
  }

  /** When every request fails, `get_page` uses all `retry` attempts and returns "". */
  lemma AllFailuresGiveEmptyPage(s: PoolState, checkout: PoolState -> (Option<string>, PoolState),
                                 request: (nat, Option<string>) -> Option<string>, retry: nat)
    requires forall i, p :: request(i, p).None?
    ensures ProxiedFetch(s, checkout, request, 0, retry).body == ""
    ensures |ProxiedFetch(s, checkout, request, 0, retry).used| == retry
  {
    if retry > 0 {
      ProxiedFetchLast(s, checkout, request, 0, retry);
    }
  }

  /**
   * The consumer protocol keeps the pool well formed: reporting the proxy
   * just checked out, whatever the outcome, leaves no duplicate in the
   * queue and nothing queued that is not known.
   */
  lemma CheckoutReportKeepsWellFormed(s: PoolState, sources: seq<string>, valid: string -> bool,
                                      fetch: string -> (seq<string>, seq<string>), success: bool)
    requires WellFormed(s)
    ensures var (p, s1) := Checkout(s, sources, valid, fetch);
            WellFormed(Report(s1, p, success))
  {
    var t := if s.queue == [] && !s.updating then Refill(s, sources, valid, fetch) else s;
    if s.queue == [] && !s.updating {
      RefillPreservesWellFormed(s, sources, valid, fetch);
    }
    if t.queue != [] {
      assert Checkout(s, sources, valid, fetch) == Checkout(t, sources, valid, fetch);
      if success {
        CheckoutSuccessRotates(t, sources, valid, fetch);
      } else {
        CheckoutFailureRetires(t, sources, valid, fetch);
      }
    }
  }

  /** `get_page` keeps a well-formed pool well formed. */
  lemma {:induction false} ProxiedFetchKeepsWellFormed(s: PoolState, sources: seq<string>, valid: string -> bool,
                                                       fetch: string -> (seq<string>, seq<string>),
                                                       request: (nat, Option<string>) -> Option<string>,
                                                       attempt: nat, retry: nat)
    requires WellFormed(s)
    ensures WellFormed(ProxiedFetch(s, CheckoutStep(sources, valid, fetch), request, attempt, retry).pool)
    decreases retry - attempt
  {
    if attempt < retry {
      var (p, s1) := Checkout(s, sources, valid, fetch);
      CheckoutReportKeepsWellFormed(s, sources, valid, fetch, true);
      CheckoutReportKeepsWellFormed(s, sources, valid, fetch, false);
      if request(attempt, ProxyArg(p)).None? {
        ProxiedFetchKeepsWellFormed(Report(s1, p, false), sources, valid, fetch, request, attempt + 1, retry);
      }
    }
  }

  // ------------------------------------------------------------ lemmas: chapters through the pool

  /**
   * The attempts of a chapter from `from` on: at most `retry`, at least one
   * when any is left, all but the last failed, and the first success is the
   * last attempt's; with no success every attempt was made.
   */
  lemma {:induction false} AttemptsMadeSpec(saved: (nat, nat) -> Option<string>, pos: nat, from: nat, retry: nat)
    requires from <= retry
    ensures var k := AttemptsMade(saved, pos, from, retry);
            && from <= k <= retry && (from < retry ==> from < k)
            && (forall j :: from <= j < k - 1 ==> saved(pos, j).None?)
            && (FirstContent(saved, pos, from, retry).Some? <==> from < k && saved(pos, k - 1).Some?)
            && (FirstContent(saved, pos, from, retry).Some? ==> FirstContent(saved, pos, from, retry) == saved(pos, k - 1))
            && (FirstContent(saved, pos, from, retry).None? ==> k == retry)
    decreases retry - from
  {
    if from < retry && saved(pos, from).None? {
      AttemptsMadeSpec(saved, pos, from + 1, retry);
    }
  }

  /**
   * A chapter that is neither recorded nor on disk makes between one and
   * `retry` attempts through the pool: every attempt but the last found
   * nothing or failed to write the file, the chapter succeeds exactly when
   * the last one found content and wrote the file, and then returns the
   * cleaned text; a failure used every attempt, and the pool is the one
   * those attempts left.
   */
  lemma ProxiedChapterAttempts(ch: Chapter, st: Resume, s: PoolState, pos: nat,
                               checkout: PoolState -> (Option<string>, PoolState),
                               pages: (nat, nat) -> (nat, Option<string>) -> Option<string>,
                               extract: string -> Option<string>, writes: (nat, nat) -> bool, retry: nat)
    requires ch.url !in st.downloaded && ChapterFile(ch.title) !in st.files
    ensures var found := Found(s, checkout, pages, extract);
            var k := AttemptsMade(Saved(found, writes), pos, 0, retry);
            var out := ProxiedChapter(ch, st, s, pos, checkout, pages, extract, writes, retry);
            && k <= retry && (retry > 0 ==> k > 0)
            && (forall j :: 0 <= j < k - 1 ==> found(pos, j).None? || !writes(pos, j))
            && (out.0.ok <==> k > 0 && found(pos, k - 1).Some? && writes(pos, k - 1))
            && (k > 0 && found(pos, k - 1).Some? && writes(pos, k - 1) ==>
                  out.0.content == Cleaned(found(pos, k - 1).value, true))
            && (!out.0.ok ==> k == retry)
            && out.2 == PoolBefore(s, checkout, pages, extract, pos, k)
  {
    var found := Found(s, checkout, pages, extract);
    SavedAttempts(ch, st, pos, found, writes, retry);
  }

  // ProxiedChapterAttempts for any attempt outcomes, without the pool.
  lemma SavedAttempts(ch: Chapter, st: Resume, pos: nat, found: (nat, nat) -> Option<string>,
                      writes: (nat, nat) -> bool, retry: nat)
    requires ch.url !in st.downloaded && ChapterFile(ch.title) !in st.files
    ensures var k := AttemptsMade(Saved(found, writes), pos, 0, retry);
            var r := ChapterOutcome(ch, st, pos, found, writes, retry, true).0;
            && k <= retry && (retry > 0 ==> k > 0)
            && (forall j :: 0 <= j < k - 1 ==> found(pos, j).None? || !writes(pos, j))
            && (r.ok <==> k > 0 && found(pos, k - 1).Some? && writes(pos, k - 1))
            && (k > 0 && found(pos, k - 1).Some? && writes(pos, k - 1) ==>
                  r.content == Cleaned(found(pos, k - 1).value, true))
            && (!r.ok ==> k == retry)
  {
    var saved := Saved(found, writes);
    var k := AttemptsMade(saved, pos, 0, retry);
    AttemptsMadeSpec(saved, pos, 0, retry);
    if k > 0 {
      SavedAt(found, writes, pos, k - 1);
    }
    forall j: nat | j + 1 < k
      ensures found(pos, j).None? || !writes(pos, j)
    {
      SavedAt(found, writes, pos, j);
    }
  }

  /**
   * When no attempt can write the chapter file (a title holding '/', say),
   * the chapter fails after all `retry` attempts, each of which fetched
   * the page through the pool again; nothing is recorded.
   */
  lemma UnwritableChapterDrainsAttempts(ch: Chapter, st: Resume, s: PoolState, pos: nat,
                                        checkout: PoolState -> (Option<string>, PoolState),
                                        pages: (nat, nat) -> (nat, Option<string>) -> Option<string>,
                                        extract: string -> Option<string>, writes: (nat, nat) -> bool, retry: nat)
    requires ch.url !in st.downloaded && ChapterFile(ch.title) !in st.files
    requires forall i :: 0 <= i < retry ==> !writes(pos, i)
    ensures ProxiedChapter(ch, st, s, pos, checkout, pages, extract, writes, retry)
         == (ChapterResult(ch.title, "", false), st, PoolBefore(s, checkout, pages, extract, pos, retry))
  {
    ProxiedChapterAttempts(ch, st, s, pos, checkout, pages, extract, writes, retry);
    UnwritableChapterFails(ch, st, pos, Found(s, checkout, pages, extract), writes, retry, true);
  }

  /** Every attempt of a chapter keeps a well-formed pool well formed. */
  lemma PoolBeforeKeepsWellFormed(s: PoolState, sources: seq<string>, valid: string -> bool,
                                  fetch: string -> (seq<string>, seq<string>),
                                  pages: (nat, nat) -> (nat, Option<string>) -> Option<string>,
                                  extract: string -> Option<string>, pos: nat, a: nat)
    requires WellFormed(s)
    ensures WellFormed(PoolBefore(s, CheckoutStep(sources, valid, fetch), pages, extract, pos, a))
  {
    var k := 0;
    PoolBeforeStartKeepsWellFormed(s, CheckoutStep(sources, valid, fetch), pages, extract, pos);
    while k < a
      invariant k <= a && WellFormed(PoolBefore(s, CheckoutStep(sources, valid, fetch), pages, extract, pos, k))
    {
      k := k + 1;
      PoolBeforeStepKeepsWellFormed(s, sources, valid, fetch, pages, extract, pos, k);
    }
  }

  // Before attempt 0 the pool is the one the chapter starts with.
  lemma PoolBeforeStartKeepsWellFormed(s: PoolState, checkout: PoolState -> (Option<string>, PoolState),
                                       pages: (nat, nat) -> (nat, Option<string>) -> Option<string>,
                                       extract: string -> Option<string>, pos: nat)
    requires WellFormed(s)
    ensures WellFormed(PoolBefore(s, checkout, pages, extract, pos, 0))
  {
  }

  // Attempt a - 1 keeps the pool well formed.
  lemma PoolBeforeStepKeepsWellFormed(s: PoolState, sources: seq<string>, valid: string -> bool,
                                      fetch: string -> (seq<string>, seq<string>),
                                      pages: (nat, nat) -> (nat, Option<string>) -> Option<string>,
                                      extract: string -> Option<string>, pos: nat, a: nat)
    requires a > 0 && WellFormed(PoolBefore(s, CheckoutStep(sources, valid, fetch), pages, extract, pos, a - 1))
    ensures WellFormed(PoolBefore(s, CheckoutStep(sources, valid, fetch), pages, extract, pos, a))
  {
    var checkout := CheckoutStep(sources, valid, fetch);
    var before := PoolBefore(s, checkout, pages, extract, pos, a - 1);
    ChapterAttemptKeepsWellFormed(before, sources, valid, fetch, pages(pos, a - 1), extract);
  }

  // One attempt: `get_page` keeps the pool well formed, whatever the page holds.
  lemma ChapterAttemptKeepsWellFormed(s: PoolState, sources: seq<string>, valid: string -> bool,
                                      fetch: string -> (seq<string>, seq<string>),
                                      page: (nat, Option<string>) -> Option<string>, extract: string -> Option<string>)
    requires WellFormed(s)
    ensures WellFormed(ChapterAttempt(s, CheckoutStep(sources, valid, fetch), page, extract).1)
  {
    ProxiedFetchKeepsWellFormed(s, sources, valid, fetch, page, 0, PageRetry);
  }

  /** A chapter download keeps a well-formed pool well formed. */
  lemma ProxiedChapterKeepsWellFormed(ch: Chapter, st: Resume, s: PoolState, pos: nat, sources: seq<string>,
                                      valid: string -> bool, fetch: string -> (seq<string>, seq<string>),
                                      pages: (nat, nat) -> (nat, Option<string>) -> Option<string>,
                                      extract: string -> Option<string>, writes: (nat, nat) -> bool, retry: nat)
    requires WellFormed(s)
    ensures WellFormed(ProxiedChapter(ch, st, s, pos, CheckoutStep(sources, valid, fetch), pages, extract, writes, retry).2)
  {
    var found := Found(s, CheckoutStep(sources, valid, fetch), pages, extract);
    PoolBeforeKeepsWellFormed(s, sources, valid, fetch, pages, extract, pos, AttemptsMade(Saved(found, writes), pos, 0, retry));
  }

  /** A whole `download_novel` keeps a well-formed pool well formed. */
  lemma {:induction false} ProxiedRunKeepsWellFormed(chs: seq<Chapter>, st: Resume, s: PoolState, sources: seq<string>,
                                                     valid: string -> bool, fetch: string -> (seq<string>, seq<string>),
                                                     pages: (nat, nat) -> (nat, Option<string>) -> Option<string>,
                                                     extract: string -> Option<string>, writes: (nat, nat) -> bool, retry: nat)
    requires WellFormed(s)
    ensures WellFormed(ProxiedRun(chs, st, s, CheckoutStep(sources, valid, fetch), pages, extract, writes, retry).2)
    decreases |chs|
  {
    if chs != [] {
      var n := |chs| - 1;
      ProxiedRunKeepsWellFormed(chs[..n], st, s, sources, valid, fetch, pages, extract, writes, retry);
      var prev := ProxiedRun(chs[..n], st, s, CheckoutStep(sources, valid, fetch), pages, extract, writes, retry);
      ProxiedChapterKeepsWellFormed(chs[n], prev.1, prev.2, n, sources, valid, fetch, pages, extract, writes, retry);
    }
  }

  /** A run through the pool keeps RunRecords from the resume state it starts with to the one it leaves. */
  lemma {:induction false} ProxiedRunSpec(chs: seq<Chapter>, st: Resume, s: PoolState,
                                          checkout: PoolState -> (Option<string>, PoolState),
                                          pages: (nat, nat) -> (nat, Option<string>) -> Option<string>,
                                          extract: string -> Option<string>, writes: (nat, nat) -> bool, retry: nat)
    ensures var (rs, st2, _) := ProxiedRun(chs, st, s, checkout, pages, extract, writes, retry);
            RunRecords(chs, rs, st.downloaded, st2.downloaded)
    decreases |chs|
  {
    if chs != [] {
      var n := |chs| - 1;
      var prev := ProxiedRun(chs[..n], st, s, checkout, pages, extract, writes, retry);
      ProxiedRunSpec(chs[..n], st, s, checkout, pages, extract, writes, retry);
      ChapterOutcomeSpec(chs[n], prev.1, n, Found(prev.2, checkout, pages, extract), writes, retry, true);
      var last := ProxiedChapter(chs[n], prev.1, prev.2, n, checkout, pages, extract, writes, retry);
      var outcome := ChapterOutcome(chs[n], prev.1, n, Found(prev.2, checkout, pages, extract), writes, retry, true);
      assert last.0 == outcome.0 && last.1 == outcome.1;
      assert ProxiedRun(chs, st, s, checkout, pages, extract, writes, retry) == (prev.0 + [last.0], last.1, last.2);
      RunRecordsStep(chs, prev.0, st.downloaded, prev.1.downloaded, last.0, last.1.downloaded);
    }
  }

  /**
   * Once a chapter has succeeded, downloading it again from the state left
   * behind checks out no proxy: the pool, whatever it is by then, is left
   * as it is, and nothing else changes.
   */
  lemma FinishedChapterSparesPool(ch: Chapter, st: Resume, s: PoolState, pos: nat,
                                  checkout: PoolState -> (Option<string>, PoolState),
                                  pages: (nat, nat) -> (nat, Option<string>) -> Option<string>,
                                  extract: string -> Option<string>, writes: (nat, nat) -> bool, retry: nat,
                                  later: PoolState, pos2: nat, pages2: (nat, nat) -> (nat, Option<string>) -> Option<string>,
                                  writes2: (nat, nat) -> bool)
    requires ProxiedChapter(ch, st, s, pos, checkout, pages, extract, writes, retry).0.ok
    ensures var st2 := ProxiedChapter(ch, st, s, pos, checkout, pages, extract, writes, retry).1;
            ProxiedChapter(ch, st2, later, pos2, checkout, pages2, extract, writes2, retry) ==
              (ChapterResult(ch.title, "", true), st2, later)
  {
    ChapterOutcomeSpec(ch, st, pos, Found(s, checkout, pages, extract), writes, retry, true);
  }
}
