/**
 * The asynchronous novel spider of async_biquge_spider.py: a page fetch
 * that retries until a status-200 response, search results whose missing
 * info fields default to "未知", the shared resume and retry logic for one
 * chapter, and a download that runs the chapters in batches of fifty.
 *
 * The HTTP replies are parameters: `replies(i)` is what attempt i of one
 * `get_page` call gave, `fetched(pos, i)` what attempt i for the chapter
 * at position pos found (see NovelCommon.FirstContent), and `writes(pos, i)`
 * whether that attempt's chapter-file write succeeded.
 */
module AsyncBiqugeSpider {
  import opened Base
  import opened NovelCommon

  // ------------------------------------------------------------ search results

  /** The `.result-item-title a` element: its text and its href attribute, if any. */
  datatype Link = Link(text: string, href: Option<string>)

  /**
   * What the selectors found in one `.result-item`: the title link, the
   * texts of the `.result-item-info span` elements, and the description.
   */
  datatype ResultItem = ResultItem(title: Option<Link>, spans: seq<string>, desc: Option<string>)

  /** The i-th info span with its prefix removed and stripped, "未知" when there is no such span. */
  function SpanField(spans: seq<string>, i: nat, prefix: string): string
    requires |prefix| > 0
  {
    if i < |spans| then Strip(RemoveAll(spans[i], prefix)) else UnknownField
  }

  /**
   * One item of `search_novel`'s loop: an item without a title link or
   * without an href raises inside the try and is skipped (None). An info
   * span that is missing reads "未知" and a missing description reads "".
   */
  function ParseItem(item: ResultItem): (r: Option<SearchHit>)
    ensures r.Some? <==> item.title.Some? && item.title.value.href.Some?
    ensures r.Some? ==>
              && r.value.url == item.title.value.href.value
              && (|item.spans| < 1 ==> r.value.author == UnknownField)
              && (|item.spans| < 2 ==> r.value.category == UnknownField)
              && (|item.spans| < 3 ==> r.value.status == UnknownField)
              && (|item.spans| < 4 ==> r.value.updateTime == UnknownField)
              && (item.desc.None? ==> r.value.description == "")
  {
    match item.title
    case None => None
    case Some(link) =>
      match link.href
      case None => None
      case Some(url) =>
        Some(SearchHit(Strip(link.text), url,
                       SpanField(item.spans, 0, "作者："), SpanField(item.spans, 1, "分类："),
                       SpanField(item.spans, 2, "状态："), SpanField(item.spans, 3, "更新："),
                       if item.desc.Some? then Strip(item.desc.value) else ""))
  }

  // ------------------------------------------------------------ the spider

  class AsyncSpider {
    var downloaded: set<string>
    const maxConcurrency: int
    const timeout: int

    constructor (maxConcurrency: int, timeout: int)
      ensures downloaded == {}
      ensures this.maxConcurrency == maxConcurrency && this.timeout == timeout
    {
      downloaded := {};
      this.maxConcurrency, this.timeout := maxConcurrency, timeout;
    }

    /**
     * `get_page(session, url, retry)`: the body of the first status-200
     * reply among the first `retry` attempts, "" when there is none.
     */
    method GetPage(replies: nat -> Reply, retry: int) returns (text: string)
      ensures match FirstOk(replies, 0, retry)
              case Some(k) => text == replies(k).body
              case None => text == ""
    {
      var attempt := 0;
      while attempt < retry
        invariant FirstOk(replies, attempt, retry) == FirstOk(replies, 0, retry)
      {
        var reply := replies(attempt);
        if reply.Reply? && reply.status == 200 {
          return reply.body;
        }
        attempt := attempt + 1;
      }
      return "";
    }

    /** `search_novel(keyword)` once the search page `page` is fetched. */
    method SearchNovel(page: string, items: seq<ResultItem>) returns (results: seq<SearchHit>)
      ensures page == "" ==> results == []
      ensures page != "" ==> results == FilterMap(items, ParseItem)
    {
      if page == "" {
        return [];
      }
      results := [];
      for i := 0 to |items|
        invariant results == FilterMap(items[..i], ParseItem)
      {
        assert items[..i + 1][..i] == items[..i];
        var hit := ParseItem(items[i]);
        if hit.Some? {
          results := results + [hit.value];
        }
      }
      assert items[..|items|] == items;
    }

    /**
     * `download_chapter(session, chapter_info, novel_dir, retry)` for the
     * chapter at position `pos`, with `files` the chapter files present.
     */
    method DownloadChapter(ch: Chapter, files: set<string>, pos: nat,
                           fetched: (nat, nat) -> Option<string>, writes: (nat, nat) -> bool, retry: nat)
      returns (r: ChapterResult, files': set<string>)
      modifies this
      ensures (r, Resume(downloaded, files')) ==
              ChapterOutcome(ch, Resume(old(downloaded), files), pos, fetched, writes, retry, true)
    {
      if ch.url in downloaded {
        return ChapterResult(ch.title, "", true), files;
      }
      if ChapterFile(ch.title) in files {
        downloaded := downloaded + {ch.url};
        return ChapterResult(ch.title, "", true), files;
      }
      var attempt := 0;
      while attempt < retry
        invariant 0 <= attempt <= retry
        invariant FirstContent(Saved(fetched, writes), pos, attempt, retry) == FirstContent(Saved(fetched, writes), pos, 0, retry)
        invariant downloaded == old(downloaded)
      {
        var page := fetched(pos, attempt);
        if page.Some? {
          var content := CleanChapterText(Strip(page.value));
          if writes(pos, attempt) {
            files' := files + {ChapterFile(ch.title)};
            downloaded := downloaded + {ch.url};
            return ChapterResult(ch.title, content, true), files';
          }
        }
        attempt := attempt + 1;
      }
      return ChapterResult(ch.title, "", false), files;
    }

    /**
     * One batch of `download_novel`: the chapters from `|done|` up to
     * `batchEnd`, in task order, appended to the results so far.
     */
    method DownloadBatch(todo: seq<Chapter>, batchEnd: nat, ghost from: set<string>, files0: set<string>,
                         done: seq<ChapterResult>, files: set<string>, fetched: (nat, nat) -> Option<string>, writes: (nat, nat) -> bool)
      returns (results: seq<ChapterResult>, files': set<string>)
      requires |done| <= batchEnd <= |todo|
      requires (done, Resume(downloaded, files)) ==
               DownloadRun(todo[..|done|], Resume(from, files0), fetched, writes, DefaultRetry, true)
      modifies this
      ensures |results| == batchEnd
      ensures (results, Resume(downloaded, files')) ==
              DownloadRun(todo[..batchEnd], Resume(from, files0), fetched, writes, DefaultRetry, true)
    {
      results, files' := done, files;
      for j := |done| to batchEnd
        invariant |results| == j
        invariant (results, Resume(downloaded, files')) ==
                  DownloadRun(todo[..j], Resume(from, files0), fetched, writes, DefaultRetry, true)
      {
        var r, f := DownloadChapter(todo[j], files', j, fetched, writes, DefaultRetry);
        assert todo[..j + 1][..j] == todo[..j];
        results, files' := results + [r], f;
      }
    }

    /**
     * `download_novel(novel_info, start_chapter, end_chapter)`: `saved` is
     * the `downloaded_chapters` list of an existing progress.json, `marks`
     * the values of `completed` written after each batch of fifty.
     */
    method DownloadNovel(chapters: seq<Chapter>, start: int, end: Option<int>, saved: Option<set<string>>,
                         files: set<string>, fetched: (nat, nat) -> Option<string>, writes: (nat, nat) -> bool)
      returns (results: seq<ChapterResult>, files': set<string>, marks: seq<nat>, success: nat, fail: int)
      modifies this
      ensures var from := if saved.Some? then saved.value else old(downloaded);
              var run := DownloadRun(DownloadRange(chapters, start, end), Resume(from, files), fetched, writes,
                                     DefaultRetry, true);
              results == run.0 && downloaded == run.1.downloaded && files' == run.1.files
      ensures marks == BatchMarks(0, |results|)
      ensures success == CountOk(results) && fail == CountFailed(results)
    {
      if saved.Some? {
        downloaded := saved.value;
      }
      var todo := DownloadRange(chapters, start, end);
      var total := |todo|;
      ghost var from := downloaded;
      results, files', marks := [], files, [];
      var i := 0;
      while i < total
        invariant 0 <= i && |results| == IMin(i, total)
        invariant (results, Resume(downloaded, files')) ==
                  DownloadRun(todo[..|results|], Resume(from, files), fetched, writes, DefaultRetry, true)
        invariant marks + BatchMarks(i, total) == BatchMarks(0, total)
      {
        var batchEnd := IMin(i + BatchSize, total);
        results, files' := DownloadBatch(todo, batchEnd, from, files, results, files', fetched, writes);
        ghost var rest := BatchMarks(i + BatchSize, total);
        assert BatchMarks(i, total) == [batchEnd] + rest;
        assert marks + [batchEnd] + rest == marks + ([batchEnd] + rest);
        marks := marks + [batchEnd];
        i := i + BatchSize;
      }
      assert BatchMarks(i, total) == [];
      assert marks == BatchMarks(0, total);
      assert todo[..|results|] == todo;
      success, fail := CountResults(results);
    }
  }
}
