/**
 * The browser-driven novel spider of advanced_biquge_spider.py: search
 * results that need every element present, the shared resume and retry
 * logic for one chapter (without stripping the chapter text), a download
 * that saves progress every ten chapters, and the merge of the chapter
 * files in the order info.json lists the chapters.
 *
 * The browser is left out: what the selectors found, what each attempt
 * of a chapter found (`fetched`) and whether its chapter-file write
 * succeeded (`writes`), the files present and their contents
 * (`files`, `read`) are parameters.
 */
module AdvancedBiqugeSpider {
  import opened Base
  import opened NovelCommon

  // ------------------------------------------------------------ search results

  /**
   * What `find_element` found in one `.result-item`: the title link (text
   * and href), the four info spans by position, and the description; None
   * where NoSuchElementException was raised.
   */
  datatype ItemElements = ItemElements(link: Option<(string, string)>, author: Option<string>,
                                       category: Option<string>, status: Option<string>,
                                       updateTime: Option<string>, description: Option<string>)

  /**
   * One item of `search_novel`'s loop: with every element present the
   * span labels are removed (nothing is stripped); a missing element skips
   * the item.
   */
  function ParseElements(e: ItemElements): (r: Option<SearchHit>)
    ensures r.Some? <==> e.link.Some? && e.author.Some? && e.category.Some? && e.status.Some?
                          && e.updateTime.Some? && e.description.Some?
    ensures r.Some? ==> r.value.title == e.link.value.0 && r.value.url == e.link.value.1
                        && r.value.description == e.description.value
  {
    if e.link.Some? && e.author.Some? && e.category.Some? && e.status.Some? && e.updateTime.Some?
       && e.description.Some?
    then
      Some(SearchHit(e.link.value.0, e.link.value.1,
                     RemoveAll(e.author.value, "作者："), RemoveAll(e.category.value, "分类："),
                     RemoveAll(e.status.value, "状态："), RemoveAll(e.updateTime.value, "更新："),
                     e.description.value))
    else None
  }

  // ------------------------------------------------------------ merge_novel

  /** What info.json holds that merging uses. */
  datatype SavedInfo = SavedInfo(title: string, author: string, description: string, chapters: seq<Chapter>)

  /** The three header lines and the blank line `merge_novel` writes first. */
  function MergeHeader(info: SavedInfo): string {
    "书名：" + info.title + "\n" + "作者：" + info.author + "\n" + "简介：" + info.description + "\n\n"
  }

  /** The chapters whose file exists, in info order. */
  function PresentChapters(chs: seq<Chapter>, files: set<string>): seq<Chapter> {
    if chs == [] then []
    else
      var n := |chs| - 1;
      PresentChapters(chs[..n], files) + (if ChapterFile(chs[n].title) in files then [chs[n]] else [])
  }

  /** One chapter's block of the merged file. */
  function Block(ch: Chapter, read: string -> string): string {
    "\n" + read(ChapterFile(ch.title)) + "\n\n"
  }

  /** The blocks of the given chapters, one after another. */
  function Blocks(chs: seq<Chapter>, read: string -> string): string {
    if chs == [] then "" else Blocks(chs[..|chs| - 1], read) + Block(chs[|chs| - 1], read)
  }

  // ------------------------------------------------------------ the spider

  class AdvancedSpider {
    var downloaded: set<string>
    const maxWorkers: int
    const timeout: int

    constructor (maxWorkers: int, timeout: int)
      ensures downloaded == {}
      ensures this.maxWorkers == maxWorkers && this.timeout == timeout
    {
      downloaded := {};
      this.maxWorkers, this.timeout := maxWorkers, timeout;
    }

    /** `search_novel(keyword)` once the result items are found. */
    method SearchNovel(items: seq<ItemElements>) returns (results: seq<SearchHit>)
      ensures results == FilterMap(items, ParseElements)
    {
      results := [];
      for i := 0 to |items|
        invariant results == FilterMap(items[..i], ParseElements)
      {
        assert items[..i + 1][..i] == items[..i];
        var hit := ParseElements(items[i]);
        if hit.Some? {
          results := results + [hit.value];
        }
      }
      assert items[..|items|] == items;
    }

    /**
     * `download_chapter(chapter_info, novel_dir, retry)` for the chapter at
     * position `pos`, with `files` the chapter files present. The page text
     * is cleaned without stripping it first.
     */
    method DownloadChapter(ch: Chapter, files: set<string>, pos: nat,
                           fetched: (nat, nat) -> Option<string>, writes: (nat, nat) -> bool, retry: nat)
      returns (r: ChapterResult, files': set<string>)
      modifies this
      ensures (r, Resume(downloaded, files')) ==
              ChapterOutcome(ch, Resume(old(downloaded), files), pos, fetched, writes, retry, false)
    {
      if ch.url in downloaded {
        return ChapterResult(ch.title, "", true), files;
      }
      if ChapterFile(ch.title) in files {
        downloaded := downloaded + {ch.url};
        return ChapterResult(ch.title, "", true), files;
      }
      var attempt := 0;
      while attempt < retry
        invariant 0 <= attempt <= retry
        invariant FirstContent(Saved(fetched, writes), pos, attempt, retry) == FirstContent(Saved(fetched, writes), pos, 0, retry)
        invariant downloaded == old(downloaded)
      {
        var page := fetched(pos, attempt);
        if page.Some? {
          var content := CleanChapterText(page.value);
          if writes(pos, attempt) {
            files' := files + {ChapterFile(ch.title)};
            downloaded := downloaded + {ch.url};
            return ChapterResult(ch.title, content, true), files';
          }
        }
        attempt := attempt + 1;
      }
      return ChapterResult(ch.title, "", false), files;
    }

    /**
     * `download_novel(novel_info, start_chapter, end_chapter)`: `saved` is
     * the `downloaded_chapters` list of an existing progress.json, `saves`
     * the values of `completed` at which progress.json is written.
     */
    method DownloadNovel(chapters: seq<Chapter>, start: int, end: Option<int>, saved: Option<set<string>>,
                         files: set<string>, fetched: (nat, nat) -> Option<string>, writes: (nat, nat) -> bool)
      returns (results: seq<ChapterResult>, files': set<string>, saves: seq<nat>, success: nat, fail: int)
      modifies this
      ensures var from := if saved.Some? then saved.value else old(downloaded);
              var run := DownloadRun(DownloadRange(chapters, start, end), Resume(from, files), fetched, writes,
                                     DefaultRetry, false);
              results == run.0 && downloaded == run.1.downloaded && files' == run.1.files
      ensures saves == Checkpoints(|results|, |results|)
      ensures success == CountOk(results) && fail == CountFailed(results)
    {
      if saved.Some? {
        downloaded := saved.value;
      }
      var todo := DownloadRange(chapters, start, end);
      var total := |todo|;
      ghost var from := downloaded;
      results, files', saves := [], files, [];
      var completed := 0;
      while completed < total
        invariant 0 <= completed <= total && |results| == completed
        invariant (results, Resume(downloaded, files')) ==
                  DownloadRun(todo[..completed], Resume(from, files), fetched, writes, DefaultRetry, false)
        invariant saves == Checkpoints(completed, total)
      {
        var r, f := DownloadChapter(todo[completed], files', completed, fetched, writes, DefaultRetry);
        assert todo[..completed + 1][..completed] == todo[..completed];
        results, files' := results + [r], f;
        completed := completed + 1;
        if completed % ProgressEvery == 0 || completed == total {
          saves := saves + [completed];
        }
      }
      assert todo[..completed] == todo;
      success, fail := CountResults(results);
    }

    /**
     * `merge_novel(novel_dir)`: None when info.json is missing; otherwise
     * the merged text, the header followed by the block of every chapter
     * whose file exists, in info order. `read(f)` is the content of file f.
     */
    method MergeNovel(info: Option<SavedInfo>, files: set<string>, read: string -> string)
      returns (text: Option<string>)
      ensures info.None? ==> text.None?
      ensures info.Some? ==>
                text == Some(MergeHeader(info.value) + Blocks(PresentChapters(info.value.chapters, files), read))
    {
      if info.None? {
        return None;
      }
      var chs := info.value.chapters;
      var blocks := "";
      for i := 0 to |chs|
        invariant blocks == Blocks(PresentChapters(chs[..i], files), read)
      {
        assert chs[..i + 1] == chs[..i] + [chs[i]];
        BlocksOfOneMore(chs[..i], chs[i], files, read);
        if ChapterFile(chs[i].title) in files {
          blocks := blocks + Block(chs[i], read);
        }
      }
      assert chs[..|chs|] == chs;
      return Some(MergeHeader(info.value) + blocks);
    }
  }

  // ------------------------------------------------------------ lemmas

  /**
   * The chapters merged are exactly the chapters whose file exists, and
   * merging keeps info order: the chapters of a longer list come after
   * those of its prefix.
   */
  lemma {:induction false} PresentChaptersSpec(chs: seq<Chapter>, more: seq<Chapter>, files: set<string>)
    ensures forall ch :: ch in PresentChapters(chs, files) <==> ch in chs && ChapterFile(ch.title) in files
    ensures PresentChapters(chs + more, files) == PresentChapters(chs, files) + PresentChapters(more, files)
    decreases |more|
  {
    if more != [] {
      var n := |more| - 1;
      assert (chs + more)[..|chs| + n] == chs + more[..n];
      PresentChaptersSpec(chs, more[..n], files);
    } else {
      assert chs + more == chs;
      PresentMembers(chs, files);
    }
  }

  lemma {:induction false} PresentMembers(chs: seq<Chapter>, files: set<string>)
    ensures forall ch :: ch in PresentChapters(chs, files) <==> ch in chs && ChapterFile(ch.title) in files
  {
    if chs != [] {
      var n := |chs| - 1;
      PresentMembers(chs[..n], files);
      assert chs == chs[..n] + [chs[n]];
    }
  }

  /**
   * A chapter whose file is missing adds nothing to the merged text, and
   * one whose file exists adds exactly its block at the end.
   */
  lemma BlocksOfOneMore(chs: seq<Chapter>, ch: Chapter, files: set<string>, read: string -> string)
    ensures ChapterFile(ch.title) !in files ==>
              Blocks(PresentChapters(chs + [ch], files), read) == Blocks(PresentChapters(chs, files), read)
    ensures ChapterFile(ch.title) in files ==>
              Blocks(PresentChapters(chs + [ch], files), read)
                == Blocks(PresentChapters(chs, files), read) + Block(ch, read)
  {
    assert (chs + [ch])[..|chs|] == chs;
    var p := PresentChapters(chs, files);
    if ChapterFile(ch.title) in files {
      assert PresentChapters(chs + [ch], files) == p + [ch];
      assert (p + [ch])[..|p|] == p;
    } else {
      assert PresentChapters(chs + [ch], files) == p + [];
      assert p + [] == p;
    }
  }
}
