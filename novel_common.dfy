/**
 * Chapter bookkeeping that the novel downloaders share: the interactive
 * "start-end" range input, the clamped chapter slice, the resume set of
 * finished chapter URLs, the per-chapter retry outcome, the progress
 * checkpoints and the success count. biquge_with_proxy.py,
 * async_biquge_spider.py and advanced_biquge_spider.py carry the same code
 * for each of these; the classes that model those files are proved against
 * the functions here.
 */
module NovelCommon {
  import opened Base

  datatype Chapter = Chapter(title: string, url: string)

  /** What `download_chapter` returns: (chapter title, content, success). */
  datatype ChapterResult = ChapterResult(title: string, content: string, ok: bool)

  /**
   * What a download resumes from: the chapter URLs recorded as finished
   * (`downloaded_chapters`) and the chapter files present in the novel
   * directory, by file name.
   */
  datatype Resume = Resume(downloaded: set<string>, files: set<string>)

  /** One search result as `search_novel` returns it. */
  datatype SearchHit = SearchHit(title: string, url: string, author: string, category: string,
                                 status: string, updateTime: string, description: string)

  const DefaultRetry := 3
  const ProgressEvery := 10
  const BatchSize := 50
  const UnknownField := "未知"

  function IMin(a: int, b: int): int { if a <= b then a else b }

  // ------------------------------------------------------------ range input

  /**
   * The range prompt of `interactive`: start defaults to 0 and end to None;
   * a non-blank answer is split at '-', "a-b" sets start a-1 and then end b,
   * "a" sets start a-1. When int() fails the values assigned so far stay.
   */
  function ParseRange(input: string): (int, Option<int>) {
    if Strip(input) == [] then (0, None) else RangeFromParts(Split(input, "-"))
  }

  /** The assignments made from the '-'-separated parts of a non-blank answer. */
  function RangeFromParts(parts: seq<string>): (int, Option<int>) {
    if |parts| == 2 then
      match ParseInt(parts[0])
      case None => (0, None)
      case Some(a) =>
        match ParseInt(parts[1])
        case None => (a - 1, None)
        case Some(b) => (a - 1, Some(b))
    else if |parts| == 1 then
      match ParseInt(parts[0])
      case None => (0, None)
      case Some(a) => (a - 1, None)
    else (0, None)
  }

  /** `end_chapter`: the chapter count when None, else at most the chapter count. */
  function EndBound(end: Option<int>, n: nat): int {
    if end.None? then n else IMin(end.value, n)
  }

  /** `chapters[start_chapter:end_chapter]` after the end is bounded. */
  function DownloadRange<T>(chapters: seq<T>, start: int, end: Option<int>): (r: seq<T>)
    ensures |r| <= |chapters|
    ensures 0 <= start && end.None? ==> r == chapters[IMin(start, |chapters|)..]
    ensures end.Some? && 0 <= start <= end.value ==>
              r == chapters[IMin(start, |chapters|)..IMin(end.value, |chapters|)]
    ensures end.Some? && 0 <= end.value <= start ==> r == []
  {
    PySlice(chapters, start, EndBound(end, |chapters|))
  }

  // ------------------------------------------------------------ one chapter

  const SiteMarkers: seq<string> := ["笔趣阁", "www.biquge.com"]
  const UrlMarker := "http://"

  /** The cleaning of `download_chapter`: whitespace runs become one newline, site markers go. */
  function CleanChapterText(text: string): string {
    RemoveMarkers(CollapseSpace(text, "\n"), SiteMarkers, UrlMarker)
  }

  /** The chapter text of an attempt, stripped first where the variant strips it. */
  function Cleaned(text: string, strip: bool): string {
    CleanChapterText(if strip then Strip(text) else text)
  }

  function ChapterFile(title: string): string {
    title + ".txt"
  }

  /**
   * The content text found by the first attempt in [from, retry) that got a
   * page with a content element. `fetched(pos, i)` is what attempt i for the
   * chapter at position pos found (None: empty page, no element, or an
   * exception).
   */
  function FirstContent(fetched: (nat, nat) -> Option<string>, pos: nat, from: nat, retry: nat): Option<string>
    decreases retry - from
  {
    if from >= retry then None
    else if fetched(pos, from).Some? then fetched(pos, from)
    else FirstContent(fetched, pos, from + 1, retry)
  }

  /**
   * What attempt i for the chapter at pos leaves behind: its content when
   * it found some and the chapter-file write that follows succeeded
   * (`writes(pos, i)`), None otherwise. The write sits inside the attempt's
   * `try`, so a write that raises fails the attempt like a missing page.
   */
  function Saved(fetched: (nat, nat) -> Option<string>, writes: (nat, nat) -> bool): (nat, nat) -> Option<string> {
    (pos: nat, i: nat) => if writes(pos, i) then fetched(pos, i) else None
  }

  // What Saved gives for one attempt.
  lemma SavedAt(fetched: (nat, nat) -> Option<string>, writes: (nat, nat) -> bool, pos: nat, i: nat)
    ensures Saved(fetched, writes)(pos, i) == if writes(pos, i) then fetched(pos, i) else None
  {
  }

  /**
   * `download_chapter`: a chapter whose URL is recorded is done; a chapter
   * whose file exists is recorded and done; otherwise up to `retry`
   * attempts, and the first that finds content and writes the file records
   * the URL. `writes(pos, i)` is whether attempt i's write succeeds; the
   * file is opened under the unsanitised title, so a title holding '/'
   * makes every write raise.
   */
  function ChapterOutcome(ch: Chapter, st: Resume, pos: nat,
                          fetched: (nat, nat) -> Option<string>, writes: (nat, nat) -> bool,
                          retry: nat, strip: bool): (ChapterResult, Resume)
  {
    if ch.url in st.downloaded then (ChapterResult(ch.title, "", true), st)
    else if ChapterFile(ch.title) in st.files then
      (ChapterResult(ch.title, "", true), st.(downloaded := st.downloaded + {ch.url}))
    else
      match FirstContent(Saved(fetched, writes), pos, 0, retry)
      case Some(text) =>
        (ChapterResult(ch.title, Cleaned(text, strip), true),
         Resume(st.downloaded + {ch.url}, st.files + {ChapterFile(ch.title)}))
      case None => (ChapterResult(ch.title, "", false), st)
  }

  /** `download_novel`'s chapter loop: every chapter in order, each seeing the state the previous left. */
  function DownloadRun(chs: seq<Chapter>, st: Resume, fetched: (nat, nat) -> Option<string>, writes: (nat, nat) -> bool,
                       retry: nat, strip: bool): (seq<ChapterResult>, Resume)
  {
    if chs == [] then ([], st)
    else
      var n := |chs| - 1;
      var prev := DownloadRun(chs[..n], st, fetched, writes, retry, strip);
      var last := ChapterOutcome(chs[n], prev.1, n, fetched, writes, retry, strip);
      (prev.0 + [last.0], last.1)
  }

  /** `sum(1 for _, _, success in results if success)`. */
  function CountOk(rs: seq<ChapterResult>): nat {
    if rs == [] then 0 else CountOk(rs[..|rs| - 1]) + (if rs[|rs| - 1].ok then 1 else 0)
  }

  function CountFailed(rs: seq<ChapterResult>): nat {
    if rs == [] then 0 else CountFailed(rs[..|rs| - 1]) + (if rs[|rs| - 1].ok then 0 else 1)
  }

  /**
   * The closing count of `download_novel`: `success_count` by the loop over
   * the results, and `fail_count = total_chapters - success_count`.
   */
  method CountResults(results: seq<ChapterResult>) returns (success: nat, fail: int)
    ensures success == CountOk(results) && fail == CountFailed(results)
  {
    success := 0;
    for k := 0 to |results|
      invariant success == CountOk(results[..k])
    {
      assert results[..k + 1][..k] == results[..k];
      if results[k].ok {
        success := success + 1;
      }
    }
    assert results[..|results|] == results;
    CountSplit(results);
    fail := |results| - success;
  }

  // ------------------------------------------------------------ progress

  /** The condition under which the threaded downloaders write progress.json. */
  predicate SaveProgressAt(completed: nat, total: nat) {
    completed % ProgressEvery == 0 || completed == total
  }

  /** The values of `completed` at which progress is written, after the first k chapters. */
  function Checkpoints(k: nat, total: nat): seq<nat> {
    if k == 0 then [] else Checkpoints(k - 1, total) + (if SaveProgressAt(k, total) then [k] else [])
  }

  /** The values of `completed` the batched downloader records, for batches starting at i. */
  function BatchMarks(i: nat, total: nat): seq<nat>
    decreases total - i
  {
    if i >= total then [] else [IMin(i + BatchSize, total)] + BatchMarks(i + BatchSize, total)
  }

  // ------------------------------------------------------------ lemmas: range input

  lemma DigitsHaveNoDash(s: string)
    requires AllDigits(s)
    ensures forall i :: 0 <= i < |s| ==> s[i] != '-'
  {
  }

  lemma ParsesBack(a: nat)
    ensures ParseInt(NatToString(a)) == Some(a as int)
  {
    ParseIntRoundTrip(a);
  }

  /** "a-b" gives start a-1 and end b. */
  lemma ParseRangeBoth(a: nat, b: nat)
    ensures ParseRange(NatToString(a) + "-" + NatToString(b)) == (a - 1, Some(b as int))
  {
    var x, y := NatToString(a), NatToString(b);
    var s := x + "-" + y;
    assert s[0] == x[0];
    NotBlank(s);
    SplitTwo(x, y);
    ParsesBack(a);
    ParsesBack(b);
    BothParts(x, y, a, b);
    assert ParseRange(s) == RangeFromParts(Split(s, "-"));
  }

  lemma BothParts(x: string, y: string, a: int, b: int)
    requires ParseInt(x) == Some(a) && ParseInt(y) == Some(b)
    ensures RangeFromParts([x, y]) == (a - 1, Some(b))
  {
  }

  lemma StartPartOnly(x: string, y: string, a: int)
    requires ParseInt(x) == Some(a) && ParseInt(y) == None
    ensures RangeFromParts([x, y]) == (a - 1, None)
  {
  }

  // A text that starts with a digit is not blank.
  lemma NotBlank(s: string)
    requires |s| > 0 && IsDigit(s[0])
    ensures Strip(s) != []
  {
    assert StripLeft(s) == s;
    StripRightSpec(s);
    assert |StripRight(s)| > 0;
  }

  lemma SplitTwo(x: string, y: string)
    requires forall i :: 0 <= i < |x| ==> x[i] != '-'
    requires forall i :: 0 <= i < |y| ==> y[i] != '-'
    ensures Split(x + "-" + y, "-") == [x, y]
  {
    SplitFirstSeparator(x, '-', y);
    SplitNoSeparator(y, '-');
  }

  /** "a" gives start a-1 and no end. */
  lemma ParseRangeStartOnly(a: nat)
    ensures ParseRange(NatToString(a)) == (a - 1, None)
  {
    var x := NatToString(a);
    NotBlank(x);
    SplitNoSeparator(x, '-');
    ParsesBack(a);
    assert RangeFromParts([x]) == (a - 1, None);
  }

  /**
   * Blank input, more than two parts, or a first part int() rejects leave
   * both values at their defaults.
   */
  lemma ParseRangeDefaults(input: string)
    ensures Strip(input) == [] ==> ParseRange(input) == (0, None)
    ensures |Split(input, "-")| > 2 ==> ParseRange(input) == (0, None)
    ensures ParseInt(Split(input, "-")[0]).None? ==> ParseRange(input) == (0, None)
  {
  }

  /**
   * "a-junk" where junk is not an integer: start is already a-1 when int()
   * fails on the end, so start stays a-1 while end stays None.
   */
  lemma ParseRangeKeepsStartOnBadEnd(a: nat, junk: string)
    requires forall i :: 0 <= i < |junk| ==> junk[i] != '-'
    requires ParseInt(junk) == None
    ensures ParseRange(NatToString(a) + "-" + junk) == (a - 1, None)
  {
    var x := NatToString(a);
    var s := x + "-" + junk;
    assert s[0] == x[0];
    NotBlank(s);
    SplitTwo(x, junk);
    ParsesBack(a);
    StartPartOnly(x, junk, a);
    assert ParseRange(s) == RangeFromParts(Split(s, "-"));
  }

  /**
   * "0-b" gives start -1, which Python reads as the last chapter: a book
   * with more chapters than b then downloads nothing.
   */
  lemma ZeroStartSelectsNothing<T>(b: nat, chapters: seq<T>)
    requires b < |chapters|
    ensures ParseRange(NatToString(0) + "-" + NatToString(b)) == (-1, Some(b as int))
    ensures DownloadRange(chapters, -1, Some(b as int)) == []
  {
    ParseRangeBoth(0, b);
    var n := |chapters|;
    assert SliceBound(-1, n) == n - 1;
  }

  // ------------------------------------------------------------ lemmas: one chapter

  /** The first successful attempt, if any, decides; none succeeds exactly when every attempt fails. */
  lemma {:induction false} FirstContentSpec(fetched: (nat, nat) -> Option<string>, pos: nat, from: nat, retry: nat)
    ensures FirstContent(fetched, pos, from, retry).None? <==>
              forall i :: from <= i < retry ==> fetched(pos, i).None?
    ensures FirstContent(fetched, pos, from, retry).Some? ==>
              exists i :: from <= i < retry && fetched(pos, i) == FirstContent(fetched, pos, from, retry)
                       && forall j :: from <= j < i ==> fetched(pos, j).None?
    decreases retry - from
  {
    if from < retry && fetched(pos, from).None? {
      FirstContentSpec(fetched, pos, from + 1, retry);
      if FirstContent(fetched, pos, from, retry).Some? {
        var i :| from + 1 <= i < retry && fetched(pos, i) == FirstContent(fetched, pos, from + 1, retry)
                 && forall j :: from + 1 <= j < i ==> fetched(pos, j).None?;
        assert forall j :: from <= j < i ==> fetched(pos, j).None?;
      }
    }
  }

  /**
   * A chapter succeeds exactly when it was recorded, its file exists, or
   * some attempt both found content and wrote the file; the URL is
   * recorded exactly on success, and a failure leaves everything as it was
   * and returns no content.
   */
  lemma ChapterOutcomeSpec(ch: Chapter, st: Resume, pos: nat,
                           fetched: (nat, nat) -> Option<string>, writes: (nat, nat) -> bool,
                           retry: nat, strip: bool)
    ensures var (r, st2) := ChapterOutcome(ch, st, pos, fetched, writes, retry, strip);
      && r.title == ch.title
      && (r.ok <==> ch.url in st.downloaded || ChapterFile(ch.title) in st.files
                    || exists i :: 0 <= i < retry && fetched(pos, i).Some? && writes(pos, i))
      && st2.downloaded == (if r.ok then st.downloaded + {ch.url} else st.downloaded)
      && st.files <= st2.files
      && (!r.ok ==> r.content == "" && st2 == st)
  {
    var saved := Saved(fetched, writes);
    FirstContentSpec(saved, pos, 0, retry);
    assert forall i :: saved(pos, i).Some? <==> fetched(pos, i).Some? && writes(pos, i);
  }

  /**
   * A chapter that is neither recorded nor on disk and whose file cannot be
   * written fails, however many attempts find content: nothing is recorded
   * and no file is added.
   */
  lemma UnwritableChapterFails(ch: Chapter, st: Resume, pos: nat,
                               fetched: (nat, nat) -> Option<string>, writes: (nat, nat) -> bool,
                               retry: nat, strip: bool)
    requires ch.url !in st.downloaded && ChapterFile(ch.title) !in st.files
    requires forall i :: 0 <= i < retry ==> !writes(pos, i)
    ensures ChapterOutcome(ch, st, pos, fetched, writes, retry, strip) == (ChapterResult(ch.title, "", false), st)
  {
    ChapterOutcomeSpec(ch, st, pos, fetched, writes, retry, strip);
  }

  /** Once a chapter has succeeded, downloading it again fetches nothing and changes nothing. */
  lemma FinishedChapterIsSkipped(ch: Chapter, st: Resume, pos: nat, fetched: (nat, nat) -> Option<string>, writes: (nat, nat) -> bool,
                                 retry: nat, strip: bool, pos2: nat, again: (nat, nat) -> Option<string>, rewrites: (nat, nat) -> bool,
                                 retry2: nat, strip2: bool)
    requires ChapterOutcome(ch, st, pos, fetched, writes, retry, strip).0.ok
    ensures var st2 := ChapterOutcome(ch, st, pos, fetched, writes, retry, strip).1;
            ChapterOutcome(ch, st2, pos2, again, rewrites, retry2, strip2) == (ChapterResult(ch.title, "", true), st2)
  {
    ChapterOutcomeSpec(ch, st, pos, fetched, writes, retry, strip);
  }

  // ------------------------------------------------------------ lemmas: whole runs

  /**
   * What a run promises about its results and its record of downloaded
   * URLs: one result per chapter, in chapter order; every chapter that
   * succeeded has its URL recorded, the record only grows, and it grows
   * only by URLs of chapters that succeeded.
   */
  predicate RunRecords(chs: seq<Chapter>, rs: seq<ChapterResult>, before: set<string>, after: set<string>) {
    && |rs| == |chs|
    && (forall i :: 0 <= i < |chs| ==> rs[i].title == chs[i].title)
    && (forall i :: 0 <= i < |chs| && rs[i].ok ==> chs[i].url in after)
    && before <= after
    && (forall u :: u in after ==> u in before || exists i :: 0 <= i < |chs| && rs[i].ok && chs[i].url == u)
  }

  /** One more chapter keeps RunRecords when its result has its title and it is recorded exactly when it succeeded. */
  lemma RunRecordsStep(chs: seq<Chapter>, rs: seq<ChapterResult>, before: set<string>, mid: set<string>,
                       r: ChapterResult, after: set<string>)
    requires chs != [] && RunRecords(chs[..|chs| - 1], rs, before, mid)
    requires r.title == chs[|chs| - 1].title
    requires after == if r.ok then mid + {chs[|chs| - 1].url} else mid
    ensures RunRecords(chs, rs + [r], before, after)
  {
    var n := |chs| - 1;
    var rs' := rs + [r];
    forall u | u in after
      ensures u in before || exists i :: 0 <= i < |chs| && rs'[i].ok && chs[i].url == u
    {
      if u !in before {
        if u in mid {
          var i :| 0 <= i < n && rs[i].ok && chs[..n][i].url == u;
          assert rs'[i] == rs[i];
        } else {
          assert rs'[n].ok && chs[n].url == u;
        }
      }
    }
    forall i | 0 <= i < |chs| ensures rs'[i].title == chs[i].title && (rs'[i].ok ==> chs[i].url in after) {
      if i < n {
        assert rs'[i] == rs[i] && chs[..n][i] == chs[i];
      }
    }
  }

  /** A run keeps RunRecords from the resume state it starts with to the one it leaves. */
  lemma {:induction false} DownloadRunSpec(chs: seq<Chapter>, st: Resume, fetched: (nat, nat) -> Option<string>, writes: (nat, nat) -> bool,
                                           retry: nat, strip: bool)
    ensures var (rs, st2) := DownloadRun(chs, st, fetched, writes, retry, strip);
            RunRecords(chs, rs, st.downloaded, st2.downloaded)
    decreases |chs|
  {
    if chs != [] {
      var n := |chs| - 1;
      var prev := DownloadRun(chs[..n], st, fetched, writes, retry, strip);
      DownloadRunSpec(chs[..n], st, fetched, writes, retry, strip);
      ChapterOutcomeSpec(chs[n], prev.1, n, fetched, writes, retry, strip);
      var last := ChapterOutcome(chs[n], prev.1, n, fetched, writes, retry, strip);
      assert DownloadRun(chs, st, fetched, writes, retry, strip) == (prev.0 + [last.0], last.1);
      RunRecordsStep(chs, prev.0, st.downloaded, prev.1.downloaded, last.0, last.1.downloaded);
    }
  }

  /**
   * Resuming after a run: every chapter that succeeded is skipped by a
   * second run from the state the first left behind, whatever the pages
   * say the second time.
   */
  lemma {:induction false} RerunSkipsFinished(chs: seq<Chapter>, st: Resume, fetched: (nat, nat) -> Option<string>, writes: (nat, nat) -> bool,
                                              again: (nat, nat) -> Option<string>, rewrites: (nat, nat) -> bool, retry: nat, strip: bool, i: nat)
    requires i < |chs|
    requires i < |DownloadRun(chs, st, fetched, writes, retry, strip).0| && DownloadRun(chs, st, fetched, writes, retry, strip).0[i].ok
    ensures var st2 := DownloadRun(chs, st, fetched, writes, retry, strip).1;
            var rerun := DownloadRun(chs, st2, again, rewrites, retry, strip).0;
            |rerun| == |chs| && rerun[i] == ChapterResult(chs[i].title, "", true)
  {
    var st2 := DownloadRun(chs, st, fetched, writes, retry, strip).1;
    DownloadRunSpec(chs, st, fetched, writes, retry, strip);
    assert chs[i].url in st2.downloaded;
    var pre := DownloadRun(chs[..i], st2, again, rewrites, retry, strip);
    DownloadRunSpec(chs[..i], st2, again, rewrites, retry, strip);
    DownloadRunPrefix(chs, st2, again, rewrites, retry, strip, i);
  }

  // The result for chapter i depends only on the chapters before it.
  lemma {:induction false} DownloadRunPrefix(chs: seq<Chapter>, st: Resume, fetched: (nat, nat) -> Option<string>, writes: (nat, nat) -> bool,
                                             retry: nat, strip: bool, i: nat)
    requires i < |chs|
    ensures |DownloadRun(chs, st, fetched, writes, retry, strip).0| == |chs|
    ensures DownloadRun(chs, st, fetched, writes, retry, strip).0[i]
         == ChapterOutcome(chs[i], DownloadRun(chs[..i], st, fetched, writes, retry, strip).1, i, fetched, writes, retry, strip).0
    decreases |chs|
  {
    DownloadRunSpec(chs, st, fetched, writes, retry, strip);
    var n := |chs| - 1;
    if i < n {
      DownloadRunPrefix(chs[..n], st, fetched, writes, retry, strip, i);
      assert chs[..n][..i] == chs[..i];
      DownloadRunSpec(chs[..n], st, fetched, writes, retry, strip);
    }
  }

  // ------------------------------------------------------------ lemmas: counting and progress

  /** The failure count the downloaders print, total minus successes, is the number of failed chapters. */
  lemma {:induction false} CountSplit(rs: seq<ChapterResult>)
    ensures CountOk(rs) + CountFailed(rs) == |rs|
    ensures CountOk(rs) <= |rs|
    decreases |rs|
  {
    if rs != [] {
      CountSplit(rs[..|rs| - 1]);
    }
  }

  /**
   * Progress is written at exactly the multiples of ten and at the end, in
   * increasing order, so at most nine finished chapters are ever unsaved.
   */
  lemma {:induction false} CheckpointsSpec(k: nat, total: nat)
    ensures forall x :: x in Checkpoints(k, total) <==> 1 <= x <= k && SaveProgressAt(x, total)
    ensures forall i, j :: 0 <= i < j < |Checkpoints(k, total)| ==> Checkpoints(k, total)[i] < Checkpoints(k, total)[j]
    decreases k
  {
    if k > 0 {
      CheckpointsSpec(k - 1, total);
      var prev := Checkpoints(k - 1, total);
      var tail: seq<nat> := if SaveProgressAt(k, total) then [k] else [];
      var cur := Checkpoints(k, total);
      assert cur == prev + tail;
      forall x ensures x in cur <==> 1 <= x <= k && SaveProgressAt(x, total) {
        assert x in cur <==> x in prev || x in tail;
      }
      forall i, j | 0 <= i < j < |cur| ensures cur[i] < cur[j] {
        if j < |prev| {
          assert cur[i] == prev[i] && cur[j] == prev[j];
        } else {
          assert cur[i] == prev[i] && prev[i] in prev && cur[j] == k;
        }
      }
    }
  }

  lemma NoLongGapWithoutSave(total: nat, c: nat)
    requires 1 <= c <= total
    ensures exists x :: x in Checkpoints(total, total) && c <= x < c + ProgressEvery
  {
    CheckpointsSpec(total, total);
    var up := (c + 9) / 10 * 10;
    if up <= total {
      assert up in Checkpoints(total, total);
    } else {
      assert total in Checkpoints(total, total);
    }
  }

  /**
   * The batched downloader records one mark per batch of fifty: the marks
   * rise by at most fifty each, and the last one is the total.
   */
  lemma {:induction false} BatchMarksSpec(i: nat, total: nat)
    requires i < total
    ensures |BatchMarks(i, total)| == (total - i + BatchSize - 1) / BatchSize
    ensures BatchMarks(i, total)[|BatchMarks(i, total)| - 1] == total
    ensures BatchMarks(i, total)[0] == IMin(i + BatchSize, total)
    ensures forall k :: 0 <= k < |BatchMarks(i, total)| - 1 ==>
              BatchMarks(i, total)[k] < BatchMarks(i, total)[k + 1] <= BatchMarks(i, total)[k] + BatchSize
    decreases total - i
  {
    if i + BatchSize < total {
      BatchMarksSpec(i + BatchSize, total);
      var rest := BatchMarks(i + BatchSize, total);
      var m := BatchMarks(i, total);
      assert m == [i + BatchSize] + rest;
      forall k | 0 <= k < |m| - 1 ensures m[k] < m[k + 1] <= m[k] + BatchSize {
        if k > 0 {
          assert m[k] == rest[k - 1] && m[k + 1] == rest[k];
        }
      }
    }
  }
}
