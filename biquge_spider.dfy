/**
 * The sequential novel spider of biquge_spider.py: chapter links are made
 * absolute, each chapter is saved as "NNNN_title.txt" with the title's
 * forbidden file-name characters replaced, existing files are skipped, and
 * the chapter files are later merged in sorted file-name order.
 *
 * The directory listing, the file contents and the pages fetched are
 * parameters: `files` is the set of file names present in the novel
 * directory, `content(i)` what `get_chapter_content` returned for chapter
 * i (ChapterContent of its page; "" when the request failed).
 */
module BiqugeSpider {
  import opened Base
  import opened NovelCommon

  datatype NovelInfo = NovelInfo(title: string, author: string, intro: string, coverUrl: string,
                                 chapters: seq<Chapter>)

  const InfoFile := "info.txt"

  // ------------------------------------------------------------ chapter links

  /** A chapter href starting with '/' is appended to the novel URL; any other is used as it is. */
  function ChapterUrl(novelUrl: string, href: string): (u: string)
    ensures EndsWith(u, href)
    ensures StartsWith(href, "/") ==> StartsWith(u, novelUrl) && |u| == |novelUrl| + |href|
    ensures !StartsWith(href, "/") ==> u == href
  {
    if StartsWith(href, "/") then novelUrl + href else href
  }

  /** One chapter anchor (text, href) as a chapter: the stripped text and the absolute URL. */
  function AnchorChapter(novelUrl: string, anchor: (string, string)): Chapter {
    Chapter(Strip(anchor.0), ChapterUrl(novelUrl, anchor.1))
  }

  /** The chapters of a list of anchors, in order. */
  function AnchorChapters(novelUrl: string, anchors: seq<(string, string)>): (r: seq<Chapter>)
    ensures |r| == |anchors|
  {
    if anchors == [] then []
    else AnchorChapters(novelUrl, anchors[..|anchors| - 1]) + [AnchorChapter(novelUrl, anchors[|anchors| - 1])]
  }

  /** The chapter list of `get_novel_info`: one chapter per anchor, in order. */
  method ChapterList(novelUrl: string, anchors: seq<(string, string)>) returns (chapters: seq<Chapter>)
    ensures chapters == AnchorChapters(novelUrl, anchors)
  {
    chapters := [];
    for i := 0 to |anchors|
      invariant chapters == AnchorChapters(novelUrl, anchors[..i])
    {
      assert anchors[..i + 1][..i] == anchors[..i];
      chapters := chapters + [AnchorChapter(novelUrl, anchors[i])];
    }
    assert anchors[..|anchors|] == anchors;
  }

  // ------------------------------------------------------------ file names

  /** The characters of the class `[\\/:*?"<>|]`. */
  predicate Forbidden(c: char) {
    c in "\\/:*?\"<>|"
  }

  /** `re.sub(r'[\\/:*?"<>|]', '_', title)`. */
  function SanitizeTitle(t: string): (r: string)
    ensures |r| == |t|
    ensures forall i :: 0 <= i < |t| ==> !Forbidden(r[i])
    ensures forall i :: 0 <= i < |t| && !Forbidden(t[i]) ==> r[i] == t[i]
    ensures forall i :: 0 <= i < |t| && Forbidden(t[i]) ==> r[i] == '_'
  {
    if t == [] then []
    else [if Forbidden(t[0]) then '_' else t[0]] + SanitizeTitle(t[1..])
  }

  function Pow10(w: nat): (p: nat)
    ensures p >= 1
  {
    if w == 0 then 1 else 10 * Pow10(w - 1)
  }

  function Digit(d: nat): char
    requires d < 10
  {
    ('0' as int + d) as char
  }

  /** The last w decimal digits of n, most significant first, with leading zeros. */
  function Pad(n: nat, w: nat): (r: string)
    ensures |r| == w && AllDigits(r)
  {
    if w == 0 then [] else Pad(n / 10, w - 1) + [Digit(n % 10)]
  }

  /** Python `f"{n:04d}"`: four digits with leading zeros, or all digits of a larger number. */
  function ZeroPad4(n: nat): (r: string)
    ensures AllDigits(r)
    ensures n < 10000 ==> |r| == 4
  {
    if n < 10000 then Pad(n, 4) else NatToString(n)
  }

  /** The file of the chapter at 0-based position i: `f"{i+1:04d}_{clean_title}.txt"`. */
  function ChapterFileName(i: nat, title: string): (r: string)
    ensures EndsWith(r, ".txt") && r != InfoFile
  {
    var r := ZeroPad4(i + 1) + "_" + SanitizeTitle(title) + ".txt";
    assert r[0] == ZeroPad4(i + 1)[0];
    r
  }

  // ------------------------------------------------------------ chapter list and content

  /** `chapters[:max_chapters]` when max_chapters is truthy and below the chapter count. */
  function Truncate<T>(chapters: seq<T>, maxChapters: Option<int>): (r: seq<T>)
    ensures r <= chapters
    ensures maxChapters.Some? && 0 < maxChapters.value < |chapters| ==> |r| == maxChapters.value
    ensures maxChapters.Some? && maxChapters.value < 0 ==>
              |r| == (if |chapters| + maxChapters.value < 0 then 0 else |chapters| + maxChapters.value)
    ensures maxChapters.None? || maxChapters.value == 0 || maxChapters.value >= |chapters| ==> r == chapters
  {
    if maxChapters.Some? && maxChapters.value != 0 && maxChapters.value < |chapters|
    then PySlice(chapters, 0, maxChapters.value)
    else chapters
  }

  const ContentMarkers: seq<string> := ["笔趣阁", "www.xbiquge.la"]
  const ContentUrlMarker := "http"

  /**
   * The cleaning of `get_chapter_content`: whitespace runs become "\n\n",
   * site names and "http..." runs are deleted, and the ends are stripped.
   */
  function CleanContent(text: string): (r: string)
    ensures r == [] || (!IsSpace(r[0]) && !IsSpace(r[|r| - 1]))
  {
    StripSpec(RemoveMarkers(CollapseSpace(text, "\n\n"), ContentMarkers, ContentUrlMarker));
    Strip(RemoveMarkers(CollapseSpace(text, "\n\n"), ContentMarkers, ContentUrlMarker))
  }

  /**
   * For a text without site markers, cleaning is the whitespace collapse
   * and the strip alone: every whitespace run of the result is exactly
   * "\n\n" (and none is at either end), and its other characters are the
   * text's, in order.
   */
  lemma CleanContentSpec(text: string)
    requires forall i :: 0 <= i < |ContentMarkers| ==> !Contains(text, ContentMarkers[i])
    requires !Contains(text, ContentUrlMarker)
    ensures CleanContent(text) == Strip(CollapseSpace(text, "\n\n"))
    ensures SpaceRunsAre(CleanContent(text), "\n\n")
    ensures NonSpace(CleanContent(text)) == NonSpace(text)
  {
    var sep := "\n\n";
    ContentConstants();
    var c := CollapseSpace(text, sep);
    CollapsedHasNoMarker(text, sep, ContentMarkers, ContentUrlMarker);
    assert CleanContent(text) == Strip(c);
    CollapseSpaceRuns(text, sep);
    SpaceRunsStrip(c, sep);
    CollapseSpaceKeepsOrder(text, sep);
    NonSpaceStrip(c);
  }

  /** The cleaning's separator is whitespace, and its site markers have none. */
  lemma ContentConstants()
    ensures forall i :: 0 <= i < |"\n\n"| ==> IsSpace("\n\n"[i])
    ensures forall i :: 0 <= i < |ContentMarkers| ==> Solid(ContentMarkers[i])
    ensures Solid(ContentUrlMarker)
  {
    assert Solid(ContentMarkers[0]) && Solid(ContentMarkers[1]);
  }

  /** `get_chapter_content`: "" when there is no page (or no content element). */
  function ChapterContent(page: Option<string>): string {
    match page
    case None => ""
    case Some(text) => CleanContent(text)
  }

  // ------------------------------------------------------------ download_novel

  /**
   * The chapter loop of `download_novel`: the files present afterwards and
   * the positions whose file was written, in order. A chapter whose file
   * exists, or whose content is empty, is skipped.
   */
  function DownloadFiles(chs: seq<Chapter>, files: set<string>, content: nat -> string)
    : (set<string>, seq<nat>)
  {
    WriteFiles(FileNames(chs), files, content)
  }

  /** The file name of each chapter, by position. */
  function FileNames(chs: seq<Chapter>): (names: seq<string>)
    ensures |names| == |chs|
    ensures forall i :: 0 <= i < |chs| ==> names[i] == ChapterFileName(i, chs[i].title)
  {
    seq(|chs|, i requires 0 <= i < |chs| => ChapterFileName(i, chs[i].title))
  }

  /** The chapter loop over the file names: position n is written unless its file exists or its content is empty. */
  function WriteFiles(names: seq<string>, files: set<string>, content: nat -> string): (set<string>, seq<nat>) {
    if names == [] then (files, [])
    else
      var n := |names| - 1;
      var prev := WriteFiles(names[..n], files, content);
      if names[n] in prev.0 || content(n) == "" then prev
      else (prev.0 + {names[n]}, prev.1 + [n])
  }

  /** One more name for the chapter loop: WriteFiles over the first i + 1 names from WriteFiles over the first i. */
  lemma WriteFilesStep(names: seq<string>, i: nat, files: set<string>, content: nat -> string)
    requires i < |names|
    ensures var prev := WriteFiles(names[..i], files, content);
            WriteFiles(names[..i + 1], files, content)
            == if names[i] in prev.0 || content(i) == "" then prev else (prev.0 + {names[i]}, prev.1 + [i])
  {
    assert names[..i + 1][..i] == names[..i];
  }

  /**
   * `download_novel(novel_url, max_chapters)`: `info` is what
   * `get_novel_info` returned; info.txt is written before the chapters.
   */
  method DownloadNovel(info: Option<NovelInfo>, maxChapters: Option<int>, files: set<string>,
                       content: nat -> string) returns (ok: bool, files': set<string>, writes: seq<nat>)
    ensures ok <==> info.Some?
    ensures info.None? ==> files' == files && writes == []
    ensures info.Some? ==>
              (files', writes) == DownloadFiles(Truncate(info.value.chapters, maxChapters), files + {InfoFile}, content)
  {
    if info.None? {
      return false, files, [];
    }
    var chapters := info.value.chapters;
    if maxChapters.Some? && maxChapters.value != 0 && maxChapters.value < |chapters| {
      chapters := PySlice(chapters, 0, maxChapters.value);
    }
    files', writes := WriteChapters(chapters, files + {InfoFile}, content);
    return true, files', writes;
  }

  /** The chapter loop of `download_novel`, writing into the directory whose files are `files`. */
  method WriteChapters(chapters: seq<Chapter>, files: set<string>, content: nat -> string)
    returns (files': set<string>, writes: seq<nat>)
    ensures (files', writes) == DownloadFiles(chapters, files, content)
  {
    files', writes := files, [];
    ghost var names := FileNames(chapters);
    for i := 0 to |chapters|
      invariant (files', writes) == WriteFiles(names[..i], files, content)
    {
      assert names[..i + 1][..i] == names[..i];
      var name := ChapterFileName(i, chapters[i].title);
      assert name == names[i];
      WriteFilesStep(names, i, files, content);
      if name in files' {
        continue;
      }
      if content(i) == "" {
        continue;
      }
      files', writes := files' + {name}, writes + [i];
    }
    assert names[..|names|] == names;
  }

  // ------------------------------------------------------------ merge_chapters

  /** `[f for f in os.listdir(novel_dir) if f.endswith('.txt') and f != 'info.txt']`. */
  function SelectChapterFiles(listing: seq<string>): (r: seq<string>)
    ensures |r| <= |listing|
  {
    if listing == [] then []
    else
      var f := listing[|listing| - 1];
      SelectChapterFiles(listing[..|listing| - 1]) + (if EndsWith(f, ".txt") && f != InfoFile then [f] else [])
  }

  /** Insertion of x into a list, before the first element it is not above. */
  function InsertLex(x: string, s: seq<string>): (r: seq<string>)
    ensures multiset(r) == multiset(s) + multiset{x}
  {
    if s == [] || LexLe(x, s[0]) then [x] + s
    else
      assert s == [s[0]] + s[1..];
      [s[0]] + InsertLex(x, s[1..])
  }

  /** `list.sort()` on file names: ascending in code-point order. */
  function SortLex(s: seq<string>): (r: seq<string>)
    ensures multiset(r) == multiset(s)
  {
    if s == [] then []
    else
      assert s == [s[0]] + s[1..];
      InsertLex(s[0], SortLex(s[1..]))
  }

  /** The merged text: the info text, a blank line, then each file's text followed by a blank line. */
  function MergedText(header: string, order: seq<string>, read: string -> string): (r: string)
    ensures StartsWith(r, header + "\n\n")
  {
    if order == [] then header + "\n\n"
    else MergedText(header, order[..|order| - 1], read) + read(order[|order| - 1]) + "\n\n"
  }

  /**
   * `merge_chapters`: None when the novel directory does not exist;
   * otherwise the chapter files in sorted order and the text written.
   * `infoText` is the content of info.txt if that file exists, `read(f)`
   * the content of file f.
   */
  method MergeChapters(dirExists: bool, listing: seq<string>, infoText: Option<string>,
                       read: string -> string) returns (order: Option<seq<string>>, text: string)
    ensures order == if dirExists then Some(SortLex(SelectChapterFiles(listing))) else None
    ensures dirExists ==> text == MergedText(if infoText.Some? then infoText.value else "", order.value, read)
  {
    if !dirExists {
      return None, "";
    }
    var chapterFiles := SortLex(SelectChapterFiles(listing));
    var header := if infoText.Some? then infoText.value else "";
    text := header + "\n\n";
    for k := 0 to |chapterFiles|
      invariant text == MergedText(header, chapterFiles[..k], read)
    {
      assert chapterFiles[..k + 1][..k] == chapterFiles[..k];
      text := text + read(chapterFiles[k]) + "\n\n";
    }
    assert chapterFiles[..|chapterFiles|] == chapterFiles;
    order := Some(chapterFiles);
  }

  // ------------------------------------------------------------ lemmas: chapter links

  /** Chapter i of the list is anchor i's stripped text and absolute URL. */
  lemma {:induction false} AnchorChaptersSpec(novelUrl: string, anchors: seq<(string, string)>)
    ensures forall i :: 0 <= i < |anchors| ==>
              AnchorChapters(novelUrl, anchors)[i] == Chapter(Strip(anchors[i].0), ChapterUrl(novelUrl, anchors[i].1))
  {
    if anchors != [] {
      var n := |anchors| - 1;
      AnchorChaptersSpec(novelUrl, anchors[..n]);
      var prev := AnchorChapters(novelUrl, anchors[..n]);
      var r := AnchorChapters(novelUrl, anchors);
      assert r == prev + [AnchorChapter(novelUrl, anchors[n])];
      forall i | 0 <= i < |anchors|
        ensures r[i] == Chapter(Strip(anchors[i].0), ChapterUrl(novelUrl, anchors[i].1))
      {
        if i < n {
          assert r[i] == prev[i] && anchors[..n][i] == anchors[i];
        } else {
          assert r[i] == AnchorChapter(novelUrl, anchors[n]);
        }
      }
    }
  }

  // ------------------------------------------------------------ lemmas: titles and file names

  /** Sanitising a sanitised title changes nothing. */
  lemma SanitizeIdempotent(t: string)
    ensures SanitizeTitle(SanitizeTitle(t)) == SanitizeTitle(t)
  {
    var s := SanitizeTitle(t);
    assert forall i :: 0 <= i < |s| ==> SanitizeTitle(s)[i] == s[i];
  }

  /** The padded prefix reads back as the number it encodes. */
  lemma {:induction false} PadValue(n: nat, w: nat)
    requires n < Pow10(w)
    ensures DigitsValue(Pad(n, w)) == n
  {
    if w > 0 {
      PadValue(n / 10, w - 1);
      var p := Pad(n, w);
      assert p[..|p| - 1] == Pad(n / 10, w - 1);
    }
  }

  /** The chapter number can be read back from the first four characters of a file name. */
  lemma ChapterNumberReadsBack(i: nat, title: string)
    requires i < 9999
    ensures var f := ChapterFileName(i, title);
            AllDigits(f[..4]) && DigitsValue(f[..4]) == i + 1
  {
    var f := ChapterFileName(i, title);
    assert f[..4] == Pad(i + 1, 4);
    PadValue(i + 1, 4);
  }

  /** When two strings compare strictly, any continuations keep that order. */
  lemma {:induction false} StrictPrefixDecides(a: string, b: string, x: string, y: string)
    requires |a| == |b| && LexLe(a, b) && !LexLe(b, a)
    ensures LexLe(a + x, b + y) && !LexLe(b + y, a + x)
    decreases |a|
  {
    assert a != [];
    assert (a + x)[0] == a[0] && (b + y)[0] == b[0];
    if a[0] == b[0] {
      StrictPrefixDecides(a[1..], b[1..], x, y);
      assert (a + x)[1..] == a[1..] + x;
      assert (b + y)[1..] == b[1..] + y;
    }
  }

  /** Two strings that differ only in a smaller last character compare strictly. */
  lemma {:induction false} LastCharDecides(s: string, c: char, d: char)
    requires c < d
    ensures LexLe(s + [c], s + [d]) && !LexLe(s + [d], s + [c])
    decreases |s|
  {
    if s != [] {
      LastCharDecides(s[1..], c, d);
      assert (s + [c])[1..] == s[1..] + [c];
      assert (s + [d])[1..] == s[1..] + [d];
    }
  }

  /** Padded numbers of the same width sort like the numbers. */
  lemma {:induction false} PadOrder(m: nat, n: nat, w: nat)
    requires m < n < Pow10(w)
    ensures LexLe(Pad(m, w), Pad(n, w)) && !LexLe(Pad(n, w), Pad(m, w))
  {
    assert w > 0;
    assert n / 10 < Pow10(w - 1);
    if m / 10 < n / 10 {
      PadOrder(m / 10, n / 10, w - 1);
      StrictPrefixDecides(Pad(m / 10, w - 1), Pad(n / 10, w - 1), [Digit(m % 10)], [Digit(n % 10)]);
    } else {
      assert m / 10 == n / 10 && m % 10 < n % 10;
      LastCharDecides(Pad(m / 10, w - 1), Digit(m % 10), Digit(n % 10));
    }
  }

  /**
   * Up to chapter 9999 file names sort strictly in chapter order,
   * whatever the titles.
   */
  lemma FileNamesSortInChapterOrder(i: nat, j: nat, a: string, b: string)
    requires i < j < 9999
    ensures LexLe(ChapterFileName(i, a), ChapterFileName(j, b))
    ensures !LexLe(ChapterFileName(j, b), ChapterFileName(i, a))
  {
    PadOrder(i + 1, j + 1, 4);
    PaddedName(i, a);
    PaddedName(j, b);
    StrictPrefixDecides(Pad(i + 1, 4), Pad(j + 1, 4), "_" + SanitizeTitle(a) + ".txt", "_" + SanitizeTitle(b) + ".txt");
  }

  /** Below chapter 9999 the file name is the four-digit number followed by the rest. */
  lemma PaddedName(i: nat, a: string)
    requires i < 9999
    ensures ChapterFileName(i, a) == Pad(i + 1, 4) + ("_" + SanitizeTitle(a) + ".txt")
  {
  }

  /** Chapter 10000 ("10000_...") sorts before chapter 1000 ("1000_..."): the order breaks past 9999. */
  lemma TenThousandthChapterSortsEarly(a: string, b: string)
    ensures LexLe(ChapterFileName(9999, a), ChapterFileName(999, b))
    ensures !LexLe(ChapterFileName(999, b), ChapterFileName(9999, a))
  {
    LateName(a);
    EarlyName(b);
    StrictPrefixDecides("10000", "1000_", "_" + SanitizeTitle(a) + ".txt", SanitizeTitle(b) + ".txt");
  }

  lemma LateName(a: string)
    ensures ChapterFileName(9999, a) == "10000" + ("_" + SanitizeTitle(a) + ".txt")
  {
    TenThousandDigits();
  }

  lemma EarlyName(b: string)
    ensures ChapterFileName(999, b) == "1000_" + (SanitizeTitle(b) + ".txt")
  {
    ThousandDigits();
  }

  lemma TenThousandDigits()
    ensures ZeroPad4(10000) == "10000"
  {
    assert NatToString(1) == "1";
    assert NatToString(10) == NatToString(1) + "0";
    assert NatToString(100) == NatToString(10) + "0";
    assert NatToString(1000) == NatToString(100) + "0";
    assert NatToString(10000) == NatToString(1000) + "0";
  }

  lemma ThousandDigits()
    ensures ZeroPad4(1000) == "1000"
  {
    assert Pad(1, 1) == "1";
    assert Pad(10, 2) == Pad(1, 1) + "0";
    assert Pad(100, 3) == Pad(10, 2) + "0";
    assert Pad(1000, 4) == Pad(100, 3) + "0";
  }

  // ------------------------------------------------------------ lemmas: content and download

  /** The chapter loop never removes a file and adds only chapter files. */
  lemma DownloadFilesOnlyAdds(chs: seq<Chapter>, files: set<string>, content: nat -> string)
    ensures var after := DownloadFiles(chs, files, content).0;
            && files <= after
            && forall f :: f in after ==>
                 f in files || exists i :: 0 <= i < |chs| && f == ChapterFileName(i, chs[i].title)
  {
    var names := FileNames(chs);
    WriteFilesOnlyAdds(names, files, content);
    forall f | f in DownloadFiles(chs, files, content).0 && f !in files
      ensures exists i :: 0 <= i < |chs| && f == ChapterFileName(i, chs[i].title)
    {
      var i :| 0 <= i < |names| && names[i] == f;
    }
  }

  lemma {:induction false} WriteFilesOnlyAdds(names: seq<string>, files: set<string>, content: nat -> string)
    ensures var after := WriteFiles(names, files, content).0;
            files <= after && forall f :: f in after ==> f in files || f in names
  {
    if names != [] {
      var n := |names| - 1;
      WriteFilesOnlyAdds(names[..n], files, content);
      assert forall f :: f in names[..n] ==> f in names;
    }
  }

  /**
   * A file is written only for a chapter whose file did not exist before
   * and whose content is non-empty.
   */
  lemma DownloadFilesWrites(chs: seq<Chapter>, files: set<string>, content: nat -> string)
    ensures var writes := DownloadFiles(chs, files, content).1;
            forall k :: 0 <= k < |writes| ==>
              && writes[k] < |chs|
              && ChapterFileName(writes[k], chs[writes[k]].title) !in files
              && content(writes[k]) != ""
  {
    var names := FileNames(chs);
    WriteFilesWrites(names, files, content);
    assert DownloadFiles(chs, files, content) == WriteFiles(names, files, content);
    var writes := DownloadFiles(chs, files, content).1;
    forall k | 0 <= k < |writes|
      ensures writes[k] < |chs|
      ensures ChapterFileName(writes[k], chs[writes[k]].title) !in files
      ensures content(writes[k]) != ""
    {
      WriteWritten(names, files, content, k);
      assert names[writes[k]] == ChapterFileName(writes[k], chs[writes[k]].title);
    }
  }

  lemma {:induction false} WriteFilesWrites(names: seq<string>, files: set<string>, content: nat -> string)
    ensures var writes := WriteFiles(names, files, content).1;
            forall k :: 0 <= k < |writes| ==>
              writes[k] < |names| && names[writes[k]] !in files && content(writes[k]) != ""
  {
    if names != [] {
      var n := |names| - 1;
      WriteFilesWrites(names[..n], files, content);
      WriteFilesOnlyAdds(names[..n], files, content);
      var prev := WriteFiles(names[..n], files, content);
      var writes := WriteFiles(names, files, content).1;
      assert writes == prev.1 || (writes == prev.1 + [n] && names[n] !in prev.0 && content(n) != "");
      forall k | 0 <= k < |writes|
        ensures writes[k] < |names| && names[writes[k]] !in files && content(writes[k]) != ""
      {
        if k < |prev.1| {
          assert writes[k] == prev.1[k];
          assert names[..n][prev.1[k]] == names[prev.1[k]];
        }
      }
    }
  }

  /** A position written lies within the list, its file was absent and its content non-empty. */
  lemma WriteWritten(names: seq<string>, files: set<string>, content: nat -> string, k: nat)
    requires k < |WriteFiles(names, files, content).1|
    ensures var w := WriteFiles(names, files, content).1[k];
            w < |names| && names[w] !in files && content(w) != ""
  {
    WriteFilesWrites(names, files, content);
  }

  /** A position written lies within the list. */
  lemma WriteBound(names: seq<string>, files: set<string>, content: nat -> string, k: nat)
    requires k < |WriteFiles(names, files, content).1|
    ensures WriteFiles(names, files, content).1[k] < |names|
  {
    WriteFilesWrites(names, files, content);
  }

  /** The writes go in chapter order. */
  lemma DownloadFilesWritesInOrder(chs: seq<Chapter>, files: set<string>, content: nat -> string)
    ensures var writes := DownloadFiles(chs, files, content).1;
            forall k, l :: 0 <= k < l < |writes| ==> writes[k] < writes[l]
  {
    var names := FileNames(chs);
    WriteFilesInOrder(names, files, content);
    var writes := WriteFiles(names, files, content).1;
    assert DownloadFiles(chs, files, content).1 == writes;
    forall k, l | 0 <= k < l < |writes|
      ensures writes[k] < writes[l]
    {
      WriteOrder(names, files, content, k, l);
    }
  }

  lemma WriteOrder(names: seq<string>, files: set<string>, content: nat -> string, k: nat, l: nat)
    requires k < l < |WriteFiles(names, files, content).1|
    ensures WriteFiles(names, files, content).1[k] < WriteFiles(names, files, content).1[l]
  {
    WriteFilesInOrder(names, files, content);
  }

  lemma {:induction false} WriteFilesInOrder(names: seq<string>, files: set<string>, content: nat -> string)
    ensures var writes := WriteFiles(names, files, content).1;
            forall k, l :: 0 <= k < l < |writes| ==> writes[k] < writes[l]
  {
    if names != [] {
      var n := |names| - 1;
      WriteFilesInOrder(names[..n], files, content);
      WriteFilesWrites(names[..n], files, content);
      var prev := WriteFiles(names[..n], files, content).1;
      var writes := WriteFiles(names, files, content).1;
      assert writes == prev || writes == prev + [n];
      forall k, l | 0 <= k < l < |writes|
        ensures writes[k] < writes[l]
      {
        WriteBound(names[..n], files, content, k);
        assert writes[k] == prev[k] && prev[k] < n;
        if l < |prev| {
          assert writes[l] == prev[l];
        } else {
          assert writes[l] == n;
        }
      }
    }
  }

  /** Afterwards every chapter whose content is non-empty has its file. */
  lemma DownloadFilesComplete(chs: seq<Chapter>, files: set<string>, content: nat -> string)
    ensures var after := DownloadFiles(chs, files, content).0;
            forall i :: 0 <= i < |chs| && content(i) != "" ==> ChapterFileName(i, chs[i].title) in after
  {
    WriteFilesComplete(FileNames(chs), files, content);
  }

  lemma {:induction false} WriteFilesComplete(names: seq<string>, files: set<string>, content: nat -> string)
    ensures var after := WriteFiles(names, files, content).0;
            forall i :: 0 <= i < |names| && content(i) != "" ==> names[i] in after
  {
    if names != [] {
      var n := |names| - 1;
      WriteFilesComplete(names[..n], files, content);
      var prev := WriteFiles(names[..n], files, content).0;
      var after := WriteFiles(names, files, content).0;
      assert after == if names[n] in prev || content(n) == "" then prev else prev + {names[n]};
      assert prev <= after;
      forall i | 0 <= i < |names| && content(i) != ""
        ensures names[i] in after
      {
        if i < n {
          assert names[..n][i] == names[i];
        }
      }
    }
  }

  // ------------------------------------------------------------ lemmas: merging

  /** The files merged are exactly the listed ".txt" files other than info.txt, in listing order. */
  lemma {:induction false} SelectChapterFilesSpec(listing: seq<string>)
    ensures forall f :: f in SelectChapterFiles(listing) <==> f in listing && EndsWith(f, ".txt") && f != InfoFile
    ensures multiset(SelectChapterFiles(listing)) <= multiset(listing)
  {
    if listing != [] {
      var n := |listing| - 1;
      SelectChapterFilesSpec(listing[..n]);
      assert listing == listing[..n] + [listing[n]];
    }
  }

  /** Antisymmetry of the code-point order. */
  lemma {:induction false} LexLeAntisymmetric(a: string, b: string)
    requires LexLe(a, b) && LexLe(b, a)
    ensures a == b
    decreases |a|
  {
    if a != [] {
      LexLeAntisymmetric(a[1..], b[1..]);
    }
  }

  lemma {:induction false} InsertLexSorted(x: string, s: seq<string>)
    requires SortedLex(s)
    ensures SortedLex(InsertLex(x, s))
    decreases |s|
  {
    if s != [] && !LexLe(x, s[0]) {
      LexLeTotal(x, s[0]);
      InsertLexSorted(x, s[1..]);
      var rest := InsertLex(x, s[1..]);
      forall y | y in rest ensures LexLe(s[0], y) {
        assert y in multiset(rest);
        if y != x {
          assert y in s[1..];
        }
      }
    } else if s != [] {
      forall i | 0 < i < |s| ensures LexLe(x, s[i]) {
        LexLeTrans(x, s[0], s[i]);
      }
    }
  }

  /** The sort yields an ascending permutation of its input. */
  lemma {:induction false} SortLexSpec(s: seq<string>)
    ensures SortedLex(SortLex(s)) && multiset(SortLex(s)) == multiset(s)
  {
    if s != [] {
      SortLexSpec(s[1..]);
      InsertLexSorted(s[0], SortLex(s[1..]));
    }
  }

  /**
   * In the merge order, the file of chapter i comes before the file of
   * chapter j whenever i < j < 9999.
   */
  lemma MergeOrderFollowsChapters(listing: seq<string>, i: nat, j: nat, a: string, b: string, p: nat, q: nat)
    requires i < j < 9999
    requires var order := SortLex(SelectChapterFiles(listing));
             p < |order| && q < |order| && order[p] == ChapterFileName(i, a) && order[q] == ChapterFileName(j, b)
    ensures p < q
  {
    var order := SortLex(SelectChapterFiles(listing));
    SortLexSpec(SelectChapterFiles(listing));
    FileNamesSortInChapterOrder(i, j, a, b);
  }

  /** Merging more files only appends: the text of a prefix of the order is a prefix of the text. */
  lemma {:induction false} MergedTextExtends(header: string, order: seq<string>, more: seq<string>, read: string -> string)
    ensures MergedText(header, order, read) <= MergedText(header, order + more, read)
    decreases |more|
  {
    if more == [] {
      assert order + more == order;
    } else {
      var n := |more| - 1;
      MergedTextExtends(header, order, more[..n], read);
      assert (order + more)[..|order + more| - 1] == order + more[..n];
      var shorter := MergedText(header, order + more[..n], read);
      assert MergedText(header, order + more, read) == shorter + (read(more[n]) + "\n\n");
    }
  }
}
