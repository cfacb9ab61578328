/**
 * The command-line front end of the novel downloaders (novel_downloader.py):
 * the dependency check per spider type, the dependency installer, the
 * listing of search results, the choice of a result by its 1-based number
 * and the conversion of the chapter range arguments.
 *
 * Which module names import is a parameter (`importable`), as are the
 * answer typed at the prompt and the outcome of each `pip install`.
 */
module NovelDownloader {
  import opened Base

  /** The packages probed at start-up, each marked installed or not. */
  const Packages: seq<string> := ["requests", "beautifulsoup4", "aiohttp", "aiofiles", "selenium"]

  /**
   * The start-up probe: every package starts out not installed and is
   * marked installed when `__import__` of its name succeeds.
   * `importable(n)` is whether a module named n can be imported; the probe
   * passes the package name itself as the module name.
   */
  method ProbePackages(packages: seq<string>, importable: string -> bool) returns (installed: map<string, bool>)
    ensures forall p :: p in installed <==> p in packages
    ensures forall p :: p in installed ==> (installed[p] <==> importable(p))
  {
    installed := map p | p in packages :: false;
    for i := 0 to |packages|
      invariant forall p :: p in installed <==> p in packages
      invariant forall p :: p in installed ==> (installed[p] <==> importable(p) && p in packages[..i])
    {
      assert packages[..i + 1] == packages[..i] + [packages[i]];
      if importable(packages[i]) {
        installed := installed[packages[i] := true];
      }
    }
    assert packages[..|packages|] == packages;
  }

  /** `spider_types`: the packages each kind of spider needs, in declared order. */
  const SpiderTypes: map<string, seq<string>> := map[
    "sync" := ["requests", "beautifulsoup4"],
    "async" := ["aiohttp", "aiofiles", "requests", "beautifulsoup4"],
    "selenium" := ["selenium", "requests", "beautifulsoup4"],
    "proxy" := ["requests", "beautifulsoup4"]
  ]

  /** `spider_types.get(spider_type, [])`. */
  function Required(spiderType: string): seq<string> {
    if spiderType in SpiderTypes then SpiderTypes[spiderType] else []
  }

  /** `required_packages.get(package, False)`. */
  predicate Installed(installed: map<string, bool>, package: string) {
    package in installed && installed[package]
  }

  /** The filter `check_dependencies` applies to the required packages. */
  function MissingOf(installed: map<string, bool>): string -> Option<string> {
    p => if Installed(installed, p) then None else Some(p)
  }

  /** `check_dependencies(spider_type)`: the required packages not installed, in order. */
  method CheckDependencies(spiderType: string, installed: map<string, bool>) returns (missing: seq<string>)
    ensures missing == FilterMap(Required(spiderType), MissingOf(installed))
  {
    missing := [];
    var required := Required(spiderType);
    for i := 0 to |required|
      invariant missing == FilterMap(required[..i], MissingOf(installed))
    {
      FilterMapAppend(required[..i], [required[i]], MissingOf(installed));
      assert required[..i + 1] == required[..i] + [required[i]];
      if !Installed(installed, required[i]) {
        missing := missing + [required[i]];
      }
    }
    assert required[..|required|] == required;
  }

  /** `choice.lower() != 'y'` is false exactly for these answers. */
  predicate IsYes(choice: string) {
    choice == "y" || choice == "Y"
  }

  /**
   * `install_dependencies(packages)`: True at once for no packages;
   * otherwise asks, and installs one package after the other, giving up at
   * the first failing `pip install`. `pip(p)` is whether installing p
   * succeeds.
   */
  method InstallDependencies(packages: seq<string>, choice: string, pip: string -> bool) returns (ok: bool)
    ensures packages == [] ==> ok
    ensures packages != [] && !IsYes(choice) ==> !ok
    ensures packages != [] && IsYes(choice) ==> (ok <==> forall i :: 0 <= i < |packages| ==> pip(packages[i]))
  {
    if packages == [] {
      return true;
    }
    if !IsYes(choice) {
      return false;
    }
    var i := 0;
    while i < |packages|
      invariant 0 <= i <= |packages|
      invariant forall j :: 0 <= j < i ==> pip(packages[j])
    {
      if !pip(packages[i]) {
        return false;
      }
      i := i + 1;
    }
    return true;
  }

  // ------------------------------------------------------------ choosing a result

  /** How many search results are listed. */
  const ListedResults := 10

  /** `results[:10]`: the results shown to the user. */
  function Listed<T>(results: seq<T>): (shown: seq<T>)
    ensures |shown| <= ListedResults && shown <= results
    ensures |results| <= ListedResults ==> shown == results
    ensures |results| > ListedResults ==> |shown| == ListedResults
  {
    Take(results, ListedResults)
  }

  /** The outcome of choosing a result. */
  datatype Selection = Selected(index: nat) | InvalidNumber | NotANumber

  /** `args.index - 1`, checked against the number of results. */
  function SelectByArgument(number: int, count: nat): (s: Selection)
    ensures s.Selected? <==> 1 <= number <= count
    ensures s.Selected? ==> s.index == number - 1 && s.index < count
    ensures !s.NotANumber?
  {
    var index := number - 1;
    if index < 0 || index >= count then InvalidNumber else Selected(index)
  }

  /** `int(input(...)) - 1`, checked the same way; a line `int` rejects is not a number. */
  function SelectByInput(line: string, count: nat): (s: Selection)
    ensures s.NotANumber? <==> ParseInt(line).None?
    ensures ParseInt(line).Some? ==> s == SelectByArgument(ParseInt(line).value, count)
  {
    var n := ParseInt(line);
    if n.None? then NotANumber else SelectByArgument(n.value, count)
  }

  // ------------------------------------------------------------ chapter range

  /**
   * `start = s - 1 if s else 0` and `end = e if e else None`: an absent
   * or zero argument means "from the first" or "to the last" chapter.
   */
  function ChapterBounds(start: Option<int>, end: Option<int>): (r: (int, Option<int>))
    ensures (start.None? || start.value == 0) ==> r.0 == 0
    ensures start.Some? && start.value != 0 ==> r.0 == start.value - 1
    ensures (end.None? || end.value == 0) ==> r.1.None?
    ensures end.Some? && end.value != 0 ==> r.1 == end
  {
    var s := if start.Some? && start.value != 0 then start.value - 1 else 0;
    var e := if end.Some? && end.value != 0 then end else None;
    (s, e)
  }

  // ------------------------------------------------------------ lemmas

  /**
   * A package is reported missing iff the spider type needs it and it is
   * not installed; an unknown spider type, or everything installed,
   * reports nothing.
   */
  lemma MissingSpec(spiderType: string, installed: map<string, bool>)
    ensures var missing := FilterMap(Required(spiderType), MissingOf(installed));
            && (forall p :: p in missing <==> p in Required(spiderType) && !Installed(installed, p))
            && (spiderType !in SpiderTypes ==> missing == [])
            && ((forall p :: p in Packages ==> Installed(installed, p)) ==> missing == [])
  {
    var required := Required(spiderType);
    FilterMapSpec(required, MissingOf(installed));
    forall p | p in required && !Installed(installed, p)
      ensures p in FilterMap(required, MissingOf(installed))
    {
      var i :| 0 <= i < |required| && required[i] == p;
    }
    forall p | p in FilterMap(required, MissingOf(installed))
      ensures p in required && !Installed(installed, p)
    {
      var i :| 0 <= i < |required| && MissingOf(installed)(required[i]) == Some(p);
    }
    if forall p :: p in Packages ==> Installed(installed, p) {
      forall i | 0 <= i < |required|
        ensures MissingOf(installed)(required[i]).None?
      {
        assert spiderType in {"sync", "async", "selenium", "proxy"};
        assert required[i] in Packages;
      }
      FilterMapNone(required, MissingOf(installed));
    }
  }

  /**
   * The probe imports by package name, but the beautifulsoup4 package
   * provides the module `bs4`, so no module named beautifulsoup4 imports.
   * Every spider type needs beautifulsoup4, so from the probe's map it is
   * reported missing for every known type, whether or not it is installed.
   */
  lemma BeautifulSoupReportedMissing(spiderType: string, installed: map<string, bool>, importable: string -> bool)
    requires spiderType in SpiderTypes
    requires forall p :: p in installed ==> (installed[p] <==> importable(p))
    requires !importable("beautifulsoup4")
    ensures "beautifulsoup4" in FilterMap(Required(spiderType), MissingOf(installed))
    ensures FilterMap(Required(spiderType), MissingOf(installed)) != []
  {
    MissingSpec(spiderType, installed);
    assert spiderType in {"sync", "async", "selenium", "proxy"};
    assert "beautifulsoup4" in Required(spiderType);
    assert !Installed(installed, "beautifulsoup4");
  }

  /**
   * A number past the ten listed results is still accepted when the search
   * found that many: the choice is checked against all results, not
   * against the listing.
   */
  lemma UnlistedResultSelectable<T>(results: seq<T>)
    requires |results| > ListedResults
    ensures SelectByArgument(ListedResults + 1, |results|) == Selected(ListedResults)
    ensures ListedResults >= |Listed(results)|
  {
  }
}
