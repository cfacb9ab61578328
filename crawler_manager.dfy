/**
 * The crawler manager of the news crawlers (crawler_manager.py): the crawl
 * status a background task updates field by field, stopping, the status
 * copy the web API returns, the news query with optional filters, and the
 * mapping of a news record to a row of the summary table.
 *
 * The clock is a parameter (each method takes the ISO time it would read),
 * the crawl itself is its result (the records, or the message of the
 * exception it raised), and the summary table is a map from url to row,
 * the url being the table's UNIQUE column.
 */
module CrawlerManager {
  import opened Base
  import NewsCrawlerBasic

  /** A value of a news record dictionary. */
  datatype Value = Text(s: string) | Number(r: real) | Whole(i: int)

  /** A news record as the crawlers hand it over. */
  type Record = map<string, Value>

  /** `self.crawl_status`, as `get_crawl_status` copies it. */
  datatype Status = Status(isRunning: bool, currentTask: Option<string>, progress: int, totalNews: nat,
                           startTime: Option<string>, endTime: Option<string>, errors: seq<string>)

  const BasicTask := "基础爬虫"
  const AdvancedTask := "高级爬虫"

  /** What a crawl task's body did: finished with a value, or raised an exception with a message. */
  datatype Outcome<T> = Finished(value: T) | Raised(message: string)

  // ------------------------------------------------------------ summary rows

  /** One row of `news_summary`, in the column order of the INSERT. */
  datatype SummaryRow = SummaryRow(title: Value, url: Value, content: Value, summary: Value, pubTime: Value,
                                   crawlTime: Value, source: Value, category: Value, keywords: Value,
                                   sentiment: Value, wordCount: Value, crawlerType: string)

  /** `news.get(key, default)`. */
  function Get(news: Record, key: string, default: Value): Value {
    if key in news then news[key] else default
  }

  /** The row `save_to_summary_db` inserts for one record. */
  function SummaryRowOf(news: Record, crawlerType: string): (r: SummaryRow)
    ensures "link" in news ==> r.url == news["link"]
    ensures "link" !in news && "url" in news ==> r.url == news["url"]
    ensures "link" !in news && "url" !in news ==> r.url == Text("")
    ensures "sentiment_score" !in news ==> r.sentiment == Number(0.0)
    ensures "word_count" !in news ==> r.wordCount == Whole(0)
    ensures r.crawlerType == crawlerType
  {
    SummaryRow(Get(news, "title", Text("")), Get(news, "link", Get(news, "url", Text(""))),
               Get(news, "content", Text("")), Get(news, "summary", Text("")), Get(news, "pub_time", Text("")),
               Get(news, "crawl_time", Text("")), Get(news, "source", Text("")), Get(news, "category", Text("")),
               Get(news, "keywords", Text("")), Get(news, "sentiment_score", Number(0.0)),
               Get(news, "word_count", Whole(0)), crawlerType)
  }

  /** `INSERT OR REPLACE` of each record in turn: a later record replaces an earlier row with its url. */
  function Upsert(table: map<Value, SummaryRow>, news: seq<Record>, crawlerType: string): map<Value, SummaryRow> {
    if news == [] then table
    else
      var row := SummaryRowOf(news[|news| - 1], crawlerType);
      Upsert(table, news[..|news| - 1], crawlerType)[row.url := row]
  }

  /** The dictionary the basic crawler builds for one news item. */
  function BasicRecord(item: NewsCrawlerBasic.NewsItem): Record {
    map["title" := Text(item.title), "link" := Text(item.link), "summary" := Text(item.summary),
        "pub_time" := Text(item.pubTime), "category" := Text(item.category), "crawl_time" := Text(item.crawlTime)]
  }

  // ------------------------------------------------------------ news query

  /** A query parameter. */
  datatype Param = TextParam(s: string) | IntParam(i: int)

  /** The positional placeholder of sqlite3's qmark style. */
  const Placeholder := "?"
  const SelectClause := "SELECT * FROM news_summary WHERE 1=1"
  const SourceClause := " AND source = " + Placeholder
  const TypeClause := " AND crawler_type = " + Placeholder
  const PageClause := " ORDER BY crawl_time DESC LIMIT " + Placeholder + " OFFSET " + Placeholder

  /** Python truthiness of an optional string argument. */
  predicate Truthy(arg: Option<string>) {
    arg.Some? && arg.value != ""
  }

  /** The filter clauses `get_news_data` adds, each with the value its placeholder takes, in order. */
  function Filters(source: Option<string>, crawlerType: Option<string>): (fs: seq<(string, Param)>)
    ensures |fs| <= 2
  {
    (if Truthy(source) then [(SourceClause, TextParam(source.value))] else [])
    + (if Truthy(crawlerType) then [(TypeClause, TextParam(crawlerType.value))] else [])
  }

  function Clauses(fs: seq<(string, Param)>): string {
    if fs == [] then "" else Clauses(fs[..|fs| - 1]) + fs[|fs| - 1].0
  }

  function Values(fs: seq<(string, Param)>): (ps: seq<Param>)
    ensures |ps| == |fs|
  {
    if fs == [] then [] else Values(fs[..|fs| - 1]) + [fs[|fs| - 1].1]
  }

  /** The text of the news query for the given filters. */
  function QueryText(source: Option<string>, crawlerType: Option<string>): string {
    SelectClause + Clauses(Filters(source, crawlerType)) + PageClause
  }

  /** The parameters of the news query, in placeholder order. */
  function QueryParams(limit: int, offset: int, source: Option<string>, crawlerType: Option<string>): seq<Param> {
    Values(Filters(source, crawlerType)) + [IntParam(limit), IntParam(offset)]
  }

  /** How many times c occurs in s. */
  function Occurrences(s: string, c: char): nat {
    if s == [] then 0 else (if s[0] == c then 1 else 0) + Occurrences(s[1..], c)
  }

  // ------------------------------------------------------------ the manager

  class Manager {
    var isRunning: bool
    var currentTask: Option<string>
    var progress: int
    var totalNews: nat
    var startTime: Option<string>
    var endTime: Option<string>
    var errors: seq<string>
    /** The `news_summary` table, by url. */
    var summary: map<Value, SummaryRow>

    /** `CrawlerManager()`: idle status; the summary table keeps what earlier runs stored. */
    constructor(stored: map<Value, SummaryRow>)
      ensures isRunning == false && currentTask.None? && progress == 0 && totalNews == 0
      ensures startTime.None? && endTime.None? && errors == []
      ensures summary == stored
    {
      isRunning, currentTask, progress, totalNews := false, None, 0, 0;
      startTime, endTime, errors := None, None, [];
      summary := stored;
    }

    /** `get_crawl_status()`: a copy of the status; the manager is not changed. */
    method GetCrawlStatus() returns (s: Status)
      ensures s.isRunning == isRunning && s.currentTask == currentTask && s.progress == progress
      ensures s.totalNews == totalNews && s.startTime == startTime && s.endTime == endTime
      ensures s.errors == errors
    {
      s := Status(isRunning, currentTask, progress, totalNews, startTime, endTime, errors);
    }

    /** The start of a crawl task: running, named, stamped, with the errors cleared. */
    method StartTask(task: string, now: string)
      modifies this
      ensures isRunning && currentTask == Some(task) && startTime == Some(now) && errors == []
      ensures progress == old(progress) && totalNews == old(totalNews) && endTime == old(endTime)
      ensures summary == old(summary)
    {
      isRunning := true;
      currentTask := Some(task);
      startTime := Some(now);
      errors := [];
    }

    /** The normal end of a crawl task: no longer running, stamped, with its news count. */
    method CompleteTask(newsCount: nat, now: string)
      modifies this
      ensures !isRunning && endTime == Some(now) && totalNews == newsCount
      ensures currentTask == old(currentTask) && progress == old(progress) && startTime == old(startTime)
      ensures errors == old(errors) && summary == old(summary)
    {
      isRunning := false;
      endTime := Some(now);
      totalNews := newsCount;
    }

    /** The end of a crawl task that raised: no longer running, the message appended. */
    method FailTask(message: string)
      modifies this
      ensures !isRunning && errors == old(errors) + [message]
      ensures currentTask == old(currentTask) && progress == old(progress) && totalNews == old(totalNews)
      ensures startTime == old(startTime) && endTime == old(endTime) && summary == old(summary)
    {
      isRunning := false;
      errors := errors + [message];
    }

    /** `save_to_summary_db(news_data, crawler_type)`: one INSERT OR REPLACE per record, in order. */
    method SaveToSummaryDb(news: seq<Record>, crawlerType: string)
      modifies this
      ensures summary == Upsert(old(summary), news, crawlerType)
      ensures isRunning == old(isRunning) && currentTask == old(currentTask) && progress == old(progress)
      ensures totalNews == old(totalNews) && startTime == old(startTime) && endTime == old(endTime)
      ensures errors == old(errors)
    {
      var table := summary;
      for i := 0 to |news|
        invariant table == Upsert(old(summary), news[..i], crawlerType)
      {
        assert news[..i + 1][..i] == news[..i];
        var row := SummaryRowOf(news[i], crawlerType);
        table := table[row.url := row];
      }
      assert news[..|news|] == news;
      summary := table;
    }

    /**
     * The task `start_basic_crawl` runs: the crawl's items are saved to the
     * summary table as 'basic' rows and counted; a crawl that raised leaves
     * its message as the only error.
     */
    method RunBasicCrawl(startedAt: string, crawl: Outcome<seq<NewsCrawlerBasic.NewsItem>>, finishedAt: string)
      modifies this
      ensures !isRunning && currentTask == Some(BasicTask) && startTime == Some(startedAt)
      ensures crawl.Finished? ==>
                errors == [] && endTime == Some(finishedAt) && totalNews == |crawl.value|
                && summary == Upsert(old(summary), BasicRecords(crawl.value), "basic")
      ensures crawl.Raised? ==>
                errors == [crawl.message] && endTime == old(endTime) && totalNews == old(totalNews)
                && summary == old(summary)
    {
      StartTask(BasicTask, startedAt);
      if crawl.Finished? {
        SaveToSummaryDb(BasicRecords(crawl.value), "basic");
        CompleteTask(|crawl.value|, finishedAt);
      } else {
        FailTask(crawl.message);
      }
    }

    /**
     * The task `start_advanced_crawl` runs: the advanced crawler's record
     * count becomes the total; a run that raised leaves its message as the
     * only error. Copying the advanced crawler's own database into the
     * summary table is not part of this model.
     */
    method RunAdvancedCrawl(startedAt: string, crawl: Outcome<nat>, finishedAt: string)
      modifies this
      ensures !isRunning && currentTask == Some(AdvancedTask) && startTime == Some(startedAt)
      ensures crawl.Finished? ==> errors == [] && endTime == Some(finishedAt) && totalNews == crawl.value
      ensures crawl.Raised? ==> errors == [crawl.message] && endTime == old(endTime) && totalNews == old(totalNews)
      ensures summary == old(summary)
    {
      StartTask(AdvancedTask, startedAt);
      if crawl.Finished? {
        CompleteTask(crawl.value, finishedAt);
      } else {
        FailTask(crawl.message);
      }
    }

    /**
     * `stop_crawl()`: a running crawl is marked stopped and stamped; when
     * nothing runs, nothing changes. The task's thread itself goes on.
     */
    method StopCrawl(now: string) returns (result: string)
      modifies this
      ensures old(isRunning) ==> result == "stopped" && !isRunning && endTime == Some(now)
      ensures !old(isRunning) ==> result == "not_running" && !isRunning && endTime == old(endTime)
      ensures currentTask == old(currentTask) && progress == old(progress) && totalNews == old(totalNews)
      ensures startTime == old(startTime) && errors == old(errors) && summary == old(summary)
    {
      if isRunning {
        isRunning := false;
        endTime := Some(now);
        result := "stopped";
      } else {
        result := "not_running";
      }
    }

    /**
     * The query `get_news_data(limit, offset, source, crawler_type)` runs:
     * the text and its parameters, built clause by clause.
     */
    method GetNewsQuery(limit: int, offset: int, source: Option<string>, crawlerType: Option<string>)
      returns (query: string, params: seq<Param>)
      ensures query == QueryText(source, crawlerType)
      ensures params == QueryParams(limit, offset, source, crawlerType)
    {
      ghost var fs: seq<(string, Param)> := [];
      var clauses := "";
      params := [];
      if Truthy(source) {
        ClausesOneMore(fs, (SourceClause, TextParam(source.value)));
        fs := fs + [(SourceClause, TextParam(source.value))];
        clauses := clauses + SourceClause;
        params := params + [TextParam(source.value)];
      }
      assert clauses == Clauses(fs) && params == Values(fs);
      if Truthy(crawlerType) {
        ClausesOneMore(fs, (TypeClause, TextParam(crawlerType.value)));
        fs := fs + [(TypeClause, TextParam(crawlerType.value))];
        clauses := clauses + TypeClause;
        params := params + [TextParam(crawlerType.value)];
      }
      assert clauses == Clauses(fs) && params == Values(fs);
      assert fs == Filters(source, crawlerType);
      query := SelectClause + clauses + PageClause;
      params := params + [IntParam(limit), IntParam(offset)];
    }
  }

  /** The basic crawler's items as records. */
  function BasicRecords(items: seq<NewsCrawlerBasic.NewsItem>): (rs: seq<Record>)
    ensures |rs| == |items|
  {
    if items == [] then [] else BasicRecords(items[..|items| - 1]) + [BasicRecord(items[|items| - 1])]
  }

  // ------------------------------------------------------------ lemmas

  /** Appending a clause appends its text and its value. */
  lemma ClausesOneMore(fs: seq<(string, Param)>, f: (string, Param))
    ensures Clauses(fs + [f]) == Clauses(fs) + f.0 && Values(fs + [f]) == Values(fs) + [f.1]
  {
    assert (fs + [f])[..|fs|] == fs;
  }

  /** The query text and parameters, case by case. */
  lemma QueryShape(source: Option<string>, crawlerType: Option<string>)
    ensures var fs := Filters(source, crawlerType);
            && Clauses(fs) == (if Truthy(source) then SourceClause else "") + (if Truthy(crawlerType) then TypeClause else "")
            && Values(fs) == (if Truthy(source) then [TextParam(source.value)] else [])
                             + (if Truthy(crawlerType) then [TextParam(crawlerType.value)] else [])
  {
    var a := if Truthy(source) then [(SourceClause, TextParam(source.value))] else [];
    var b := if Truthy(crawlerType) then [(TypeClause, TextParam(crawlerType.value))] else [];
    ClausesAppend(a, b);
    ValuesAppend(a, b);
    ClausesOfAtMostOne(a);
    ClausesOfAtMostOne(b);
  }

  /** The clause texts of two filter lists concatenate. */
  lemma {:induction false} ClausesAppend(a: seq<(string, Param)>, b: seq<(string, Param)>)
    ensures Clauses(a + b) == Clauses(a) + Clauses(b)
    decreases |b|
  {
    if b == [] {
      assert a + b == a;
    } else {
      var n := |b| - 1;
      var c := a + b[..n];
      assert (a + b)[..|a + b| - 1] == c;
      ClausesAppend(a, b[..n]);
      assert Clauses(a + b) == Clauses(c) + b[n].0;
      assert Clauses(b) == Clauses(b[..n]) + b[n].0;
    }
  }

  /** The values of two filter lists concatenate. */
  lemma {:induction false} ValuesAppend(a: seq<(string, Param)>, b: seq<(string, Param)>)
    ensures Values(a + b) == Values(a) + Values(b)
    decreases |b|
  {
    if b == [] {
      assert a + b == a;
    } else {
      var n := |b| - 1;
      var c := a + b[..n];
      assert (a + b)[..|a + b| - 1] == c;
      ValuesAppend(a, b[..n]);
      assert Values(a + b) == Values(c) + [b[n].1];
      assert Values(b) == Values(b[..n]) + [b[n].1];
    }
  }

  /** No filter has no text and no value; one filter has its own. */
  lemma ClausesOfAtMostOne(fs: seq<(string, Param)>)
    requires |fs| <= 1
    ensures fs == [] ==> Clauses(fs) == "" && Values(fs) == []
    ensures |fs| == 1 ==> Clauses(fs) == fs[0].0 && Values(fs) == [fs[0].1]
  {
    if |fs| == 1 {
      assert fs[..0] == [];
    }
  }

  lemma {:induction false} OccurrencesAppend(a: string, b: string, c: char)
    ensures Occurrences(a + b, c) == Occurrences(a, c) + Occurrences(b, c)
  {
    if a != [] {
      assert (a + b)[1..] == a[1..] + b;
      OccurrencesAppend(a[1..], b, c);
    } else {
      assert a + b == b;
    }
  }

  /** A text without a question mark has no placeholder. */
  lemma {:induction false} NoPlaceholder(s: string)
    requires forall i :: 0 <= i < |s| ==> s[i] != '?'
    ensures Occurrences(s, '?') == 0
  {
    if s != [] {
      NoPlaceholder(s[1..]);
    }
  }

  lemma OnePlaceholder(t: string)
    requires forall i :: 0 <= i < |t| ==> t[i] != '?'
    ensures Occurrences(t + Placeholder, '?') == 1
  {
    NoPlaceholder(t);
    OccurrencesAppend(t, Placeholder, '?');
  }

  /** The select carries no placeholder. */
  lemma SelectPlaceholders()
    ensures Occurrences(SelectClause, '?') == 0
  {
    SelectClean();
    NoPlaceholder(SelectClause);
  }

  lemma SelectClean()
    ensures forall i :: 0 <= i < |SelectClause| ==> SelectClause[i] != '?'
  {
  }

  /** Each filter clause carries one placeholder. */
  lemma FilterPlaceholders()
    ensures Occurrences(SourceClause, '?') == 1 && Occurrences(TypeClause, '?') == 1
  {
    OnePlaceholder(" AND source = ");
    OnePlaceholder(" AND crawler_type = ");
  }

  /** The paging clause carries two placeholders, the limit's and the offset's. */
  lemma PagePlaceholders()
    ensures Occurrences(PageClause, '?') == 2
  {
    var t1, t2 := " ORDER BY crawl_time DESC LIMIT ", " OFFSET ";
    OnePlaceholder(t1);
    OnePlaceholder(t2);
    assert PageClause == (t1 + Placeholder) + (t2 + Placeholder);
    OccurrencesAppend(t1 + Placeholder, t2 + Placeholder, '?');
  }

  /** Clauses of one placeholder each carry as many placeholders as they have values. */
  lemma {:induction false} PlaceholdersMatch(fs: seq<(string, Param)>)
    requires forall i :: 0 <= i < |fs| ==> Occurrences(fs[i].0, '?') == 1
    ensures Occurrences(Clauses(fs), '?') == |Values(fs)|
  {
    if fs != [] {
      var n := |fs| - 1;
      assert forall i :: 0 <= i < n ==> fs[..n][i] == fs[i];
      PlaceholdersMatch(fs[..n]);
      OccurrencesAppend(Clauses(fs[..n]), fs[n].0, '?');
    }
  }

  /** Each applied filter clause carries one placeholder. */
  lemma FilterClausePlaceholders(source: Option<string>, crawlerType: Option<string>)
    ensures var fs := Filters(source, crawlerType);
            forall i :: 0 <= i < |fs| ==> Occurrences(fs[i].0, '?') == 1
  {
    FilterPlaceholders();
  }

  /** A query built from a clean select, one-placeholder filters and a two-placeholder tail. */
  lemma CountQuery(select: string, fs: seq<(string, Param)>, page: string)
    requires Occurrences(select, '?') == 0 && Occurrences(page, '?') == 2
    requires forall i :: 0 <= i < |fs| ==> Occurrences(fs[i].0, '?') == 1
    ensures Occurrences(select + Clauses(fs) + page, '?') == |Values(fs)| + 2
  {
    PlaceholdersMatch(fs);
    OccurrencesAppend(select, Clauses(fs), '?');
    OccurrencesAppend(select + Clauses(fs), page, '?');
  }

  /** The query has one placeholder per parameter. */
  lemma QueryPlaceholders(limit: int, offset: int, source: Option<string>, crawlerType: Option<string>)
    ensures Occurrences(QueryText(source, crawlerType), '?') == |QueryParams(limit, offset, source, crawlerType)|
  {
    var fs := Filters(source, crawlerType);
    FilterClausePlaceholders(source, crawlerType);
    SelectPlaceholders();
    PagePlaceholders();
    CountQuery(SelectClause, fs, PageClause);
  }

  /**
   * One parameter per applied filter: the source first when a non-empty
   * source is given, the crawler type last when a non-empty type is given.
   */
  lemma FiltersSpec(source: Option<string>, crawlerType: Option<string>)
    ensures var vs := Values(Filters(source, crawlerType));
            && |vs| == (if Truthy(source) then 1 else 0) + (if Truthy(crawlerType) then 1 else 0)
            && (Truthy(source) ==> vs[0] == TextParam(source.value))
            && (Truthy(crawlerType) ==> vs[|vs| - 1] == TextParam(crawlerType.value))
  {
    QueryShape(source, crawlerType);
  }

  /**
   * A basic crawler item becomes a 'basic' summary row keyed by its link,
   * with the fields the basic crawler does not produce at their defaults.
   */
  lemma BasicRowSpec(item: NewsCrawlerBasic.NewsItem)
    ensures var r := SummaryRowOf(BasicRecord(item), "basic");
            && r.url == Text(item.link) && r.title == Text(item.title) && r.category == Text(item.category)
            && r.content == Text("") && r.source == Text("") && r.keywords == Text("")
            && r.sentiment == Number(0.0) && r.wordCount == Whole(0) && r.crawlerType == "basic"
  {
  }

  /** After saving, every record's url has a row. */
  lemma {:induction false} UpsertCovers(table: map<Value, SummaryRow>, news: seq<Record>, crawlerType: string)
    ensures forall i :: 0 <= i < |news| ==> SummaryRowOf(news[i], crawlerType).url in Upsert(table, news, crawlerType)
  {
    if news != [] {
      var n := |news| - 1;
      assert forall i :: 0 <= i < n ==> news[..n][i] == news[i];
      UpsertCovers(table, news[..n], crawlerType);
    }
  }

  /** Rows whose url no record carries are kept as they were. */
  lemma {:induction false} UpsertKeepsOthers(table: map<Value, SummaryRow>, news: seq<Record>, crawlerType: string)
    ensures forall u :: u in table && (forall i :: 0 <= i < |news| ==> SummaryRowOf(news[i], crawlerType).url != u) ==>
              u in Upsert(table, news, crawlerType) && Upsert(table, news, crawlerType)[u] == table[u]
  {
    if news != [] {
      var n := |news| - 1;
      assert forall i :: 0 <= i < n ==> news[..n][i] == news[i];
      UpsertKeepsOthers(table, news[..n], crawlerType);
    }
  }

  /** No row appears but the table's own and the records'. */
  lemma {:induction false} UpsertAddsOnlyRecords(table: map<Value, SummaryRow>, news: seq<Record>, crawlerType: string)
    ensures forall u :: u in Upsert(table, news, crawlerType) ==>
              u in table || exists i :: 0 <= i < |news| && SummaryRowOf(news[i], crawlerType).url == u
  {
    if news != [] {
      var n := |news| - 1;
      UpsertAddsOnlyRecords(table, news[..n], crawlerType);
      forall u | u in Upsert(table, news, crawlerType) && u !in table
        ensures exists i :: 0 <= i < |news| && SummaryRowOf(news[i], crawlerType).url == u
      {
        if u != SummaryRowOf(news[n], crawlerType).url {
          var i :| 0 <= i < n && SummaryRowOf(news[..n][i], crawlerType).url == u;
          assert news[..n][i] == news[i];
        }
      }
    }
  }

  /** The row stored for the last record's url is that record's row: a later record wins. */
  lemma LastRecordWins(table: map<Value, SummaryRow>, news: seq<Record>, crawlerType: string)
    requires news != []
    ensures var last := SummaryRowOf(news[|news| - 1], crawlerType);
            last.url in Upsert(table, news, crawlerType) && Upsert(table, news, crawlerType)[last.url] == last
  {
  }
}
