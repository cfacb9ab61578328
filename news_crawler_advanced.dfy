/**
 * The advanced news crawler of news_crawler_advanced.py: keyword
 * sentiment, proxy choice, the retrying request, news-link extraction
 * with the dedup against already crawled URLs, the fields of one news
 * page, and the bookkeeping of `crawl_single_news`.
 *
 * The network and the HTML are left out: the replies of each attempt,
 * the anchors of a page and what each selector found are parameters, and
 * so are the random proxy index, `urljoin` and the clock.
 */
module NewsCrawlerAdvanced {
  import opened Base

  // ------------------------------------------------------------ configuration

  /** One entry of `target_sites`. */
  datatype SiteConfig = SiteConfig(name: string, baseUrl: string, contentSelector: string)

  /** The configuration keys the crawler reads. */
  datatype Config = Config(maxWorkers: int, timeout: int, maxRetries: int, useProxy: bool,
                           proxyList: seq<string>, targetSites: seq<SiteConfig>)

  /** `default_config()`. */
  const DefaultConfig := Config(5, 10, 3, false, [], [
    SiteConfig("网易新闻", "https://news.163.com/", ".post_content_main, .post_text"),
    SiteConfig("新浪新闻", "https://news.sina.com.cn/", ".article, .content")])

  // ------------------------------------------------------------ sentiment

  const PositiveWords: seq<string> := ["好", "棒", "优秀", "成功", "胜利", "喜悦", "高兴", "满意", "赞", "支持"]
  const NegativeWords: seq<string> := ["坏", "差", "失败", "问题", "困难", "担心", "反对", "批评", "危险", "损失"]

  /** `analyze_sentiment(text)`: 0 without listed words, else (p - n) / (p + n). */
  function Sentiment(text: string): real {
    var p := CountPresent(text, PositiveWords);
    var n := CountPresent(text, NegativeWords);
    if p + n == 0 then 0.0 else (p - n) as real / (p + n) as real
  }

  // ------------------------------------------------------------ requests

  /**
   * `get_proxy()`: a proxy from the list when proxies are enabled and the
   * list is non-empty; `pick` stands for the choice `random.choice` makes.
   */
  function GetProxy(config: Config, pick: nat): (r: Option<string>)
    ensures r.Some? <==> config.useProxy && |config.proxyList| > 0
    ensures r.Some? ==> r.value in config.proxyList
  {
    if config.useProxy && |config.proxyList| > 0 then Some(config.proxyList[pick % |config.proxyList|]) else None
  }

  /**
   * `make_request(url)`: `replies(i)` is what attempt i gave. The result is
   * the first status-200 reply among the first `max_retries` attempts.
   */
  method MakeRequest(config: Config, replies: nat -> Reply) returns (r: Option<Reply>)
    ensures match FirstOk(replies, 0, config.maxRetries)
            case Some(k) => r == Some(replies(k))
            case None => r == None
    ensures r.Some? ==> IsOk(r.value)
  {
    var attempt := 0;
    while attempt < config.maxRetries
      invariant FirstOk(replies, attempt, config.maxRetries) == FirstOk(replies, 0, config.maxRetries)
    {
      var reply := replies(attempt);
      if reply.Reply? && reply.status == 200 {
        return Some(reply);
      }
      attempt := attempt + 1;
    }
    return None;
  }

  // ------------------------------------------------------------ links

  /** One `a` element with an href: the href and the stripped link text. */
  datatype Anchor = Anchor(href: string, text: string)

  /** One extracted link. */
  datatype NewsLink = NewsLink(url: string, title: string, source: string)

  const LinkKeywords: seq<string> := ["news", "article", "story"]

  /** The href after joining a site-relative one to the base URL; `join` stands for that `urljoin`. */
  function Resolve(href: string, join: string -> string): string {
    if StartsWith(href, "/") then join(href) else href
  }

  /**
   * One anchor of `extract_news_links`' loop: kept when the resolved URL
   * is absolute, holds a keyword, is not crawled yet and the title is
   * longer than five characters.
   */
  function LinkOf(a: Anchor, source: string, crawled: set<string>, join: string -> string): Option<NewsLink> {
    var url := Resolve(a.href, join);
    if StartsWith(url, "http") && ContainsAny(url, LinkKeywords) && url !in crawled && |a.text| > 5
    then Some(NewsLink(url, a.text, source))
    else None
  }

  /**
   * How many links the loop keeps at most: it appends before it compares
   * with `max_links`, so a bound below one still lets one link through.
   */
  function LinkCap(maxLinks: int): nat {
    if maxLinks < 1 then 1 else maxLinks
  }

  // ------------------------------------------------------------ news content

  /** The record `extract_news_content` returns. */
  datatype NewsContent = NewsContent(title: string, url: string, content: string, summary: string, pubTime: string,
                                     crawlTime: string, source: string, wordCount: nat)

  const TitleSelectors: seq<string> := ["h1", ".title", ".headline", "title"]
  const DefaultContentSelectors: seq<string> := [".content", ".article-content", ".post-content", "article", ".news-content"]
  const TimeSelectors: seq<string> := [".time", ".date", ".publish-time", ".pub-time"]
  const SummaryLength := 200

  /** The site's comma-separated content selectors, or the defaults when it has none. */
  function ContentSelectors(site: SiteConfig): seq<string> {
    if site.contentSelector != "" then Split(site.contentSelector, ", ") else DefaultContentSelectors
  }

  /** The first 200 characters of the content followed by "...", or the content itself when it is short. */
  function Summary(content: string): string {
    if |content| > SummaryLength then content[..SummaryLength] + "..." else content
  }

  /**
   * `extract_news_content(url, site_config)`: `page` is None when the
   * request failed, otherwise what each selector found (script and style
   * text already removed).
   */
  method ExtractNewsContent(url: string, site: SiteConfig, page: Option<string -> Option<string>>, crawlTime: string)
    returns (r: Option<NewsContent>)
    ensures r.Some? <==> page.Some?
    ensures r.Some? ==>
              && r.value.title == FirstFound(TitleSelectors, page.value)
              && r.value.content == FirstFound(ContentSelectors(site), page.value)
              && r.value.pubTime == FirstFound(TimeSelectors, page.value)
              && r.value.summary == Summary(r.value.content)
              && r.value.wordCount == |r.value.content|
              && r.value.url == url && r.value.source == site.name && r.value.crawlTime == crawlTime
  {
    if page.None? {
      return None;
    }
    var lookup := page.value;
    var title := SelectFirst(TitleSelectors, lookup);
    var content := SelectFirst(ContentSelectors(site), lookup);
    var pubTime := SelectFirst(TimeSelectors, lookup);
    return Some(NewsContent(title, url, content, Summary(content), pubTime, crawlTime, site.name, |content|));
  }

  // ------------------------------------------------------------ the crawler

  class NewsCrawler {
    const config: Config
    var crawledUrls: set<string>
    var newsData: seq<NewsContent>

    /**
     * `AdvancedNewsCrawler(config)`: no config means the default one;
     * `stored` is the url column `load_crawled_urls` read, None when
     * reading failed.
     */
    constructor (config: Option<Config>, stored: Option<set<string>>)
      ensures this.config == (if config.Some? then config.value else DefaultConfig)
      ensures crawledUrls == (if stored.Some? then stored.value else {})
      ensures newsData == []
    {
      this.config := if config.Some? then config.value else DefaultConfig;
      crawledUrls := if stored.Some? then stored.value else {};
      newsData := [];
    }

    /**
     * `extract_news_links(site_config, max_links)`: `anchors` is None when
     * the request for the base URL failed, otherwise the page's anchors.
     */
    method ExtractNewsLinks(site: SiteConfig, anchors: Option<seq<Anchor>>, maxLinks: int, join: string -> string)
      returns (links: seq<NewsLink>)
      ensures anchors.None? ==> links == []
      ensures anchors.Some? ==>
                var crawled := crawledUrls;
                links == Take(FilterMap(anchors.value, a => LinkOf(a, site.name, crawled, join)), LinkCap(maxLinks))
    {
      if anchors.None? {
        return [];
      }
      var xs := anchors.value;
      var crawled := crawledUrls;
      var f := a => LinkOf(a, site.name, crawled, join);
      var cap := LinkCap(maxLinks);
      links := [];
      var i := 0;
      while i < |xs|
        invariant 0 <= i <= |xs|
        invariant links == FilterMap(xs[..i], f) && |links| < cap
      {
        assert xs[..i + 1][..i] == xs[..i];
        var link := f(xs[i]);
        if link.Some? {
          links := links + [link.value];
        }
        i := i + 1;
        if |links| >= maxLinks && |links| > 0 {
          assert |links| == cap;
          break;
        }
      }
      FilterMapStopped(xs, i, f, cap);
    }

    /**
     * `crawl_single_news(news_link, site_config)`: `extracted` is what
     * `extract_news_content` returned for the link (None also when it
     * raised). A page with content is recorded and returned.
     */
    method CrawlSingleNews(link: NewsLink, extracted: Option<NewsContent>) returns (r: Option<NewsContent>)
      modifies this
      ensures extracted.Some? && extracted.value.content != "" ==>
                && r == extracted
                && crawledUrls == old(crawledUrls) + {link.url}
                && newsData == old(newsData) + [extracted.value]
      ensures !(extracted.Some? && extracted.value.content != "") ==>
                r == None && crawledUrls == old(crawledUrls) && newsData == old(newsData)
    {
      if extracted.Some? && extracted.value.content != "" {
        crawledUrls := crawledUrls + {link.url};
        newsData := newsData + [extracted.value];
        return extracted;
      }
      return None;
    }
  }

  // ------------------------------------------------------------ lemmas

  /**
   * The score only depends on which listed words occur, not on how often:
   * two texts containing the same listed words score the same.
   */
  lemma SentimentByPresence(t1: string, t2: string)
    requires forall i :: 0 <= i < |PositiveWords| ==> (Contains(t1, PositiveWords[i]) <==> Contains(t2, PositiveWords[i]))
    requires forall i :: 0 <= i < |NegativeWords| ==> (Contains(t1, NegativeWords[i]) <==> Contains(t2, NegativeWords[i]))
    ensures Sentiment(t1) == Sentiment(t2)
  {
    CountPresentSame(t1, t2, PositiveWords);
    CountPresentSame(t1, t2, NegativeWords);
  }

  /** A difference over a positive total of which it is at most the size lies in [-1, 1]. */
  lemma RatioBounds(d: int, t: int)
    requires t > 0 && -t <= d <= t
    ensures -1.0 <= d as real / t as real <= 1.0
    ensures d as real / t as real > 0.0 <==> d > 0
    ensures d as real / t as real < 0.0 <==> d < 0
  {
    var q := d as real / t as real;
    var tr := t as real;
    assert q * tr == d as real;
    SignOfFactor(1.0 - q, tr);
    SignOfFactor(q + 1.0, tr);
    SignOfFactor(q, tr);
  }

  /** A product with a positive factor has the sign of the other factor. */
  lemma SignOfFactor(x: real, t: real)
    requires t > 0.0
    ensures x * t >= 0.0 ==> x >= 0.0
    ensures x * t > 0.0 ==> x > 0.0
    ensures x * t < 0.0 ==> x < 0.0
  {
  }

  /**
   * The score lies in [-1, 1]; it is positive exactly when more positive
   * than negative words occur, negative exactly when fewer do, and 0
   * without any listed word.
   */
  lemma SentimentSpec(text: string)
    ensures var s := Sentiment(text);
            var p := CountPresent(text, PositiveWords);
            var n := CountPresent(text, NegativeWords);
            && -1.0 <= s <= 1.0
            && (s > 0.0 <==> p > n)
            && (s < 0.0 <==> p < n)
            && (p + n == 0 ==> s == 0.0)
  {
    var p: int := CountPresent(text, PositiveWords);
    var n: int := CountPresent(text, NegativeWords);
    if p + n > 0 {
      RatioBounds(p - n, p + n);
    }
  }

  /**
   * A short content is its own summary; a longer one is cut to its first
   * 200 characters plus three, so the summary never exceeds 203.
   */
  lemma SummarySpec(content: string)
    ensures var s := Summary(content);
            && |s| <= SummaryLength + 3
            && (|content| <= SummaryLength ==> s == content)
            && (|content| > SummaryLength ==> |s| == SummaryLength + 3 && s[..SummaryLength] == content[..SummaryLength])
  {
    var s := Summary(content);
    if |content| > SummaryLength {
      assert |s| == SummaryLength + 3;
    }
  }

  /**
   * The links kept are absolute news URLs not crawled yet, with titles
   * longer than five characters, and there are at most `LinkCap(max_links)`
   * of them: `max_links` itself when it is positive, one otherwise.
   */
  lemma ExtractedLinksSpec(xs: seq<Anchor>, source: string, crawled: set<string>, join: string -> string, maxLinks: int)
    ensures var links := Take(FilterMap(xs, a => LinkOf(a, source, crawled, join)), LinkCap(maxLinks));
            && |links| <= (if maxLinks < 1 then 1 else maxLinks)
            && forall l :: l in links ==>
                 StartsWith(l.url, "http") && ContainsAny(l.url, LinkKeywords) && l.url !in crawled
                 && |l.title| > 5 && l.source == source
  {
    var f := a => LinkOf(a, source, crawled, join);
    FilterMapSpec(xs, f);
    forall l | l in Take(FilterMap(xs, f), LinkCap(maxLinks))
      ensures StartsWith(l.url, "http") && ContainsAny(l.url, LinkKeywords) && l.url !in crawled
              && |l.title| > 5 && l.source == source
    {
      assert l in FilterMap(xs, f);
      var i :| 0 <= i < |xs| && f(xs[i]) == Some(l);
      LinkOfSpec(xs[i], source, crawled, join);
    }
  }

  /** With a non-positive bound, the first qualifying link is still returned. */
  lemma NonPositiveCapKeepsOne(xs: seq<Anchor>, source: string, crawled: set<string>, join: string -> string,
                               maxLinks: int, k: nat)
    requires maxLinks <= 0 && k < |xs| && LinkOf(xs[k], source, crawled, join).Some?
    ensures |Take(FilterMap(xs, a => LinkOf(a, source, crawled, join)), LinkCap(maxLinks))| == 1
  {
    FilterMapSpec(xs, a => LinkOf(a, source, crawled, join));
  }

  /**
   * An anchor yields a link exactly when its resolved URL starts with
   * 'http', holds one of 'news', 'article', 'story', is not crawled yet,
   * and its title is longer than five characters.
   */
  lemma LinkOfSpec(a: Anchor, source: string, crawled: set<string>, join: string -> string)
    ensures var r := LinkOf(a, source, crawled, join);
            var url := Resolve(a.href, join);
            && (r.Some? <==> StartsWith(url, "http") && ContainsAny(url, LinkKeywords) && url !in crawled && |a.text| > 5)
            && (r.Some? ==> r.value == NewsLink(url, a.text, source))
  {
  }

  /** Once a link's page is recorded, the same anchor no longer yields a link. */
  lemma CrawledLinkIsNotExtractedAgain(a: Anchor, source: string, crawled: set<string>, join: string -> string)
    requires LinkOf(a, source, crawled, join).Some?
    ensures LinkOf(a, source, crawled + {LinkOf(a, source, crawled, join).value.url}, join).None?
  {
  }
}
