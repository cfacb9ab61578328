/**
 * The basic news crawler of news_crawler_basic.py: picking news links out
 * of the anchors of the news.163.com front page (indicator words in the
 * href, URL normalisation, title fallback to the parent element, title
 * length and keyword filters, a cap of twenty), the detail page's content
 * selector and image list, and the page loop of `crawl`.
 *
 * The HTML is left out: the anchors, what each selector found and the
 * image attributes are parameters. So is the clock: `clock(i)` holds what
 * `datetime.now()` renders as pub_time and as crawl_time while the anchor
 * at position i is turned into a record, so each record has its own
 * reading.
 */
module NewsCrawlerBasic {
  import opened Base

  /** The parent element of an anchor: its stripped text and that of its first `p` or `.summary` child, if any. */
  datatype Parent = Parent(text: string, summary: Option<string>)

  /** One `a` element with an href: the href, the stripped link text and the parent element. */
  datatype LinkElem = LinkElem(href: string, text: string, parent: Option<Parent>)

  /** One record of the news list. */
  datatype NewsItem = NewsItem(title: string, link: string, summary: string, pubTime: string,
                               category: string, crawlTime: string)

  /** What `datetime.now()` renders as pub_time and as crawl_time for one record. */
  datatype Stamps = Stamps(pubTime: string, crawlTime: string)

  const MaxItems := 20
  const SummaryLength := 200
  const NewsIndicators: seq<string> := ["news", "article", "2024", "2025"]
  const InvalidKeywords: seq<string> := ["更多", "查看", "点击", "登录", "注册", "首页", "导航"]
  const SiteRoot := "https://news.163.com"

  /**
   * The full URL of an href: protocol-relative ('//') first, then
   * site-relative ('/'), then absolute ('http'); anything else is dropped.
   */
  function NormalizeLink(href: string): (r: Option<string>)
    ensures r.Some? <==> StartsWith(href, "/") || StartsWith(href, "http")
    ensures r.Some? ==> StartsWith(r.value, "http") && EndsWith(r.value, href)
    ensures StartsWith(href, "/") ==> r.Some? && StartsWith(r.value, "https://")
  {
    if StartsWith(href, "//") then Some("https:" + href)
    else if StartsWith(href, "/") then Some(SiteRoot + href)
    else if StartsWith(href, "http") then Some(href)
    else None
  }

  /** `title and 5 <= len(title) <= 100`. */
  predicate ValidTitle(title: string) {
    5 <= |title| <= 100
  }

  /** The link text, or the parent's text when the link text is not a valid title. */
  function Title(e: LinkElem): string {
    if !ValidTitle(e.text) && e.parent.Some? then e.parent.value.text else e.text
  }

  /** The parent's summary text cut to 200 characters, "" when there is none. */
  function Summary(e: LinkElem): (s: string)
    ensures |s| <= SummaryLength
  {
    if e.parent.Some? && e.parent.value.summary.Some? then
      var t := e.parent.value.summary.value;
      t[..if |t| <= SummaryLength then |t| else SummaryLength]
    else ""
  }

  /** One anchor of `get_news_list`'s loop: the record it adds, None when it is skipped. */
  function NewsOf(e: LinkElem, category: string, at: Stamps): Option<NewsItem> {
    if e.href == "" || !ContainsAny(e.href, NewsIndicators) then None
    else
      match NormalizeLink(e.href)
      case None => None
      case Some(link) =>
        var title := Title(e);
        if !ValidTitle(title) || ContainsAny(title, InvalidKeywords) then None
        else Some(NewsItem(title, link, Summary(e), at.pubTime, category, at.crawlTime))
  }

  /** The anchor at position i, with the clock read for it. */
  function AnchorNews(category: string, clock: nat -> Stamps): ((nat, LinkElem)) -> Option<NewsItem> {
    (p: (nat, LinkElem)) => NewsOf(p.1, category, clock(p.0))
  }

  /**
   * `get_news_list(category, page)`: `anchors` is None when the request
   * raised. The list holds the first twenty records the anchors give, in
   * document order, each stamped by the clock reading taken for its
   * anchor. The URL fetched depends on neither argument.
   */
  method GetNewsList(anchors: Option<seq<LinkElem>>, category: string, clock: nat -> Stamps)
    returns (news: seq<NewsItem>)
    ensures anchors.None? ==> news == []
    ensures anchors.Some? ==> news == Take(FilterMap(Enumerate(anchors.value), AnchorNews(category, clock)), MaxItems)
  {
    if anchors.None? {
      return [];
    }
    var links := Enumerate(anchors.value);
    var f := AnchorNews(category, clock);
    news := [];
    var count := 0;
    var i := 0;
    while i < |links|
      invariant 0 <= i <= |links|
      invariant news == FilterMap(links[..i], f) && count == |news| <= MaxItems
    {
      if count >= MaxItems {
        break;
      }
      assert links[..i + 1][..i] == links[..i];
      var item := NewsOf(anchors.value[i], category, clock(i));
      assert item == f(links[i]);
      if item.Some? {
        news := news + [item.value];
        count := count + 1;
      }
      i := i + 1;
    }
    FilterMapStopped(links, i, f, MaxItems);
  }

  // ------------------------------------------------------------ news detail

  /** One `img` element: its src and data-src attributes, if present. */
  datatype Img = Img(src: Option<string>, dataSrc: Option<string>)

  /** The detail record: the page text and the image URLs. */
  datatype Detail = Detail(content: string, images: seq<string>)

  const MaxImages := 5
  const ContentSelectors: seq<string> := [".post_content_main", ".post_text", ".content", "article", ".article-content"]

  /** `img.get('src') or img.get('data-src')`, kept when it is non-empty and contains 'http'. */
  function ImageOf(img: Img): (r: Option<string>)
    ensures r.Some? ==> Contains(r.value, "http")
    ensures r.Some? ==> r == img.src || r == img.dataSrc
  {
    var src := if img.src.Some? && img.src.value != "" then img.src else img.dataSrc;
    if src.Some? && src.value != "" && Contains(src.value, "http") then src else None
  }

  /**
   * `get_news_detail(news_url)`: `page` is None when the request raised,
   * otherwise what each selector found and the page's `img` elements.
   */
  method GetNewsDetail(page: Option<(string -> Option<string>, seq<Img>)>) returns (d: Detail)
    ensures page.None? ==> d == Detail("", [])
    ensures page.Some? ==> d.content == FirstFound(ContentSelectors, page.value.0)
    ensures page.Some? ==> d.images == FilterMap(Take(page.value.1, MaxImages), ImageOf)
    ensures |d.images| <= MaxImages && forall i :: 0 <= i < |d.images| ==> Contains(d.images[i], "http")
  {
    if page.None? {
      return Detail("", []);
    }
    var content := SelectFirst(ContentSelectors, page.value.0);
    var imgs := Take(page.value.1, MaxImages);
    var images := [];
    for i := 0 to |imgs|
      invariant images == FilterMap(imgs[..i], ImageOf)
    {
      assert imgs[..i + 1][..i] == imgs[..i];
      var src := ImageOf(imgs[i]);
      if src.Some? {
        images := images + [src.value];
      }
    }
    assert imgs[..|imgs|] == imgs;
    DetailImages(page.value.1);
    return Detail(content, images);
  }

  /** The images kept are at most five, each an http URL. */
  lemma DetailImages(imgs: seq<Img>)
    ensures var images := FilterMap(Take(imgs, MaxImages), ImageOf);
            |images| <= MaxImages && forall i :: 0 <= i < |images| ==> Contains(images[i], "http")
  {
    var first := Take(imgs, MaxImages);
    FilterMapSpec(first, ImageOf);
    var images := FilterMap(first, ImageOf);
    forall i | 0 <= i < |images|
      ensures Contains(images[i], "http")
    {
      assert images[i] in images;
    }
  }

  // ------------------------------------------------------------ crawl

  /**
   * The records of one category from page `page` on: each page's list is
   * kept until the first empty one or page `maxPages`. `lists(c, p)` is
   * what `get_news_list(c, p)` returned.
   */
  function CategoryNews(lists: (string, nat) -> seq<NewsItem>, c: string, page: nat, maxPages: int): seq<NewsItem>
    decreases maxPages - page
  {
    if page > maxPages || lists(c, page) == [] then []
    else lists(c, page) + CategoryNews(lists, c, page + 1, maxPages)
  }

  /** The records of all categories, category after category. */
  function AllNews(lists: (string, nat) -> seq<NewsItem>, cats: seq<string>, maxPages: int): seq<NewsItem> {
    if cats == [] then []
    else AllNews(lists, cats[..|cats| - 1], maxPages) + CategoryNews(lists, cats[|cats| - 1], 1, maxPages)
  }

  /**
   * `crawl(categories, max_pages)`: the records gathered and whether the
   * CSV and JSON files are written.
   */
  method Crawl(categories: seq<string>, maxPages: int, lists: (string, nat) -> seq<NewsItem>)
    returns (all: seq<NewsItem>, saved: bool)
    ensures all == AllNews(lists, categories, maxPages)
    ensures saved <==> all != []
  {
    all := [];
    for i := 0 to |categories|
      invariant all == AllNews(lists, categories[..i], maxPages)
    {
      var c := categories[i];
      assert categories[..i + 1][..i] == categories[..i];
      ghost var before := all;
      var page := 1;
      while page <= maxPages
        invariant page >= 1
        invariant all + CategoryNews(lists, c, page, maxPages) == before + CategoryNews(lists, c, 1, maxPages)
        decreases maxPages - page
      {
        var news := lists(c, page);
        if news == [] {
          break;
        }
        assert all + CategoryNews(lists, c, page, maxPages)
            == (all + news) + CategoryNews(lists, c, page + 1, maxPages);
        all := all + news;
        page := page + 1;
      }
      assert CategoryNews(lists, c, page, maxPages) == [];
      assert all == all + CategoryNews(lists, c, page, maxPages);
    }
    assert categories[..|categories|] == categories;
    saved := all != [];
  }

  // ------------------------------------------------------------ lemmas

  /**
   * An anchor gives a record exactly when its href holds an indicator word
   * and normalises, and its title (after the parent fallback) is valid and
   * free of the invalid keywords; the record then carries that title, the
   * normalised link, a summary of at most 200 characters, the category and
   * the two times of the clock reading.
   */
  lemma NewsOfSpec(e: LinkElem, category: string, at: Stamps)
    ensures var r := NewsOf(e, category, at);
            && (r.Some? <==>
                  && ContainsAny(e.href, NewsIndicators)
                  && NormalizeLink(e.href).Some?
                  && ValidTitle(Title(e)) && !ContainsAny(Title(e), InvalidKeywords))
            && (r.Some? ==>
                  && Some(r.value.link) == NormalizeLink(e.href)
                  && r.value.title == Title(e) && ValidTitle(r.value.title)
                  && !ContainsAny(r.value.title, InvalidKeywords)
                  && |r.value.summary| <= SummaryLength && r.value.category == category
                  && r.value.pubTime == at.pubTime && r.value.crawlTime == at.crawlTime)
  {
    if e.href == "" {
      assert !Contains(e.href, NewsIndicators[0]);
      assert !Contains(e.href, NewsIndicators[1]);
      assert !Contains(e.href, NewsIndicators[2]);
      assert !Contains(e.href, NewsIndicators[3]);
    }
  }

  /** An absolute link is its own normal form. */
  lemma NormalizeLinkIdempotent(href: string)
    requires NormalizeLink(href).Some?
    ensures NormalizeLink(NormalizeLink(href).value) == NormalizeLink(href)
  {
    var r := NormalizeLink(href).value;
    assert r[0] == 'h';
  }

  /**
   * Every record of the list comes from an anchor whose href holds one of
   * the indicator words, carries a valid title free of the invalid
   * keywords and the clock reading taken for that anchor, and there are at
   * most twenty.
   */
  lemma NewsListSpec(links: seq<LinkElem>, category: string, clock: nat -> Stamps)
    ensures var news := Take(FilterMap(Enumerate(links), AnchorNews(category, clock)), MaxItems);
            && |news| <= MaxItems
            && forall n :: n in news ==>
                 && ValidTitle(n.title) && !ContainsAny(n.title, InvalidKeywords)
                 && |n.summary| <= SummaryLength && n.category == category
                 && exists i :: 0 <= i < |links| && NewsOf(links[i], category, clock(i)) == Some(n)
                      && ContainsAny(links[i].href, NewsIndicators) && NormalizeLink(links[i].href) == Some(n.link)
                      && n.pubTime == clock(i).pubTime && n.crawlTime == clock(i).crawlTime
  {
    var ps := Enumerate(links);
    var f := AnchorNews(category, clock);
    FilterMapSpec(ps, f);
    var all := FilterMap(ps, f);
    forall n | n in Take(all, MaxItems)
      ensures && ValidTitle(n.title) && !ContainsAny(n.title, InvalidKeywords)
              && |n.summary| <= SummaryLength && n.category == category
              && exists i :: 0 <= i < |links| && NewsOf(links[i], category, clock(i)) == Some(n)
                   && ContainsAny(links[i].href, NewsIndicators) && NormalizeLink(links[i].href) == Some(n.link)
                   && n.pubTime == clock(i).pubTime && n.crawlTime == clock(i).crawlTime
    {
      assert n in all;
      var i :| 0 <= i < |ps| && f(ps[i]) == Some(n);
      assert ps[i] == (i, links[i]);
      NewsOfSpec(links[i], category, clock(i));
    }
  }

  /**
   * `crawl` reads no page of a category after the first empty one: lists
   * that agree up to that page give the same records.
   */
  lemma {:induction false} StopsAtFirstEmptyPage(lists: (string, nat) -> seq<NewsItem>, lists': (string, nat) -> seq<NewsItem>,
                                                 c: string, page: nat, empty: nat, maxPages: int)
    requires page <= empty && lists(c, empty) == []
    requires forall p :: page <= p <= empty ==> lists'(c, p) == lists(c, p)
    ensures CategoryNews(lists', c, page, maxPages) == CategoryNews(lists, c, page, maxPages)
    decreases empty - page
  {
    if page < empty && page <= maxPages && lists(c, page) != [] {
      StopsAtFirstEmptyPage(lists, lists', c, page + 1, empty, maxPages);
    }
  }

  /** With no empty page in between, a category yields its pages 1..maxPages concatenated in order. */
  lemma {:induction false} FullPagesConcatenate(lists: (string, nat) -> seq<NewsItem>, c: string, page: nat, maxPages: int)
    requires forall p :: page <= p <= maxPages ==> lists(c, p) != []
    ensures page <= maxPages ==>
              CategoryNews(lists, c, page, maxPages) == lists(c, page) + CategoryNews(lists, c, page + 1, maxPages)
    ensures |CategoryNews(lists, c, page, maxPages)| >= (if page <= maxPages then maxPages - page + 1 else 0)
    decreases maxPages - page
  {
    if page <= maxPages {
      FullPagesConcatenate(lists, c, page + 1, maxPages);
    }
  }
}
