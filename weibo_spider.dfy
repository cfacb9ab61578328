/**
 * The synchronous Weibo spider of weibo_spider.py: the parsed weibo
 * record, and the two crawls (a user's weibos, a topic's weibos) that
 * collect each weibo's comments tagged with the weibo id (and the topic),
 * writing a CSV file only for a non-empty list.
 *
 * The HTTP requests are parameters: `comments(id)` is what
 * `get_weibo_comments(id)` returned.
 */
module WeiboSpider {
  import opened Base
  import opened WeiboCommon

  /** The record `parse_weibo_content` returns, with the topic a topic crawl adds. */
  datatype Weibo = Weibo(id: string, userId: string, screenName: string, createdAt: string, text: string,
                         reposts: int, comments: int, attitudes: int, source: string,
                         picUrls: seq<string>, videoUrl: string, topic: Option<string>)

  /** `parse_weibo_content(weibo)`. */
  function ParseWeibo(w: RawWeibo): (r: Weibo)
    ensures r.text == StripTags(OrEmpty(w.text)) && TagFree(r.text)
    ensures r.reposts == OrZero(w.reposts) && r.comments == OrZero(w.comments) && r.attitudes == OrZero(w.attitudes)
    ensures w.user.None? ==> r.userId == "" && r.screenName == ""
    ensures r.picUrls == PicUrls(w.picIds) && r.videoUrl == VideoUrl(w.pageInfo)
    ensures r.topic.None?
  {
    StripTagsLeavesNoTag(OrEmpty(w.text));
    Weibo(OrEmpty(w.id), UserId(w.user), ScreenName(w.user), OrEmpty(w.createdAt), StripTags(OrEmpty(w.text)),
          OrZero(w.reposts), OrZero(w.comments), OrZero(w.attitudes), OrEmpty(w.source),
          PicUrls(w.picIds), VideoUrl(w.pageInfo), None)
  }

  /** No reply requests: the synchronous spider does not fetch replies. */
  const NoReplies: string -> seq<RawComment> := _ => []

  /** A topic card's weibo, parsed and tagged with the topic; None for a card without `mblog`. */
  function TopicWeibo(topic: string): RawCard -> Option<Weibo> {
    (c: RawCard) => if c.mblog.Some? then Some(ParseWeibo(c.mblog.value).(topic := Some(topic))) else None
  }

  /** A topic card's weibo id; None for a card without `mblog`. */
  function CardWeiboId(c: RawCard): Option<string> {
    if c.mblog.Some? then Some(OrEmpty(c.mblog.value.id)) else None
  }

  /**
   * `crawl_user_weibos_and_comments(user_id)`: `weibos` is what
   * `get_weibo_by_user` returned. The parsed weibos, the comment records,
   * and whether each CSV file is written.
   */
  method CrawlUserWeibosAndComments(weibos: seq<RawWeibo>, comments: string -> seq<RawComment>)
    returns (parsed: seq<Weibo>, all: seq<Comment>, savedWeibos: bool, savedComments: bool)
    ensures parsed == Map(weibos, ParseWeibo)
    ensures all == CrawlComments(Ids(weibos), comments, NoReplies, false, None)
    ensures savedWeibos <==> parsed != []
    ensures savedComments <==> all != []
  {
    parsed, all := [], [];
    if weibos == [] {
      return parsed, all, false, false;
    }
    for i := 0 to |weibos|
      invariant parsed == Map(weibos[..i], ParseWeibo)
      invariant all == CrawlComments(Ids(weibos[..i]), comments, NoReplies, false, None)
    {
      assert weibos[..i + 1][..i] == weibos[..i];
      parsed := parsed + [ParseWeibo(weibos[i])];
      var weiboId := OrEmpty(weibos[i].id);
      if weiboId != "" {
        var cs := CollectComments(comments(weiboId), weiboId, NoReplies, false, None);
        all := all + cs;
      }
    }
    assert weibos[..|weibos|] == weibos;
    savedWeibos := parsed != [];
    savedComments := all != [];
  }

  /**
   * `crawl_topic_weibos_and_comments(topic)`: `cards` is what
   * `get_weibo_by_topic` returned (see TopicCards). Cards without a weibo
   * are skipped.
   */
  method CrawlTopicWeibosAndComments(topic: string, cards: seq<RawCard>, comments: string -> seq<RawComment>)
    returns (parsed: seq<Weibo>, all: seq<Comment>, savedWeibos: bool, savedComments: bool)
    ensures parsed == FilterMap(cards, TopicWeibo(topic))
    ensures all == CrawlComments(FilterMap(cards, CardWeiboId), comments, NoReplies, false, Some(topic))
    ensures savedWeibos <==> parsed != []
    ensures savedComments <==> all != []
  {
    parsed, all := [], [];
    if cards == [] {
      return parsed, all, false, false;
    }
    ghost var ids: seq<string> := [];
    for i := 0 to |cards|
      invariant parsed == FilterMap(cards[..i], TopicWeibo(topic))
      invariant ids == FilterMap(cards[..i], CardWeiboId)
      invariant all == CrawlComments(ids, comments, NoReplies, false, Some(topic))
    {
      assert cards[..i + 1][..i] == cards[..i];
      var card := cards[i];
      assert FilterMap(cards[..i + 1], TopicWeibo(topic)) == parsed
        + (if TopicWeibo(topic)(card).Some? then [TopicWeibo(topic)(card).value] else []);
      assert FilterMap(cards[..i + 1], CardWeiboId) == ids
        + (if CardWeiboId(card).Some? then [CardWeiboId(card).value] else []);
      if card.mblog.Some? {
        var weibo := card.mblog.value;
        parsed := parsed + [ParseWeibo(weibo).(topic := Some(topic))];
        var weiboId := OrEmpty(weibo.id);
        assert (ids + [weiboId])[..|ids|] == ids;
        assert CrawlComments(ids + [weiboId], comments, NoReplies, false, Some(topic)) == all
          + (if weiboId != "" then Threads(comments(weiboId), weiboId, NoReplies, false, Some(topic)) else []);
        ids := ids + [weiboId];
        if weiboId != "" {
          var cs := CollectComments(comments(weiboId), weiboId, NoReplies, false, Some(topic));
          all := all + cs;
        }
      }
    }
    assert cards[..|cards|] == cards;
    savedWeibos := parsed != [];
    savedComments := all != [];
  }

  // ------------------------------------------------------------ lemmas

  /**
   * A user crawl tags every comment record with the id of one of the
   * user's weibos and no topic; no record is a reply, and a weibo whose
   * comments are all empty lists gives no records.
   */
  lemma UserCommentsSpec(weibos: seq<RawWeibo>, comments: string -> seq<RawComment>)
    ensures forall r :: r in CrawlComments(Ids(weibos), comments, NoReplies, false, None) ==>
              && r.weiboId.Some? && r.weiboId.value != ""
              && (exists i :: 0 <= i < |weibos| && OrEmpty(weibos[i].id) == r.weiboId.value)
              && r.topic.None? && r.parentCommentId.None?
  {
    var ids := Ids(weibos);
    CrawlCommentsTags(ids, comments, NoReplies, false, None);
    forall r | r in CrawlComments(ids, comments, NoReplies, false, None)
      ensures exists i :: 0 <= i < |weibos| && OrEmpty(weibos[i].id) == r.weiboId.value
    {
      var i :| 0 <= i < |ids| && ids[i] == r.weiboId.value;
    }
  }

  /**
   * A topic crawl parses exactly the cards that carry a weibo, each tagged
   * with the topic, and tags every comment record with the topic.
   */
  lemma TopicCrawlSpec(topic: string, cards: seq<RawCard>, comments: string -> seq<RawComment>)
    ensures var parsed := FilterMap(cards, TopicWeibo(topic));
            && |parsed| <= |cards|
            && (forall w :: w in parsed ==> w.topic == Some(topic) && TagFree(w.text))
            && (forall i :: 0 <= i < |cards| && cards[i].mblog.Some? ==>
                  ParseWeibo(cards[i].mblog.value).(topic := Some(topic)) in parsed)
    ensures forall r :: r in CrawlComments(FilterMap(cards, CardWeiboId), comments, NoReplies, false, Some(topic)) ==>
              r.topic == Some(topic) && r.parentCommentId.None?
  {
    FilterMapSpec(cards, TopicWeibo(topic));
    forall w | w in FilterMap(cards, TopicWeibo(topic))
      ensures w.topic == Some(topic) && TagFree(w.text)
    {
      var i :| 0 <= i < |cards| && TopicWeibo(topic)(cards[i]) == Some(w);
    }
    CrawlCommentsTags(FilterMap(cards, CardWeiboId), comments, NoReplies, false, Some(topic));
  }
}
