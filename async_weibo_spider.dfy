/**
 * The asynchronous Weibo spider of async_weibo_spider.py: the parsed
 * weibo record (unwrapping `mblog`, with mid and location), the topic
 * encoding, the keyword sentiment score, and the two crawls, which can
 * also fetch the replies of each comment.
 *
 * The HTTP requests are parameters: `comments(id)` and `replies(id)` are
 * what `get_weibo_comments(id)` and `get_comment_replies(id)` returned.
 * The comment requests run as tasks but are awaited in creation order, so
 * the records come out in the order modelled here.
 */
module AsyncWeiboSpider {
  import opened Base
  import opened WeiboCommon

  /** The record `parse_weibo_content` returns, with the topic a topic crawl adds. */
  datatype Weibo = Weibo(id: string, mid: string, userId: string, screenName: string, createdAt: string,
                         text: string, reposts: int, comments: int, attitudes: int, source: string,
                         picUrls: seq<string>, videoUrl: string, location: string, topic: Option<string>)

  /** A response that wraps the weibo in `mblog` is unwrapped, one level. */
  function Unwrap(w: RawWeibo): RawWeibo {
    if w.mblog.Some? then w.mblog.value else w
  }

  /** `location`: the address of a non-empty `geo`, "" otherwise. */
  function Location(g: Option<Geo>): (l: string)
    ensures (g.None? || g.value.EmptyGeo?) ==> l == ""
  {
    if g.Some? && g.value.Geo? then OrEmpty(g.value.address) else ""
  }

  /** `parse_weibo_content(weibo)`. */
  function ParseWeibo(raw: RawWeibo): (r: Weibo)
    ensures var w := Unwrap(raw);
            && r.text == StripTags(OrEmpty(w.text)) && TagFree(r.text)
            && r.reposts == OrZero(w.reposts) && r.comments == OrZero(w.comments) && r.attitudes == OrZero(w.attitudes)
            && r.picUrls == PicUrls(w.picIds) && r.videoUrl == VideoUrl(w.pageInfo)
            && r.location == Location(w.geo) && r.topic.None?
  {
    var w := Unwrap(raw);
    StripTagsLeavesNoTag(OrEmpty(w.text));
    Weibo(OrEmpty(w.id), OrEmpty(w.mid), UserId(w.user), ScreenName(w.user), OrEmpty(w.createdAt),
          StripTags(OrEmpty(w.text)), OrZero(w.reposts), OrZero(w.comments), OrZero(w.attitudes),
          OrEmpty(w.source), PicUrls(w.picIds), VideoUrl(w.pageInfo), Location(w.geo), None)
  }

  /** A topic card's weibo, parsed and tagged with the topic; None for a card without `mblog`. */
  function TopicWeibo(topic: string): RawCard -> Option<Weibo> {
    (c: RawCard) => if c.mblog.Some? then Some(ParseWeibo(c.mblog.value).(topic := Some(topic))) else None
  }

  /** A topic card's weibo id; None for a card without `mblog`. */
  function CardWeiboId(c: RawCard): Option<string> {
    if c.mblog.Some? then Some(OrEmpty(c.mblog.value.id)) else None
  }

  // ------------------------------------------------------------ topic encoding

  /** `topic.replace('#', '%23')`. */
  function EncodeTopic(topic: string): (e: string)
    ensures forall i :: 0 <= i < |e| ==> e[i] != '#'
    ensures (forall i :: 0 <= i < |topic| ==> topic[i] != '#') ==> e == topic
  {
    EncodeTopicSpec(topic);
    ReplaceChar(topic, '#', "%23")
  }

  /** The `containerid` parameter of a topic search. */
  function ContainerId(topic: string): string {
    "100103type=1&q=" + EncodeTopic(topic)
  }

  // ------------------------------------------------------------ sentiment

  const PositiveWords: seq<string> := ["喜欢", "赞", "好", "棒", "支持", "漂亮", "优秀", "开心", "感谢", "爱",
                                       "棒棒", "厉害", "牛", "强", "赞同", "欣赏", "满意", "期待", "祝福", "加油"]
  const NegativeWords: seq<string> := ["不喜欢", "差", "烂", "讨厌", "失望", "垃圾", "难看", "恶心", "讨厌", "恨",
                                       "坑", "弱", "反对", "批评", "不满", "担心", "诅咒", "放弃", "可怕", "糟糕"]

  /** Listed positive entries present minus listed negative entries present. */
  function Score(text: string): int {
    CountPresent(text, PositiveWords) - CountPresent(text, NegativeWords)
  }

  /** score / 5 capped at 1 above and at -1 below. */
  function Normalize(score: int): real {
    if score > 0 then (if score as real / 5.0 < 1.0 then score as real / 5.0 else 1.0)
    else if score < 0 then (if score as real / 5.0 > -1.0 then score as real / 5.0 else -1.0)
    else 0.0
  }

  /** One counting loop of `analyze_sentiment`: how many listed words occur in the text. */
  method CountWords(text: string, words: seq<string>) returns (k: nat)
    ensures k == CountPresent(text, words)
  {
    k := 0;
    for i := 0 to |words|
      invariant k == CountPresent(text, words[..i])
    {
      assert words[..i + 1][..i] == words[..i];
      if Contains(text, words[i]) {
        k := k + 1;
      }
    }
    assert words[..|words|] == words;
  }

  /** `analyze_sentiment(text)`: the two counting loops, then the normalisation. */
  method AnalyzeSentiment(text: string) returns (sentiment: real)
    ensures sentiment == Normalize(Score(text))
    ensures -1.0 <= sentiment <= 1.0
  {
    var positive := CountWords(text, PositiveWords);
    var negative := CountWords(text, NegativeWords);
    var score: int := positive as int - negative as int;
    NormalizeSpec(score);
    if score > 0 {
      sentiment := if score as real / 5.0 < 1.0 then score as real / 5.0 else 1.0;
    } else if score < 0 {
      sentiment := if score as real / 5.0 > -1.0 then score as real / 5.0 else -1.0;
    } else {
      sentiment := 0.0;
    }
  }

  // ------------------------------------------------------------ crawls

  /**
   * `crawl_user_weibos_and_comments(user_id, include_replies)`: `weibos`
   * is what `get_weibo_by_user` returned. The parsed weibos, the comment
   * and reply records, and whether each CSV file is written.
   */
  method CrawlUserWeibosAndComments(weibos: seq<RawWeibo>, comments: string -> seq<RawComment>,
                                    replies: string -> seq<RawComment>, includeReplies: bool)
    returns (parsed: seq<Weibo>, all: seq<Comment>, savedWeibos: bool, savedComments: bool)
    ensures parsed == Map(weibos, ParseWeibo)
    ensures all == CrawlComments(Ids(weibos), comments, replies, includeReplies, None)
    ensures savedWeibos <==> parsed != []
    ensures savedComments <==> all != []
  {
    parsed, all := [], [];
    if weibos == [] {
      return parsed, all, false, false;
    }
    for i := 0 to |weibos|
      invariant parsed == Map(weibos[..i], ParseWeibo)
      invariant all == CrawlComments(Ids(weibos[..i]), comments, replies, includeReplies, None)
    {
      assert weibos[..i + 1][..i] == weibos[..i];
      parsed := parsed + [ParseWeibo(weibos[i])];
      var weiboId := OrEmpty(weibos[i].id);
      if weiboId != "" {
        var cs := CollectComments(comments(weiboId), weiboId, replies, includeReplies, None);
        all := all + cs;
      }
    }
    assert weibos[..|weibos|] == weibos;
    savedWeibos := parsed != [];
    savedComments := all != [];
  }

  /**
   * `crawl_topic_weibos_and_comments(topic, include_replies)`: `cards` is
   * what `get_weibo_by_topic` returned (see TopicCards). Cards without a
   * weibo are skipped.
   */
  method CrawlTopicWeibosAndComments(topic: string, cards: seq<RawCard>, comments: string -> seq<RawComment>,
                                     replies: string -> seq<RawComment>, includeReplies: bool)
    returns (parsed: seq<Weibo>, all: seq<Comment>, savedWeibos: bool, savedComments: bool)
    ensures parsed == FilterMap(cards, TopicWeibo(topic))
    ensures all == CrawlComments(FilterMap(cards, CardWeiboId), comments, replies, includeReplies, Some(topic))
    ensures savedWeibos <==> parsed != []
    ensures savedComments <==> all != []
  {
    parsed, all := [], [];
    if cards == [] {
      return parsed, all, false, false;
    }
    ghost var ids: seq<string> := [];
    for i := 0 to |cards|
      invariant parsed == FilterMap(cards[..i], TopicWeibo(topic))
      invariant ids == FilterMap(cards[..i], CardWeiboId)
      invariant all == CrawlComments(ids, comments, replies, includeReplies, Some(topic))
    {
      assert cards[..i + 1][..i] == cards[..i];
      var card := cards[i];
      if card.mblog.Some? {
        var weibo := card.mblog.value;
        parsed := parsed + [ParseWeibo(weibo).(topic := Some(topic))];
        var weiboId := OrEmpty(weibo.id);
        assert (ids + [weiboId])[..|ids|] == ids;
        ids := ids + [weiboId];
        if weiboId != "" {
          var cs := CollectComments(comments(weiboId), weiboId, replies, includeReplies, Some(topic));
          all := all + cs;
        }
      }
    }
    assert cards[..|cards|] == cards;
    savedWeibos := parsed != [];
    savedComments := all != [];
  }

  // ------------------------------------------------------------ lemmas

  lemma {:induction false} EncodeTopicSpec(topic: string)
    ensures forall i :: 0 <= i < |ReplaceChar(topic, '#', "%23")| ==> ReplaceChar(topic, '#', "%23")[i] != '#'
    ensures (forall i :: 0 <= i < |topic| ==> topic[i] != '#') ==> ReplaceChar(topic, '#', "%23") == topic
  {
    if topic != [] {
      EncodeTopicSpec(topic[1..]);
      var head := if topic[0] == '#' then "%23" else [topic[0]];
      var tail := ReplaceChar(topic[1..], '#', "%23");
      assert ReplaceChar(topic, '#', "%23") == head + tail;
      forall i | 0 <= i < |head + tail|
        ensures (head + tail)[i] != '#'
      {
        if i >= |head| {
          assert (head + tail)[i] == tail[i - |head|];
        }
      }
      if forall i :: 0 <= i < |topic| ==> topic[i] != '#' {
        assert forall i :: 0 <= i < |topic[1..]| ==> topic[1..][i] == topic[i + 1];
        assert [topic[0]] + topic[1..] == topic;
      }
    }
  }

  /**
   * The normalised score lies in [-1, 1], has the sign of the score, is
   * score / 5 below five listed words of difference and saturates at
   * five or more.
   */
  lemma NormalizeSpec(score: int)
    ensures -1.0 <= Normalize(score) <= 1.0
    ensures Normalize(score) > 0.0 <==> score > 0
    ensures Normalize(score) < 0.0 <==> score < 0
    ensures -5 <= score <= 5 ==> Normalize(score) == score as real / 5.0
    ensures score >= 5 ==> Normalize(score) == 1.0
    ensures score <= -5 ==> Normalize(score) == -1.0
  {
  }

  /**
   * An entry listed twice counts twice: '讨厌' is entries 3 and 8 of the
   * negative words, so a text containing it and no positive word scores
   * at most -2, a sentiment of at most -0.4.
   */
  lemma HateCountsTwice(text: string)
    requires Contains(text, "讨厌")
    ensures CountPresent(text, NegativeWords) >= 2
    ensures CountPresent(text, PositiveWords) == 0 ==> Score(text) <= -2 && Normalize(Score(text)) <= -0.4
  {
    CountPresentAtLeast(text, NegativeWords, {3, 8});
  }

  /** The sentiment depends only on which listed words occur, not on how often. */
  lemma SentimentByPresence(t1: string, t2: string)
    requires forall i :: 0 <= i < |PositiveWords| ==> (Contains(t1, PositiveWords[i]) <==> Contains(t2, PositiveWords[i]))
    requires forall i :: 0 <= i < |NegativeWords| ==> (Contains(t1, NegativeWords[i]) <==> Contains(t2, NegativeWords[i]))
    ensures Normalize(Score(t1)) == Normalize(Score(t2))
  {
    CountPresentSame(t1, t2, PositiveWords);
    CountPresentSame(t1, t2, NegativeWords);
  }

  /**
   * A user crawl tags every comment record with the id of one of the
   * user's weibos; replies appear only when asked for, and then each
   * carries its parent comment's id.
   */
  lemma UserCommentsSpec(weibos: seq<RawWeibo>, comments: string -> seq<RawComment>,
                         replies: string -> seq<RawComment>, includeReplies: bool)
    ensures forall r :: r in CrawlComments(Ids(weibos), comments, replies, includeReplies, None) ==>
              && r.weiboId.Some? && r.weiboId.value != ""
              && (exists i :: 0 <= i < |weibos| && OrEmpty(weibos[i].id) == r.weiboId.value)
              && r.topic.None? && (r.parentCommentId.Some? ==> includeReplies)
  {
    var ids := Ids(weibos);
    CrawlCommentsTags(ids, comments, replies, includeReplies, None);
    forall r | r in CrawlComments(ids, comments, replies, includeReplies, None)
      ensures exists i :: 0 <= i < |weibos| && OrEmpty(weibos[i].id) == r.weiboId.value
    {
      var i :| 0 <= i < |ids| && ids[i] == r.weiboId.value;
    }
  }
}
