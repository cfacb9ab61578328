/**
 * What the two Weibo spiders (weibo_spider.py and async_weibo_spider.py)
 * share: the JSON records they read, the removal of HTML tags, the
 * picture-URL mapping, comment parsing with its defaults, the card-type
 * filter of a topic search, and the comment records a crawl produces,
 * each tagged with the weibo (and the topic and parent comment) it
 * belongs to.
 *
 * JSON ids are modelled as strings and absent keys as None. A key whose
 * value is JSON null is read as absent; in particular a null `text`,
 * on which the spiders' `re.sub` raises and the record is dropped, parses
 * here with text "".
 */
module WeiboCommon {
  import opened Base

  // ------------------------------------------------------------ raw JSON records

  datatype RawUser = RawUser(id: Option<string>, screenName: Option<string>)

  /** `page_info`: its type and `media_info.stream_url`. */
  datatype PageInfo = PageInfo(kind: Option<string>, streamUrl: Option<string>)

  /** `geo`: an empty object, or one whose `detail.address` may be present. */
  datatype Geo = EmptyGeo | Geo(address: Option<string>)

  /** One weibo as the API returns it; `mblog` is the wrapped weibo some responses carry. */
  datatype RawWeibo = RawWeibo(id: Option<string>, mid: Option<string>, user: Option<RawUser>,
                               createdAt: Option<string>, text: Option<string>,
                               reposts: Option<int>, comments: Option<int>, attitudes: Option<int>,
                               source: Option<string>, picIds: Option<seq<string>>,
                               pageInfo: Option<PageInfo>, geo: Option<Geo>, mblog: Option<RawWeibo>)

  datatype RawComment = RawComment(id: Option<string>, user: Option<RawUser>, createdAt: Option<string>,
                                   text: Option<string>, likeCount: Option<int>, totalNumber: Option<int>)

  /** One card of a topic search. */
  datatype RawCard = RawCard(cardType: Option<int>, mblog: Option<RawWeibo>)

  /** `d.get(key, '')` and `d.get(key, 0)`. */
  function OrEmpty(v: Option<string>): string { if v.Some? then v.value else "" }
  function OrZero(v: Option<int>): int { if v.Some? then v.value else 0 }

  function UserId(u: Option<RawUser>): string { if u.Some? then OrEmpty(u.value.id) else "" }
  function ScreenName(u: Option<RawUser>): string { if u.Some? then OrEmpty(u.value.screenName) else "" }

  /** `weibo.get('id', '')` for each weibo, read from the raw record. */
  function Ids(ws: seq<RawWeibo>): (ids: seq<string>)
    ensures |ids| == |ws| && forall i :: 0 <= i < |ws| ==> ids[i] == OrEmpty(ws[i].id)
  {
    if ws == [] then [] else Ids(ws[..|ws| - 1]) + [OrEmpty(ws[|ws| - 1].id)]
  }

  // ------------------------------------------------------------ HTML tags

  /** Index of the first c in s, |s| when there is none. */
  function IndexOf(s: string, c: char): (k: nat)
    ensures k <= |s| && (k < |s| ==> s[k] == c)
    ensures forall j :: 0 <= j < k ==> s[j] != c
  {
    if s == [] then 0 else if s[0] == c then 0 else 1 + IndexOf(s[1..], c)
  }

  /** Length of the match of `<[^>]+>` at the start of s: '<', at least one non-'>' character, '>'; 0 when none. */
  function TagAt(s: string): (n: nat)
    ensures n == 0 || 3 <= n <= |s|
  {
    if |s| >= 2 && s[0] == '<' && s[1] != '>' then
      var k := IndexOf(s[1..], '>');
      if k < |s| - 1 then k + 2 else 0
    else 0
  }

  /** `re.sub(r'<[^>]+>', '', s)`: every tag, scanning left to right, removed. */
  function StripTags(s: string): string
    decreases |s|
  {
    if s == [] then []
    else if TagAt(s) > 0 then StripTags(s[TagAt(s)..])
    else [s[0]] + StripTags(s[1..])
  }

  /** No tag starts at any position of s. */
  predicate TagFree(s: string) {
    forall i :: 0 <= i < |s| ==> TagAt(s[i..]) == 0
  }

  // ------------------------------------------------------------ pictures, video, location

  const PicPrefix := "https://wx1.sinaimg.cn/large/"
  const PicSuffix := ".jpg"

  function PicUrl(id: string): string {
    PicPrefix + id + PicSuffix
  }

  /** The picture id a picture URL names ("" for a string too short to be one). */
  function PicIdOf(url: string): string {
    if |url| >= |PicPrefix| + |PicSuffix| then url[|PicPrefix|..|url| - |PicSuffix|] else ""
  }

  /** `pic_urls`: one URL per id, in order, [] when pic_ids is absent or empty. */
  function PicUrls(ids: Option<seq<string>>): (urls: seq<string>)
    ensures ids.None? ==> urls == []
    ensures ids.Some? ==> |urls| == |ids.value|
    ensures ids.Some? ==> forall i :: 0 <= i < |urls| ==> StartsWith(urls[i], PicPrefix) && PicIdOf(urls[i]) == ids.value[i]
  {
    if ids.Some? && ids.value != [] then
      var urls := seq(|ids.value|, i requires 0 <= i < |ids.value| => PicUrl(ids.value[i]));
      assert forall i :: 0 <= i < |urls| ==> StartsWith(urls[i], PicPrefix) && PicIdOf(urls[i]) == ids.value[i] by {
        forall i | 0 <= i < |urls| ensures StartsWith(urls[i], PicPrefix) && PicIdOf(urls[i]) == ids.value[i] {
          PicRoundTrip(ids.value[i]);
        }
      }
      urls
    else []
  }

  /** `video_url`: the stream URL of a video page, "" otherwise. */
  function VideoUrl(p: Option<PageInfo>): (v: string)
    ensures (p.None? || p.value.kind != Some("video")) ==> v == ""
  {
    if p.Some? && p.value.kind == Some("video") then OrEmpty(p.value.streamUrl) else ""
  }

  // ------------------------------------------------------------ comments

  /** A parsed comment, with the tags a crawl adds (None where the key is not set). */
  datatype Comment = Comment(id: string, userId: string, screenName: string, createdAt: string, text: string,
                             likeCount: int, replyCount: int,
                             weiboId: Option<string>, parentCommentId: Option<string>, topic: Option<string>)

  /** `parse_comment(comment)`. */
  function ParseComment(c: RawComment): (r: Comment)
    ensures r.replyCount == OrZero(c.totalNumber) && r.likeCount == OrZero(c.likeCount)
    ensures r.text == StripTags(OrEmpty(c.text))
    ensures c.user.None? ==> r.userId == "" && r.screenName == ""
    ensures r.weiboId.None? && r.parentCommentId.None? && r.topic.None?
  {
    Comment(OrEmpty(c.id), UserId(c.user), ScreenName(c.user), OrEmpty(c.createdAt), StripTags(OrEmpty(c.text)),
            OrZero(c.likeCount), OrZero(c.totalNumber), None, None, None)
  }

  /** The comment tagged with its weibo, its parent comment and its topic. */
  function Tag(c: Comment, weiboId: string, parent: Option<string>, topic: Option<string>): Comment {
    c.(weiboId := Some(weiboId), parentCommentId := parent, topic := topic)
  }

  /** The replies to comment `parent`, parsed and tagged. */
  function ReplyRecords(rs: seq<RawComment>, weiboId: string, parent: string, topic: Option<string>): seq<Comment> {
    if rs == [] then []
    else
      var n := |rs| - 1;
      ReplyRecords(rs[..n], weiboId, parent, topic) + [Tag(ParseComment(rs[n]), weiboId, Some(parent), topic)]
  }

  /** Whether the crawl fetches the replies of a comment: asked for, some announced, and the comment has an id. */
  predicate FetchesReplies(c: RawComment, includeReplies: bool) {
    includeReplies && OrZero(c.totalNumber) > 0 && OrEmpty(c.id) != ""
  }

  /**
   * The records one comment gives: itself tagged, then its replies when
   * they are fetched; `replies(id)` is what the reply request returned.
   */
  function Thread(c: RawComment, weiboId: string, replies: string -> seq<RawComment>,
                  includeReplies: bool, topic: Option<string>): seq<Comment> {
    [Tag(ParseComment(c), weiboId, None, topic)]
    + (if FetchesReplies(c, includeReplies) then ReplyRecords(replies(OrEmpty(c.id)), weiboId, OrEmpty(c.id), topic) else [])
  }

  /** The records of all comments of one weibo, in order. */
  function Threads(cs: seq<RawComment>, weiboId: string, replies: string -> seq<RawComment>,
                   includeReplies: bool, topic: Option<string>): seq<Comment> {
    if cs == [] then []
    else
      var n := |cs| - 1;
      Threads(cs[..n], weiboId, replies, includeReplies, topic) + Thread(cs[n], weiboId, replies, includeReplies, topic)
  }

  /**
   * The comment records of a crawl over weibos with the given ids: a weibo
   * without an id gets no comment request; `comments(id)` is what the
   * comment request for id returned.
   */
  function CrawlComments(ids: seq<string>, comments: string -> seq<RawComment>, replies: string -> seq<RawComment>,
                         includeReplies: bool, topic: Option<string>): seq<Comment> {
    if ids == [] then []
    else
      var n := |ids| - 1;
      CrawlComments(ids[..n], comments, replies, includeReplies, topic)
      + (if ids[n] != "" then Threads(comments(ids[n]), ids[n], replies, includeReplies, topic) else [])
  }

  /** The replies loop: parse and tag each reply. */
  method CollectReplies(rs: seq<RawComment>, weiboId: string, parent: string, topic: Option<string>)
    returns (out: seq<Comment>)
    ensures out == ReplyRecords(rs, weiboId, parent, topic)
  {
    out := [];
    for i := 0 to |rs|
      invariant out == ReplyRecords(rs[..i], weiboId, parent, topic)
    {
      assert rs[..i + 1][..i] == rs[..i];
      out := out + [Tag(ParseComment(rs[i]), weiboId, Some(parent), topic)];
    }
    assert rs[..|rs|] == rs;
  }

  /** The loop over one weibo's comments, fetching replies where asked. */
  method CollectComments(cs: seq<RawComment>, weiboId: string, replies: string -> seq<RawComment>,
                         includeReplies: bool, topic: Option<string>)
    returns (out: seq<Comment>)
    ensures out == Threads(cs, weiboId, replies, includeReplies, topic)
  {
    out := [];
    for i := 0 to |cs|
      invariant out == Threads(cs[..i], weiboId, replies, includeReplies, topic)
    {
      var thread := CollectThread(cs[i], weiboId, replies, includeReplies, topic);
      assert cs[..i + 1][..i] == cs[..i];
      assert Threads(cs[..i + 1], weiboId, replies, includeReplies, topic)
          == Threads(cs[..i], weiboId, replies, includeReplies, topic) + thread;
      out := out + thread;
    }
    assert cs[..|cs|] == cs;
  }

  /** One comment of the loop: the comment tagged, then its replies when they are fetched. */
  method CollectThread(c: RawComment, weiboId: string, replies: string -> seq<RawComment>,
                       includeReplies: bool, topic: Option<string>)
    returns (thread: seq<Comment>)
    ensures thread == Thread(c, weiboId, replies, includeReplies, topic)
  {
    var parsed := ParseComment(c);
    thread := [Tag(parsed, weiboId, None, topic)];
    if includeReplies && parsed.replyCount > 0 {
      var commentId := OrEmpty(c.id);
      if commentId != "" {
        var rs := CollectReplies(replies(commentId), weiboId, commentId, topic);
        thread := thread + rs;
      }
    }
  }

  // ------------------------------------------------------------ topic search

  /** `card.get('card_type') == 9`. */
  function WeiboCard(c: RawCard): Option<RawCard> {
    if c.cardType == Some(9) then Some(c) else None
  }

  /** The cards of a topic search kept by `get_weibo_by_topic`; `cards` is None when the response has none. */
  function TopicCards(cards: Option<seq<RawCard>>): seq<RawCard> {
    if cards.Some? then FilterMap(cards.value, WeiboCard) else []
  }

  // ------------------------------------------------------------ lemmas

  /** A picture URL names the picture id it was made from. */
  lemma PicRoundTrip(id: string)
    ensures StartsWith(PicUrl(id), PicPrefix) && EndsWith(PicUrl(id), PicSuffix) && PicIdOf(PicUrl(id)) == id
  {
    var u := PicUrl(id);
    assert u[|PicPrefix|..|u| - |PicSuffix|] == id;
  }

  /** Characters only disappear when tags are stripped: none is added. */
  lemma {:induction false} StripTagsSubset(s: string, c: char)
    requires c in StripTags(s)
    ensures c in s
    decreases |s|
  {
    if s != [] {
      if TagAt(s) > 0 {
        StripTagsSubset(s[TagAt(s)..], c);
        assert s[TagAt(s)..][IndexIn(s[TagAt(s)..], c)] == c;
      } else if c != s[0] {
        StripTagsSubset(s[1..], c);
        assert s[1..][IndexIn(s[1..], c)] == c;
      }
    }
  }

  /** Index of an element known to be in s. */
  function IndexIn(s: string, c: char): (k: nat)
    requires c in s
    ensures k < |s| && s[k] == c
  {
    if s[0] == c then 0 else 1 + IndexIn(s[1..], c)
  }

  /** A string starting with '>' keeps it in front when tags are stripped. */
  lemma StripTagsKeepsLeadingGt(s: string)
    requires |s| > 0 && s[0] == '>'
    ensures |StripTags(s)| > 0 && StripTags(s)[0] == '>'
  {
  }

  /** A '<' that no tag can start at: next to a '>' or with no '>' after it. */
  lemma NoTagAtKeptBracket(s: string)
    requires |s| > 0 && s[0] == '<' && TagAt(s) == 0
    ensures (|s| >= 2 && s[1] == '>') || '>' !in s[1..]
  {
    if |s| >= 2 && s[1] != '>' {
      var k := IndexOf(s[1..], '>');
      assert k == |s| - 1;
    }
  }

  /** What is left after stripping has no tag in it. */
  lemma {:induction false} StripTagsLeavesNoTag(s: string)
    ensures TagFree(StripTags(s))
    decreases |s|
  {
    if s != [] {
      if TagAt(s) > 0 {
        StripTagsLeavesNoTag(s[TagAt(s)..]);
      } else {
        var rest := StripTags(s[1..]);
        StripTagsLeavesNoTag(s[1..]);
        var out := [s[0]] + rest;
        assert StripTags(s) == out;
        forall i | 0 <= i < |out|
          ensures TagAt(out[i..]) == 0
        {
          if i > 0 {
            assert out[i..] == rest[i - 1..];
          } else if s[0] == '<' {
            NoTagAtKeptBracket(s);
            if |s| >= 2 && s[1] == '>' {
              StripTagsKeepsLeadingGt(s[1..]);
              assert out[1] == '>';
            } else {
              if '>' in rest {
                StripTagsSubset(s[1..], '>');
              }
              assert out[1..] == rest;
              assert IndexOf(out[1..], '>') == |out| - 1;
            }
          }
        }
      }
    }
  }

  /** A string without tags is left as it is. */
  lemma {:induction false} StripTagsOfTagFree(s: string)
    requires TagFree(s)
    ensures StripTags(s) == s
    decreases |s|
  {
    if s != [] {
      assert TagAt(s[0..]) == 0 && s[0..] == s;
      assert TagFree(s[1..]) by {
        forall i | 0 <= i < |s| - 1 ensures TagAt(s[1..][i..]) == 0 {
          assert s[1..][i..] == s[i + 1..];
        }
      }
      StripTagsOfTagFree(s[1..]);
    }
  }

  /** Stripping tags twice strips nothing more. */
  lemma StripTagsIdempotent(s: string)
    ensures StripTags(StripTags(s)) == StripTags(s)
  {
    StripTagsLeavesNoTag(s);
    StripTagsOfTagFree(StripTags(s));
  }

  /** Exactly the cards of type 9 are kept, in order. */
  lemma TopicCardsSpec(cards: seq<RawCard>)
    ensures forall c :: c in TopicCards(Some(cards)) <==> c in cards && c.cardType == Some(9)
  {
    FilterMapSpec(cards, WeiboCard);
    forall c | c in cards && c.cardType == Some(9)
      ensures c in TopicCards(Some(cards))
    {
      var i :| 0 <= i < |cards| && cards[i] == c;
    }
  }

  /**
   * Every record of a comment thread carries the weibo id and the topic;
   * only replies carry a parent id, which is then the comment's own id, and
   * replies only appear when they were asked for.
   */
  lemma ThreadTags(c: RawComment, weiboId: string, replies: string -> seq<RawComment>,
                   includeReplies: bool, topic: Option<string>)
    ensures var t := Thread(c, weiboId, replies, includeReplies, topic);
            && t[0].parentCommentId.None?
            && forall r :: r in t ==> r.weiboId == Some(weiboId) && r.topic == topic
                                      && (r.parentCommentId.Some? ==> includeReplies && r.parentCommentId == Some(OrEmpty(c.id)))
    ensures !FetchesReplies(c, includeReplies) ==> |Thread(c, weiboId, replies, includeReplies, topic)| == 1
  {
    if FetchesReplies(c, includeReplies) {
      ReplyTags(replies(OrEmpty(c.id)), weiboId, OrEmpty(c.id), topic);
    }
  }

  lemma {:induction false} ReplyTags(rs: seq<RawComment>, weiboId: string, parent: string, topic: Option<string>)
    ensures |ReplyRecords(rs, weiboId, parent, topic)| == |rs|
    ensures forall r :: r in ReplyRecords(rs, weiboId, parent, topic) ==>
              r.weiboId == Some(weiboId) && r.topic == topic && r.parentCommentId == Some(parent)
  {
    if rs != [] {
      ReplyTags(rs[..|rs| - 1], weiboId, parent, topic);
    }
  }

  lemma {:induction false} ThreadsTags(cs: seq<RawComment>, weiboId: string, replies: string -> seq<RawComment>,
                                       includeReplies: bool, topic: Option<string>)
    ensures forall r :: r in Threads(cs, weiboId, replies, includeReplies, topic) ==>
              r.weiboId == Some(weiboId) && r.topic == topic && (r.parentCommentId.Some? ==> includeReplies)
    ensures !includeReplies ==> |Threads(cs, weiboId, replies, includeReplies, topic)| == |cs|
  {
    if cs != [] {
      var n := |cs| - 1;
      ThreadsTags(cs[..n], weiboId, replies, includeReplies, topic);
      ThreadTags(cs[n], weiboId, replies, includeReplies, topic);
    }
  }

  /**
   * Every comment record of a crawl is tagged with the non-empty id of one
   * of the weibos crawled and with the crawl's topic; without replies asked
   * for, no record has a parent and the reply requests play no part.
   */
  lemma {:induction false} CrawlCommentsTags(ids: seq<string>, comments: string -> seq<RawComment>,
                                             replies: string -> seq<RawComment>, includeReplies: bool,
                                             topic: Option<string>)
    ensures forall r :: r in CrawlComments(ids, comments, replies, includeReplies, topic) ==>
              && r.weiboId.Some? && r.weiboId.value in ids && r.weiboId.value != ""
              && r.topic == topic && (r.parentCommentId.Some? ==> includeReplies)
  {
    if ids != [] {
      var n := |ids| - 1;
      CrawlCommentsTags(ids[..n], comments, replies, includeReplies, topic);
      if ids[n] != "" {
        ThreadsTags(comments(ids[n]), ids[n], replies, includeReplies, topic);
      }
      forall r | r in CrawlComments(ids, comments, replies, includeReplies, topic)
        ensures r.weiboId.Some? && r.weiboId.value in ids
      {
        if r in CrawlComments(ids[..n], comments, replies, includeReplies, topic) {
          assert r.weiboId.value in ids[..n];
        }
      }
    }
  }

  /** Without replies asked for, what the reply requests would return does not matter. */
  lemma {:induction false} NoRepliesWithoutFlag(ids: seq<string>, comments: string -> seq<RawComment>,
                                                replies: string -> seq<RawComment>, replies': string -> seq<RawComment>,
                                                topic: Option<string>)
    ensures CrawlComments(ids, comments, replies, false, topic) == CrawlComments(ids, comments, replies', false, topic)
  {
    if ids != [] {
      NoRepliesWithoutFlag(ids[..|ids| - 1], comments, replies, replies', topic);
      if ids[|ids| - 1] != "" {
        ThreadsIgnoreReplies(comments(ids[|ids| - 1]), ids[|ids| - 1], replies, replies', topic);
      }
    }
  }

  lemma {:induction false} ThreadsIgnoreReplies(cs: seq<RawComment>, weiboId: string, replies: string -> seq<RawComment>,
                                                replies': string -> seq<RawComment>, topic: Option<string>)
    ensures Threads(cs, weiboId, replies, false, topic) == Threads(cs, weiboId, replies', false, topic)
  {
    if cs != [] {
      ThreadsIgnoreReplies(cs[..|cs| - 1], weiboId, replies, replies', topic);
    }
  }
}
