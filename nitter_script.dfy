/**
 * `post_wixoss_to_bsky.py`: one pass over the scraped Nitter timeline of
 * the official account.  Items whose fields are all present and whose date
 * lies inside the 24-hour window are posted to Bluesky, with the first (at
 * most four) usable image tags downloaded and attached.
 *
 * Scraped items are records with optional fields (the selectors that found
 * nothing), dates are instants in microseconds produced by an abstract
 * parser, image downloads are an abstract operation that may raise, and
 * the Bluesky session is the recording `Bluesky.Client`.
 */
module NitterScript {
  import opened Wrappers
  import opened Bluesky
  import opened PyStr

  const NITTER_BASE: string := "https://nitter.poast.org"
  const POST_PREFIX: string := "[wixoss公式] "
  const PERMALINK_BASE: string := "https://twitter.com"
  /** Only the first four image tags of an item are examined. */
  const MAX_IMAGE_TAGS: nat := 4

  /** One hour and one day, in microseconds. */
  const HOUR: int := 3_600_000_000
  const DAY: int := 24 * HOUR
  /** The offset of Japan Standard Time from UTC. */
  const JST_OFFSET: int := 9 * HOUR

  /** An attribute value: a string, or the list BeautifulSoup gives for a multi-valued attribute. */
  datatype AttrValue = Text(s: string) | Multi(parts: seq<string>)

  /** An `<img>` under `.attachment.image`, with its `src` attribute if it has one. */
  datatype ImgTag = ImgTag(src: Option<AttrValue>)

  /** The `a.tweet-link` anchor, with its `href` attribute if it has one. */
  datatype LinkTag = LinkTag(href: Option<string>)

  /**
   * One `.timeline-item`: the text of its `.tweet-date a`, the text of its
   * `.tweet-content`, its `a.tweet-link`, and its image tags in document
   * order; `None` where the selector found nothing.
   */
  datatype TimelineItem = TimelineItem(dateText: Option<string>, contentText: Option<string>,
                                       link: Option<LinkTag>, imageTags: seq<ImgTag>)

  /** Why an item is passed over with `continue`. */
  datatype Skip = NoDateTag | UnparsableDate | OutsideWindow | MissingField

  /** What a kept item will post: its text and the URLs of the images to attach. */
  datatype Draft = Draft(text: string, imageUrls: seq<string>)

  /** The window test: `window_start <= tweet_time <= now`, both ends inclusive. */
  predicate InWindow(now: int, t: int)
  {
    now - DAY <= t <= now
  }

  /** The instant `now` stands for, as intended: the current time (the JST label changes no instant). */
  function ScriptNow(clock: int): (now: int)
    ensures forall t :: InWindow(now, t) <==> clock - DAY <= t <= clock
  {
    clock
  }

  /** The instant `datetime.now(timezone.utc) + timedelta(hours=9)` denotes: nine hours in the future. */
  function ScriptNowAsWritten(clock: int): (now: int)
    ensures now - clock == JST_OFFSET
  {
    clock + JST_OFFSET
  }

  /** As written, the window reaches nine hours into the future and only fifteen hours into the past. */
  lemma AsWrittenWindowIsShifted(clock: int, t: int)
    ensures InWindow(ScriptNowAsWritten(clock), t) <==> clock - 15 * HOUR <= t <= clock + 9 * HOUR
  {
  }

  /** An item posted twenty hours ago is inside the last 24 hours, yet the as-written test rejects it. */
  lemma AsWrittenWindowMissesRecentItem(clock: int)
    ensures InWindow(ScriptNow(clock), clock - 20 * HOUR)
    ensures !InWindow(ScriptNowAsWritten(clock), clock - 20 * HOUR)
  {
  }

  predicate IsAbsolute(url: string)
  {
    "http://" <= url || "https://" <= url
  }

  /** An absolute `src` is used unchanged; any other is appended to the site base. */
  function ResolveImageUrl(src: string): (url: string)
    ensures IsAbsolute(url)
    ensures IsAbsolute(src) ==> url == src
    ensures !IsAbsolute(src) ==> url == NITTER_BASE + src
  {
    if IsAbsolute(src) then src
    else
      assert (NITTER_BASE + src)[..8] == "https://";
      NITTER_BASE + src
  }

  /** Resolving an already resolved URL changes nothing. */
  lemma ResolveIdempotent(src: string)
    ensures ResolveImageUrl(ResolveImageUrl(src)) == ResolveImageUrl(src)
  {
  }

  /** `src` when it is a non-empty string (`if img_src and isinstance(img_src, str)`). */
  function UsableSrc(tag: ImgTag): (r: Option<string>)
    ensures r.Some? <==> tag.src.Some? && tag.src.value.Text? && tag.src.value.s != []
    ensures r.Some? ==> r.value == tag.src.value.s
  {
    match tag.src
    case Some(Text(s)) => if s != [] then Some(s) else None
    case _ => None
  }

  /** `tweet.select(...)[:4]`. */
  function FirstTags(tags: seq<ImgTag>): (r: seq<ImgTag>)
    ensures |r| <= MAX_IMAGE_TAGS && r <= tags
    ensures |tags| <= MAX_IMAGE_TAGS ==> r == tags
    ensures |r| == if |tags| <= MAX_IMAGE_TAGS then |tags| else MAX_IMAGE_TAGS
  {
    if |tags| <= MAX_IMAGE_TAGS then tags else tags[..MAX_IMAGE_TAGS]
  }

  /** The resolved URLs of the tags with a usable `src`, in order. */
  function ImageUrls(tags: seq<ImgTag>): (urls: seq<string>)
    ensures |urls| <= |tags|
  {
    if tags == [] then []
    else
      var init := ImageUrls(tags[..|tags| - 1]);
      match UsableSrc(tags[|tags| - 1])
      case Some(src) => init + [ResolveImageUrl(src)]
      case None => init
  }

  /** A URL is selected exactly when some tag has a usable `src` resolving to it; every one is absolute. */
  lemma {:induction false} ImageUrlsExactly(tags: seq<ImgTag>)
    ensures forall u ::
      u in ImageUrls(tags) <==> exists k :: 0 <= k < |tags| && UsableSrc(tags[k]).Some? && u == ResolveImageUrl(UsableSrc(tags[k]).value)
    ensures forall u <- ImageUrls(tags) :: IsAbsolute(u)
  {
    if tags != [] {
      var init := tags[..|tags| - 1];
      ImageUrlsExactly(init);
      forall u | exists k :: 0 <= k < |tags| && UsableSrc(tags[k]).Some? && u == ResolveImageUrl(UsableSrc(tags[k]).value)
        ensures u in ImageUrls(tags)
      {
        var k :| 0 <= k < |tags| && UsableSrc(tags[k]).Some? && u == ResolveImageUrl(UsableSrc(tags[k]).value);
        if k < |tags| - 1 {
          assert tags[k] == init[k];
        }
      }
    }
  }

  /** The URLs selected from a prefix of the tags are a prefix of those selected from all of them. */
  lemma {:induction false} ImageUrlsPrefix(tags: seq<ImgTag>, i: nat)
    requires i <= |tags|
    ensures ImageUrls(tags[..i]) <= ImageUrls(tags)
    decreases |tags| - i
  {
    if i < |tags| {
      ImageUrlsPrefix(tags, i + 1);
      assert tags[..i + 1][..i] == tags[..i];
    } else {
      assert tags[..i] == tags;
    }
  }

  /** One more tag adds its resolved URL when its `src` is usable, and nothing otherwise. */
  lemma ImageUrlsStep(tags: seq<ImgTag>, k: nat)
    requires k < |tags|
    ensures UsableSrc(tags[k]).Some? ==> ImageUrls(tags[..k + 1]) == ImageUrls(tags[..k]) + [ResolveImageUrl(UsableSrc(tags[k]).value)]
    ensures UsableSrc(tags[k]).None? ==> ImageUrls(tags[..k + 1]) == ImageUrls(tags[..k])
  {
    assert tags[..k + 1][..k] == tags[..k];
  }

  /** `"[wixoss公式] " + text + "\n" + full_url`, where `full_url` is the permalink built from `href`. */
  function PostText(text: string, href: string): string
  {
    POST_PREFIX + text + "\n" + PERMALINK_BASE + href
  }

  /** The post text is the prefix, then the item text, a newline, and the permalink at the end. */
  lemma PostTextLayout(text: string, href: string)
    ensures var r := PostText(text, href);
      var n := |POST_PREFIX| + |text|;
      && POST_PREFIX <= r
      && r[|POST_PREFIX|..n] == text
      && r[n] == '\n'
      && r[n + 1..] == PERMALINK_BASE + href
  {
    var r := PostText(text, href);
    var n := |POST_PREFIX| + |text|;
    assert r == (POST_PREFIX + text) + ("\n" + (PERMALINK_BASE + href));
    assert (POST_PREFIX + text)[|POST_PREFIX|..] == text;
  }

  /**
   * The filtering part of the loop body: the skip reason of an item, or
   * what it will post.  Dates and texts are stripped before use.
   */
  function Decide(item: TimelineItem, now: int, parseDate: string -> Option<int>): Result<Draft, Skip>
  {
    if item.dateText.None? then Failure(NoDateTag)
    else
      match parseDate(Strip(item.dateText.value))
      case None => Failure(UnparsableDate)
      case Some(t) =>
        if !InWindow(now, t) then Failure(OutsideWindow)
        else if item.contentText.None? || item.link.None? || item.link.value.href.None? then Failure(MissingField)
        else Success(Draft(PostText(Strip(item.contentText.value), item.link.value.href.value),
                           ImageUrls(FirstTags(item.imageTags))))
  }

  /**
   * An item is kept exactly when it has a date tag whose stripped text
   * parses to an instant inside the window, a content tag, and a link tag
   * with an `href`.
   */
  lemma DecideKeeps(item: TimelineItem, now: int, parseDate: string -> Option<int>)
    ensures Decide(item, now, parseDate).Success? <==>
      && item.dateText.Some?
      && parseDate(Strip(item.dateText.value)).Some?
      && InWindow(now, parseDate(Strip(item.dateText.value)).value)
      && item.contentText.Some? && item.link.Some? && item.link.value.href.Some?
  {
    if item.dateText.None? {
      assert Decide(item, now, parseDate) == Failure(NoDateTag);
    } else {
      var date := Strip(item.dateText.value);
      match parseDate(date)
      case None =>
        assert Decide(item, now, parseDate) == Failure(UnparsableDate);
      case Some(t) =>
        if !InWindow(now, t) {
          assert Decide(item, now, parseDate) == Failure(OutsideWindow);
        } else if item.contentText.None? || item.link.None? || item.link.value.href.None? {
          assert Decide(item, now, parseDate) == Failure(MissingField);
        } else {
          assert Decide(item, now, parseDate).Success?;
        }
    }
  }

  /** A kept item's draft has the formatted text and at most four absolute image URLs. */
  lemma DecideDraft(item: TimelineItem, now: int, parseDate: string -> Option<int>)
    requires Decide(item, now, parseDate).Success?
    ensures item.contentText.Some? && item.link.Some? && item.link.value.href.Some?
    ensures var d := Decide(item, now, parseDate).value;
      && d.text == PostText(Strip(item.contentText.value), item.link.value.href.value)
      && |d.imageUrls| <= MAX_IMAGE_TAGS
      && (forall u <- d.imageUrls :: IsAbsolute(u))
  {
    assert Decide(item, now, parseDate) == Success(Draft(PostText(Strip(item.contentText.value), item.link.value.href.value), ImageUrls(FirstTags(item.imageTags))));
    SelectedUrlsAbsolute(item.imageTags);
  }

  /** At most four URLs are taken from an item's image tags, all of them absolute. */
  lemma SelectedUrlsAbsolute(tags: seq<ImgTag>)
    ensures var urls := ImageUrls(FirstTags(tags));
      |urls| <= MAX_IMAGE_TAGS && forall u <- urls :: IsAbsolute(u)
  {
    ImageUrlsExactly(FirstTags(tags));
  }

  /** `requests.get(url).content` for every URL in order; `None` once one of them raises. */
  function FetchAll(urls: seq<string>, get: string -> Option<Bytes>): (r: Option<seq<Bytes>>)
    ensures r.Some? ==> |r.value| == |urls|
  {
    if urls == [] then Some([])
    else
      match FetchAll(urls[..|urls| - 1], get)
      case None => None
      case Some(init) =>
        match get(urls[|urls| - 1])
        case None => None
        case Some(b) => Some(init + [b])
  }

  /** The downloads succeed exactly when every URL downloads, and then hold each download in order. */
  lemma {:induction false} FetchAllExactly(urls: seq<string>, get: string -> Option<Bytes>)
    ensures FetchAll(urls, get).Some? <==> forall k :: 0 <= k < |urls| ==> get(urls[k]).Some?
    ensures FetchAll(urls, get).Some? ==> forall k :: 0 <= k < |urls| ==> FetchAll(urls, get).value[k] == get(urls[k]).value
  {
    if urls != [] {
      var init := urls[..|urls| - 1];
      FetchAllExactly(init, get);
      assert forall k :: 0 <= k < |init| ==> init[k] == urls[k];
    }
  }

  /** Downloading one more URL. */
  lemma FetchAllSnoc(urls: seq<string>, url: string, get: string -> Option<Bytes>)
    ensures FetchAll(urls + [url], get) ==
      if FetchAll(urls, get).Some? && get(url).Some? then Some(FetchAll(urls, get).value + [get(url).value]) else None
  {
    assert (urls + [url])[..|urls|] == urls;
  }

  /** A download failure among the first URLs is a failure of all of them. */
  lemma FetchAllFailsOnPrefix(urls: seq<string>, pre: seq<string>, get: string -> Option<Bytes>)
    requires pre <= urls
    requires FetchAll(pre, get).None?
    ensures FetchAll(urls, get).None?
  {
    FetchAllExactly(pre, get);
    FetchAllExactly(urls, get);
    var k :| 0 <= k < |pre| && get(pre[k]).None?;
    assert pre[k] == urls[k];
  }

  /** `image_alts`: one empty alt text per image. */
  function Blanks(n: nat): (alts: seq<string>)
    ensures |alts| == n
    ensures forall k :: 0 <= k < n ==> alts[k] == ""
  {
    seq(n, k => "")
  }

  /** Why the script stops part-way: an image download or a post raised. */
  datatype Halt = ImageFetchFailed | SendFailed

  /** The effect of the loop body on one item. */
  datatype ItemEffect = ItemEffect(blobs: seq<Bytes>, feed: seq<Post>, posted: bool, halt: Option<Halt>)

  /**
   * The downloaded images and the text posted: with `send_images` when
   * there are images and with `send_post` otherwise.
   */
  function Publish(blobs: seq<Bytes>, feed: seq<Post>, text: string, images: seq<Bytes>, svc: Service): (e: ItemEffect)
    ensures blobs <= e.blobs && feed <= e.feed
  {
    var alts := Blanks(|images|);
    if images != [] then
      if ImagesAccepted(svc, text, images, alts) then
        ItemEffect(blobs + images, feed + [ImagesPost(text, images, alts)], true, None)
      else ItemEffect(blobs, feed, false, Some(SendFailed))
    else if svc.sendOk(TextPost(text)) then ItemEffect(blobs, feed + [TextPost(text)], true, None)
    else ItemEffect(blobs, feed, false, Some(SendFailed))
  }

  /** A kept item: its images fetched, then published. */
  function Deliver(blobs: seq<Bytes>, feed: seq<Post>, d: Draft, get: string -> Option<Bytes>, svc: Service): (e: ItemEffect)
    ensures blobs <= e.blobs && feed <= e.feed
  {
    match FetchAll(d.imageUrls, get)
    case None => ItemEffect(blobs, feed, false, Some(ImageFetchFailed))
    case Some(images) => Publish(blobs, feed, d.text, images, svc)
  }

  /** One item of the loop: skipped, or delivered. */
  function Attempt(blobs: seq<Bytes>, feed: seq<Post>, item: TimelineItem, now: int,
                   parseDate: string -> Option<int>, get: string -> Option<Bytes>, svc: Service): (e: ItemEffect)
    ensures blobs <= e.blobs && feed <= e.feed
  {
    match Decide(item, now, parseDate)
    case Failure(_) => ItemEffect(blobs, feed, false, None)
    case Success(d) => Deliver(blobs, feed, d, get, svc)
  }

  /**
   * The shape of every post the script makes: the prefixed text, no facets,
   * no reply, and either no embed or one to four image entries with empty
   * alt texts.
   */
  predicate ScriptPost(p: Post)
  {
    && POST_PREFIX <= p.text
    && p.facets == [] && p.reply.None?
    && (p.embed.Some? ==> 1 <= |p.embed.value| <= MAX_IMAGE_TAGS && forall en <- p.embed.value :: en.alt == "")
  }

  /**
   * Delivering a draft adds at most one post, and adds one exactly when it
   * succeeds; a delivery that raises leaves the session as it was.
   */
  lemma DeliverCounts(blobs: seq<Bytes>, feed: seq<Post>, d: Draft, get: string -> Option<Bytes>, svc: Service)
    ensures var e := Deliver(blobs, feed, d, get, svc);
      && |e.feed| <= |feed| + 1
      && (e.posted <==> |e.feed| == |feed| + 1)
      && (e.posted <==> e.halt.None?)
      && (e.halt.Some? ==> e.blobs == blobs && e.feed == feed)
      && (e.halt == Some(ImageFetchFailed) <==> FetchAll(d.imageUrls, get).None?)
  {
    match FetchAll(d.imageUrls, get)
    case None =>
    case Some(images) =>
      if images != [] {
        if ImagesAccepted(svc, d.text, images, Blanks(|images|)) {
        }
      }
  }

  /**
   * A delivered post is the draft's text with the script's shape, and it
   * carries the downloaded images, uploaded in order, exactly when there
   * are any.
   */
  lemma DeliverShape(blobs: seq<Bytes>, feed: seq<Post>, d: Draft, get: string -> Option<Bytes>, svc: Service)
    requires POST_PREFIX <= d.text && |d.imageUrls| <= MAX_IMAGE_TAGS
    requires Deliver(blobs, feed, d, get, svc).posted
    ensures FetchAll(d.imageUrls, get).Some?
    ensures var e := Deliver(blobs, feed, d, get, svc);
      var images := FetchAll(d.imageUrls, get).value;
      && |e.feed| == |feed| + 1
      && e.feed[|feed|].text == d.text
      && ScriptPost(e.feed[|feed|])
      && (e.feed[|feed|].embed.Some? <==> images != [])
      && e.blobs == blobs + images
  {
    var images := FetchAll(d.imageUrls, get).value;
    if images != [] {
      ImagesPostShape(d.text, images);
    }
  }

  /**
   * One item adds at most one post, and adds one exactly when it is posted;
   * an item that raises or is skipped leaves the session as it was; a
   * posted item's post is its draft's text with the script's shape.
   */
  lemma AttemptPosts(blobs: seq<Bytes>, feed: seq<Post>, item: TimelineItem, now: int,
                     parseDate: string -> Option<int>, get: string -> Option<Bytes>, svc: Service)
    ensures var e := Attempt(blobs, feed, item, now, parseDate, get, svc);
      && |e.feed| <= |feed| + 1
      && (e.posted <==> |e.feed| == |feed| + 1)
      && (e.posted ==> e.halt.None?)
      && (e.halt.Some? ==> e.blobs == blobs && e.feed == feed)
      && (Decide(item, now, parseDate).Failure? ==> e == ItemEffect(blobs, feed, false, None))
      && (e.posted ==> e.feed[|feed|].text == Decide(item, now, parseDate).value.text && ScriptPost(e.feed[|feed|]))
  {
    match Decide(item, now, parseDate)
    case Failure(_) =>
    case Success(d) =>
      DeliverCounts(blobs, feed, d, get, svc);
      if Deliver(blobs, feed, d, get, svc).posted {
        DecideDraft(item, now, parseDate);
        PostTextLayout(Strip(item.contentText.value), item.link.value.href.value);
        DeliverShape(blobs, feed, d, get, svc);
      }
  }

  /** A post with images, as the script sends it, has the script's shape. */
  lemma ImagesPostShape(text: string, images: seq<Bytes>)
    requires POST_PREFIX <= text
    requires 1 <= |images| <= MAX_IMAGE_TAGS
    ensures ScriptPost(ImagesPost(text, images, Blanks(|images|)))
    ensures ImagesPost(text, images, Blanks(|images|)).embed.Some?
  {
    var p := ImagesPost(text, images, Blanks(|images|));
    forall en <- p.embed.value
      ensures en.alt == ""
    {
      var k :| 0 <= k < |images| && p.embed.value[k] == en;
    }
  }

  /** The state of the pass: the session, the `posted_any` flag, and why it stopped, if it did. */
  datatype Run = Run(blobs: seq<Bytes>, feed: seq<Post>, postedAny: bool, halt: Option<Halt>)

  /** The loop over the items: each attempted in turn until one raises. */
  function ExecItems(blobs: seq<Bytes>, feed: seq<Post>, items: seq<TimelineItem>, now: int,
                     parseDate: string -> Option<int>, get: string -> Option<Bytes>, svc: Service): (r: Run)
    ensures blobs <= r.blobs && feed <= r.feed
  {
    if items == [] then Run(blobs, feed, false, None)
    else
      var before := ExecItems(blobs, feed, items[..|items| - 1], now, parseDate, get, svc);
      if before.halt.Some? then before
      else
        var e := Attempt(before.blobs, before.feed, items[|items| - 1], now, parseDate, get, svc);
        Run(e.blobs, e.feed, before.postedAny || e.posted, e.halt)
  }

  /**
   * `posted_any` holds exactly when something was posted; at most one post
   * per item is made, and every post has the script's shape.
   */
  lemma {:induction false} ExecItemsPosts(blobs: seq<Bytes>, feed: seq<Post>, items: seq<TimelineItem>, now: int,
                                          parseDate: string -> Option<int>, get: string -> Option<Bytes>, svc: Service)
    ensures var r := ExecItems(blobs, feed, items, now, parseDate, get, svc);
      && (r.postedAny <==> |r.feed| > |feed|)
      && |r.feed| <= |feed| + |items|
      && forall k :: |feed| <= k < |r.feed| ==> ScriptPost(r.feed[k])
  {
    if items != [] {
      var init := items[..|items| - 1];
      var before := ExecItems(blobs, feed, init, now, parseDate, get, svc);
      var r := ExecItems(blobs, feed, items, now, parseDate, get, svc);
      ExecItemsPosts(blobs, feed, init, now, parseDate, get, svc);
      if before.halt.None? {
        var e := Attempt(before.blobs, before.feed, items[|items| - 1], now, parseDate, get, svc);
        AttemptPosts(before.blobs, before.feed, items[|items| - 1], now, parseDate, get, svc);
        RunStepPosts(feed, |init|, before, e);
      }
    }
  }

  /** The induction step of `ExecItemsPosts`, on the values alone. */
  lemma RunStepPosts(feed: seq<Post>, n: nat, before: Run, e: ItemEffect)
    requires before.postedAny <==> |before.feed| > |feed|
    requires |feed| <= |before.feed| <= |feed| + n
    requires forall k :: |feed| <= k < |before.feed| ==> ScriptPost(before.feed[k])
    requires before.feed <= e.feed && |e.feed| <= |before.feed| + 1
    requires e.posted <==> |e.feed| == |before.feed| + 1
    requires e.posted ==> ScriptPost(e.feed[|before.feed|])
    ensures var r := Run(e.blobs, e.feed, before.postedAny || e.posted, e.halt);
      && (r.postedAny <==> |r.feed| > |feed|)
      && |r.feed| <= |feed| + n + 1
      && forall k :: |feed| <= k < |r.feed| ==> ScriptPost(r.feed[k])
  {
    forall k | |feed| <= k < |e.feed|
      ensures ScriptPost(e.feed[k])
    {
      if k < |before.feed| {
        assert e.feed[k] == before.feed[k];
      }
    }
  }

  /** Item `i` is attempted on the session the items before it left, unless one of them raised. */
  lemma ExecItemsStep(blobs: seq<Bytes>, feed: seq<Post>, items: seq<TimelineItem>, now: int,
                      parseDate: string -> Option<int>, get: string -> Option<Bytes>, svc: Service, i: nat)
    requires i < |items|
    ensures var before := ExecItems(blobs, feed, items[..i], now, parseDate, get, svc);
      var e := Attempt(before.blobs, before.feed, items[i], now, parseDate, get, svc);
      ExecItems(blobs, feed, items[..i + 1], now, parseDate, get, svc) ==
        if before.halt.Some? then before else Run(e.blobs, e.feed, before.postedAny || e.posted, e.halt)
  {
    assert items[..i + 1][..i] == items[..i];
  }

  /** Once an item raises, the items after it are never attempted. */
  lemma {:induction false} ExecItemsHaltPersists(blobs: seq<Bytes>, feed: seq<Post>, items: seq<TimelineItem>, now: int,
                                                 parseDate: string -> Option<int>, get: string -> Option<Bytes>, svc: Service, i: nat)
    requires i <= |items|
    requires ExecItems(blobs, feed, items[..i], now, parseDate, get, svc).halt.Some?
    ensures ExecItems(blobs, feed, items, now, parseDate, get, svc) == ExecItems(blobs, feed, items[..i], now, parseDate, get, svc)
    decreases |items| - i
  {
    if i < |items| {
      assert items[..i + 1][..i] == items[..i];
      ExecItemsHaltPersists(blobs, feed, items, now, parseDate, get, svc, i + 1);
    } else {
      assert items[..i] == items;
    }
  }

  /** How the script ends. */
  datatype ScriptOutcome =
    | PageFetchFailed       // the timeline request raised
    | NoTimeline            // no `.timeline-item`: the page is dumped and the script exits
    | LoginFailed           // `client.login` raised
    | Halted(reason: Halt)  // an image download or a post raised
    | Finished(postedAny: bool)

  /**
   * The image loop: the first four tags, each with a usable `src` resolved
   * and downloaded, its bytes appended to `images` and an empty alt text to
   * `alts`; `ok` is false where a download raises.
   */
  method CollectImages(tags: seq<ImgTag>, get: string -> Option<Bytes>)
    returns (images: seq<Bytes>, alts: seq<string>, ok: bool)
    ensures ok <==> FetchAll(ImageUrls(FirstTags(tags)), get).Some?
    ensures ok ==> images == FetchAll(ImageUrls(FirstTags(tags)), get).value
    ensures |alts| == |images| <= MAX_IMAGE_TAGS && alts == Blanks(|images|)
  {
    var first := FirstTags(tags);
    images, alts := [], [];
    for k := 0 to |first|
      invariant FetchAll(ImageUrls(first[..k]), get) == Some(images)
      invariant |images| <= k && alts == Blanks(|images|)
    {
      var more;
      images, alts, more := CollectTag(first, k, images, alts, get);
      if !more {
        PrefixFailureStops(first, k + 1, get);
        assert |images| <= k + 1 <= MAX_IMAGE_TAGS;
        return images, alts, false;
      }
    }
    assert first[..|first|] == first;
    ok := true;
  }

  /**
   * One pass of the image loop, on tag `k`: a usable `src` is resolved and
   * downloaded and its bytes and an empty alt text appended; `more` is
   * false where the download raises.
   */
  method CollectTag(tags: seq<ImgTag>, k: nat, images: seq<Bytes>, alts: seq<string>, get: string -> Option<Bytes>)
    returns (images': seq<Bytes>, alts': seq<string>, more: bool)
    requires k < |tags|
    requires FetchAll(ImageUrls(tags[..k]), get) == Some(images)
    requires alts == Blanks(|images|)
    ensures more <==> FetchAll(ImageUrls(tags[..k + 1]), get).Some?
    ensures more ==> FetchAll(ImageUrls(tags[..k + 1]), get) == Some(images')
    ensures |images'| <= |images| + 1 && alts' == Blanks(|images'|)
  {
    var src := UsableSrc(tags[k]);
    if src.Some? {
      var url := ResolveImageUrl(src.value);
      var data := get(url);
      if data.None? {
        DownloadFails(tags, k, images, src.value, get);
        return images, alts, false;
      }
      DownloadAppends(tags, k, images, src.value, data.value, get);
      return images + [data.value], alts + [""], true;
    }
    TagSkipped(tags, k, images, get);
    return images, alts, true;
  }

  /** A tag without a usable `src` adds no download. */
  lemma TagSkipped(tags: seq<ImgTag>, k: nat, images: seq<Bytes>, get: string -> Option<Bytes>)
    requires k < |tags| && UsableSrc(tags[k]).None?
    requires FetchAll(ImageUrls(tags[..k]), get) == Some(images)
    ensures FetchAll(ImageUrls(tags[..k + 1]), get) == Some(images)
  {
    ImageUrlsStep(tags, k);
  }

  /** A tag whose resolved `src` downloads adds those bytes at the end. */
  lemma DownloadAppends(tags: seq<ImgTag>, k: nat, images: seq<Bytes>, src: string, data: Bytes,
                        get: string -> Option<Bytes>)
    requires k < |tags| && UsableSrc(tags[k]) == Some(src)
    requires FetchAll(ImageUrls(tags[..k]), get) == Some(images)
    requires get(ResolveImageUrl(src)) == Some(data)
    ensures FetchAll(ImageUrls(tags[..k + 1]), get) == Some(images + [data])
  {
    ImageUrlsStep(tags, k);
    FetchAllSnoc(ImageUrls(tags[..k]), ResolveImageUrl(src), get);
  }

  /** A tag whose resolved `src` fails to download fails the downloads up to it. */
  lemma DownloadFails(tags: seq<ImgTag>, k: nat, images: seq<Bytes>, src: string, get: string -> Option<Bytes>)
    requires k < |tags| && UsableSrc(tags[k]) == Some(src)
    requires FetchAll(ImageUrls(tags[..k]), get) == Some(images)
    requires get(ResolveImageUrl(src)).None?
    ensures FetchAll(ImageUrls(tags[..k + 1]), get).None?
  {
    var url := ResolveImageUrl(src);
    ImageUrlsStep(tags, k);
    assert ImageUrls(tags[..k + 1]) == ImageUrls(tags[..k]) + [url];
    FetchAllSnoc(ImageUrls(tags[..k]), url, get);
  }

  /** A failed download among the images of the first tags is a failure of the images of all of them. */
  lemma PrefixFailureStops(tags: seq<ImgTag>, i: nat, get: string -> Option<Bytes>)
    requires i <= |tags|
    requires FetchAll(ImageUrls(tags[..i]), get).None?
    ensures FetchAll(ImageUrls(tags), get).None?
  {
    ImageUrlsPrefix(tags, i);
    FetchAllFailsOnPrefix(ImageUrls(tags), ImageUrls(tags[..i]), get);
  }

  /**
   * The script.  `fetched` is the parsed timeline page (`None` where the
   * request raised), `clock` the current instant, `parseDate` the
   * `strptime` of a date text as JST, `get` the image download, and
   * `client` the not yet logged-in Bluesky session.
   */
  method RunScript(fetched: Option<seq<TimelineItem>>, clock: int, parseDate: string -> Option<int>,
                   get: string -> Option<Bytes>, client: Client)
    returns (outcome: ScriptOutcome)
    requires !client.loggedIn
    modifies client
    ensures fetched.None? <==> outcome == PageFetchFailed
    ensures fetched == Some([]) <==> outcome == NoTimeline
    ensures outcome.PageFetchFailed? || outcome.NoTimeline? || outcome.LoginFailed? ==>
      !client.loggedIn && client.blobs == old(client.blobs) && client.feed == old(client.feed)
    ensures fetched.Some? && fetched.value != [] ==>
      var r := ExecItems(old(client.blobs), old(client.feed), fetched.value, ScriptNow(clock), parseDate, get, client.service);
      && (outcome == LoginFailed <==> !client.service.loginOk)
      && (client.service.loginOk ==>
            && client.blobs == r.blobs && client.feed == r.feed
            && outcome == (if r.halt.Some? then Halted(r.halt.value) else Finished(r.postedAny)))
  {
    if fetched.None? {
      return PageFetchFailed;
    }
    var tweets := fetched.value;
    if |tweets| == 0 {
      return NoTimeline;
    }
    var ok := client.Login();
    if !ok {
      return LoginFailed;
    }

    var now := ScriptNow(clock);
    var postedAny := false;
    for i := 0 to |tweets|
      invariant client.loggedIn
      invariant var r := ExecItems(old(client.blobs), old(client.feed), tweets[..i], now, parseDate, get, client.service);
        && r.halt.None? && client.blobs == r.blobs && client.feed == r.feed && postedAny == r.postedAny
    {
      var halt, posted := PostItem(client, tweets[i], now, parseDate, get);
      ExecItemsStep(old(client.blobs), old(client.feed), tweets, now, parseDate, get, client.service, i);
      postedAny := postedAny || posted;
      if halt.Some? {
        ExecItemsHaltPersists(old(client.blobs), old(client.feed), tweets, now, parseDate, get, client.service, i + 1);
        return Halted(halt.value);
      }
    }
    assert tweets[..|tweets|] == tweets;
    outcome := Finished(postedAny);
  }

  /** The loop body of the script for one item. */
  method PostItem(client: Client, item: TimelineItem, now: int, parseDate: string -> Option<int>,
                  get: string -> Option<Bytes>)
    returns (halt: Option<Halt>, posted: bool)
    requires client.loggedIn
    modifies client
    ensures client.loggedIn
    ensures var e := Attempt(old(client.blobs), old(client.feed), item, now, parseDate, get, client.service);
      client.blobs == e.blobs && client.feed == e.feed && halt == e.halt && posted == e.posted
  {
    halt, posted := None, false;
    if item.dateText.None? {
      assert Decide(item, now, parseDate) == Failure(NoDateTag);
      return;
    }
    var dateStr := Strip(item.dateText.value);
    var tweetTime := parseDate(dateStr);
    if tweetTime.None? {
      assert Decide(item, now, parseDate) == Failure(UnparsableDate);
      return;
    }
    if !(now - DAY <= tweetTime.value <= now) {
      assert Decide(item, now, parseDate) == Failure(OutsideWindow);
      return;
    }
    if item.contentText.None? || item.link.None? || item.link.value.href.None? {
      assert Decide(item, now, parseDate) == Failure(MissingField);
      return;
    }
    var tweetText := Strip(item.contentText.value);
    var tweetLink := item.link.value.href.value;
    ghost var d := Draft(PostText(tweetText, tweetLink), ImageUrls(FirstTags(item.imageTags)));
    assert Decide(item, now, parseDate) == Success(d);

    var images, alts, fetched := CollectImages(item.imageTags, get);
    if !fetched {
      return Some(ImageFetchFailed), false;
    }
    assert FetchAll(d.imageUrls, get) == Some(images);
    halt, posted := PublishPost(client, PostText(tweetText, tweetLink), images, alts);
  }

  /** The choice between `send_images` and `send_post`, and the call. */
  method PublishPost(client: Client, postText: string, images: seq<Bytes>, alts: seq<string>)
    returns (halt: Option<Halt>, posted: bool)
    requires client.loggedIn
    requires alts == Blanks(|images|)
    modifies client
    ensures client.loggedIn
    ensures var e := Publish(old(client.blobs), old(client.feed), postText, images, client.service);
      client.blobs == e.blobs && client.feed == e.feed && halt == e.halt && posted == e.posted
  {
    if images != [] {
      var sent := client.SendImages(postText, images, alts);
      if sent.None? {
        return Some(SendFailed), false;
      }
    } else {
      var sent := client.SendPost(TextPost(postText));
      if sent.None? {
        return Some(SendFailed), false;
      }
    }
    return None, true;
  }
}
