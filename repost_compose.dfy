/**
 * `create_bluesky_post` of `projects/wixosstcg/repost.py`: composing one
 * tweet into a Bluesky post (header + body, one header link facet, at most
 * four photos), submitting it, and threading the tweet's permalink under it
 * as a reply.
 */
module RepostCompose {
  import opened Wrappers
  import opened Utf8
  import opened Bluesky

  /** Bluesky accepts at most four images per post. */
  const MAX_IMAGES: nat := 4

  /** The keys of `config.json` the post composition reads. */
  datatype Config = Config(twitterUsername: string, headerText: string, headerLink: string, initialPostLimit: int)

  /** An entry of the response's `includes.media` list. */
  datatype Media = Media(mediaKey: string, kind: string, url: Option<string>)

  /** A response's `includes` object; `media` is `None` when the key is absent. */
  datatype Includes = Includes(media: Option<seq<Media>>)

  /** A tweet of the response's `data` list; `includes` is the key `main` adds to each tweet. */
  datatype Tweet = Tweet(id: string, text: string, includes: Option<Includes>)

  /** Why one item failed: each is an exception `main` catches for that item. */
  datatype ItemError = MissingMediaUrl | DownloadFailed | UploadFailed | MainPostFailed | ReplyFailed
  {
    /** The errors raised while transferring photos, before anything is posted. */
    predicate IsMediaError()
    {
      MissingMediaUrl? || DownloadFailed? || UploadFailed?
    }
  }

  /** The post text: header, a blank line, then the tweet's text. */
  function FullText(header: string, body: string): string
  {
    header + "\n\n" + body
  }

  /** The one link facet, over the UTF-8 bytes of the header. */
  function HeaderFacet(header: string, link: string): Facet
  {
    LinkFacet(0, Utf8Len(header), link)
  }

  /** The permalink posted as the reply. */
  function TweetLink(username: string, id: string): string
  {
    "https://twitter.com/" + username + "/status/" + id
  }

  /**
   * The header facet starts at byte 0, ends where the header's encoding
   * ends, lies inside the encoded post text, and covers exactly the
   * header's bytes; it is non-empty exactly when the header is.
   */
  lemma HeaderFacetSpansHeader(header: string, link: string, body: string)
    ensures var f := HeaderFacet(header, link);
      && f.byteStart == 0 && f.byteEnd == Utf8Len(header) && f.uri == link
      && f.byteEnd + 2 + Utf8Len(body) == Utf8Len(FullText(header, body))
      && Encode(header) <= Encode(FullText(header, body))
      && (f.byteStart < f.byteEnd <==> header != [])
  {
    var full := FullText(header, body);
    EncodeAppend(header + "\n\n", body);
    EncodeAppend(header, "\n\n");
    EncodeLength(header);
    EncodeLength("\n\n" + body);
    EncodeAppend("\n\n", body);
    EncodeLength(body);
    EncodeLength(full);
    Utf8LenBounds(header);
    assert Encode("\n\n") == [10, 10];
  }

  predicate IsPhoto(m: Media)
  {
    m.kind == "photo"
  }

  /** The photos among `ms`, in source order (`m['type'] == 'photo'`). */
  function Photos(ms: seq<Media>): (ps: seq<Media>)
    ensures |ps| <= |ms|
  {
    if ms == [] then []
    else Photos(ms[..|ms| - 1]) + (if IsPhoto(ms[|ms| - 1]) then [ms[|ms| - 1]] else [])
  }

  /** `Photos` keeps exactly the photos of the list. */
  lemma {:induction false} PhotosExactly(ms: seq<Media>)
    ensures forall m :: m in Photos(ms) <==> m in ms && IsPhoto(m)
  {
    if ms != [] {
      PhotosExactly(ms[..|ms| - 1]);
      assert forall m :: m in ms <==> m in ms[..|ms| - 1] || m == ms[|ms| - 1];
    }
  }

  /** The photos of a prefix of the media list are a prefix of its photos. */
  lemma {:induction false} PhotosPrefix(ms: seq<Media>, i: nat)
    requires i <= |ms|
    ensures Photos(ms[..i]) <= Photos(ms)
    decreases |ms|
  {
    if i < |ms| {
      var init := ms[..|ms| - 1];
      assert init[..i] == ms[..i];
      PhotosPrefix(init, i);
    } else {
      assert ms[..i] == ms;
    }
  }

  /** At most the first `MAX_IMAGES` elements. */
  function Cap(ps: seq<Media>): seq<Media>
  {
    if |ps| <= MAX_IMAGES then ps else ps[..MAX_IMAGES]
  }

  /**
   * The photos `create_bluesky_post` posts: the first four photos, in source
   * order; fewer than all of them exactly when there are more than four.
   */
  function Selected(ms: seq<Media>): (sel: seq<Media>)
    ensures |sel| <= MAX_IMAGES && sel <= Photos(ms)
    ensures |sel| < |Photos(ms)| <==> |Photos(ms)| > MAX_IMAGES
    ensures |sel| == if |Photos(ms)| <= MAX_IMAGES then |Photos(ms)| else MAX_IMAGES
  {
    Cap(Photos(ms))
  }

  /** Every selected media entry is a photo of the list, and every photo is selected when there are at most four. */
  lemma SelectedArePhotos(ms: seq<Media>)
    ensures forall m <- Selected(ms) :: IsPhoto(m) && m in ms
    ensures |Photos(ms)| <= MAX_IMAGES ==> forall m <- ms :: IsPhoto(m) ==> m in Selected(ms)
  {
    PhotosExactly(ms);
    var ps := Photos(ms);
    assert forall m <- Selected(ms) :: m in ps;
  }

  /** Downloading one photo and uploading it; any failure raises and aborts the item. */
  function FetchPhoto(m: Media, download: string -> Option<Bytes>, uploadOk: Bytes -> bool): Result<Bytes, ItemError>
  {
    match m.url
    case None => Failure(MissingMediaUrl)
    case Some(u) =>
      match download(u)
      case None => Failure(DownloadFailed)
      case Some(data) => if uploadOk(data) then Success(data) else Failure(UploadFailed)
  }

  /** The bytes uploaded so far, and the error that stopped the transfer, if any. */
  datatype Transfer = Transfer(uploaded: seq<Bytes>, error: Option<ItemError>)

  /**
   * Transferring the selected photos one after the other: every photo
   * before the first failing one is uploaded, and the failure stops the
   * transfer.
   */
  function TransferPhotos(sel: seq<Media>, download: string -> Option<Bytes>, uploadOk: Bytes -> bool): (t: Transfer)
    ensures |t.uploaded| <= |sel|
    ensures t.error.None? ==> |t.uploaded| == |sel|
    ensures t.error.Some? ==> t.error.value.IsMediaError()
  {
    if sel == [] then Transfer([], None)
    else
      var t := TransferPhotos(sel[..|sel| - 1], download, uploadOk);
      if t.error.Some? then t
      else match FetchPhoto(sel[|sel| - 1], download, uploadOk)
        case Failure(e) => Transfer(t.uploaded, Some(e))
        case Success(data) => Transfer(t.uploaded + [data], None)
  }

  /**
   * Every photo before the first failing one was transferred, its bytes
   * being what `download` returned for it, and the failure is that photo's.
   */
  lemma {:induction false} TransferPhotosUploads(sel: seq<Media>, download: string -> Option<Bytes>, uploadOk: Bytes -> bool)
    ensures var t := TransferPhotos(sel, download, uploadOk);
      && (t.error.Some? ==> |t.uploaded| < |sel| && FetchPhoto(sel[|t.uploaded|], download, uploadOk) == Failure(t.error.value))
      && (forall k :: 0 <= k < |t.uploaded| ==> FetchPhoto(sel[k], download, uploadOk) == Success(t.uploaded[k]))
  {
    if sel != [] {
      var init := sel[..|sel| - 1];
      TransferPhotosUploads(init, download, uploadOk);
      var t := TransferPhotos(init, download, uploadOk);
      assert forall k :: 0 <= k < |t.uploaded| ==> sel[k] == init[k];
    }
  }

  /** Once a transfer has failed, further photos do not change its result. */
  lemma {:induction false} TransferStops(p: seq<Media>, q: seq<Media>, download: string -> Option<Bytes>, uploadOk: Bytes -> bool)
    requires p <= q
    requires TransferPhotos(p, download, uploadOk).error.Some?
    ensures TransferPhotos(q, download, uploadOk) == TransferPhotos(p, download, uploadOk)
    decreases |q|
  {
    if |q| > |p| {
      var init := q[..|q| - 1];
      assert p <= init;
      TransferStops(p, init, download, uploadOk);
    } else {
      assert p == q;
    }
  }

  /** How the capped photo selection grows by one media entry, as the loop of `create_bluesky_post` sees it. */
  lemma CapPhotosStep(ms: seq<Media>, i: nat)
    requires i < |ms|
    ensures var before := Cap(Photos(ms[..i]));
      var after := Cap(Photos(ms[..i + 1]));
      && (IsPhoto(ms[i]) && |before| < MAX_IMAGES ==> after == before + [ms[i]])
      && (!(IsPhoto(ms[i]) && |before| < MAX_IMAGES) ==> after == before)
  {
    assert ms[..i + 1][..i] == ms[..i];
    var ps := Photos(ms[..i]);
    assert Photos(ms[..i + 1]) == ps + (if IsPhoto(ms[i]) then [ms[i]] else []);
    if IsPhoto(ms[i]) && |ps| >= MAX_IMAGES {
      assert (ps + [ms[i]])[..MAX_IMAGES] == ps[..MAX_IMAGES];
    }
  }

  /** A transfer that has not failed yet extends by one photo. */
  lemma TransferStep(p: seq<Media>, m: Media, uploaded: seq<Bytes>, download: string -> Option<Bytes>, uploadOk: Bytes -> bool)
    requires TransferPhotos(p, download, uploadOk) == Transfer(uploaded, None)
    ensures TransferPhotos(p + [m], download, uploadOk) ==
      match FetchPhoto(m, download, uploadOk)
      case Failure(e) => Transfer(uploaded, Some(e))
      case Success(data) => Transfer(uploaded + [data], None)
  {
    assert (p + [m])[..|p|] == p;
  }

  /**
   * When the photo at position `i` is the next one selected and fails, the
   * whole item's transfer ends with that failure.
   */
  lemma TransferFailsAt(ms: seq<Media>, i: nat, uploaded: seq<Bytes>, download: string -> Option<Bytes>, uploadOk: Bytes -> bool)
    requires i < |ms| && IsPhoto(ms[i]) && |Cap(Photos(ms[..i]))| < MAX_IMAGES
    requires TransferPhotos(Cap(Photos(ms[..i])), download, uploadOk) == Transfer(uploaded, None)
    requires FetchPhoto(ms[i], download, uploadOk).Failure?
    ensures TransferPhotos(Selected(ms), download, uploadOk) ==
      Transfer(uploaded, Some(FetchPhoto(ms[i], download, uploadOk).error))
  {
    CapPhotosStep(ms, i);
    TransferStep(Cap(Photos(ms[..i])), ms[i], uploaded, download, uploadOk);
    PhotosPrefix(ms, i + 1);
    var now := Cap(Photos(ms[..i + 1]));
    assert now <= Selected(ms);
    TransferStops(now, Selected(ms), download, uploadOk);
  }

  /** The media list `create_bluesky_post` looks at, if `includes` and `media` are present. */
  function MediaOf(tweet: Tweet): Option<seq<Media>>
  {
    if tweet.includes.Some? && tweet.includes.value.media.Some? then tweet.includes.value.media else None
  }

  /** The photo transfer of one tweet. */
  function TweetTransfer(tweet: Tweet, download: string -> Option<Bytes>, uploadOk: Bytes -> bool): Transfer
  {
    match MediaOf(tweet)
    case None => Transfer([], None)
    case Some(ms) => TransferPhotos(Selected(ms), download, uploadOk)
  }

  /** Embed entries for uploaded images: entry k has an empty alt text and the blob of upload k. */
  function ImageEntries(uploaded: seq<Bytes>): (es: seq<ImageEntry>)
    ensures |es| == |uploaded|
    ensures forall k :: 0 <= k < |uploaded| ==> es[k] == ImageEntry("", Blob(uploaded[k]))
  {
    seq(|uploaded|, k requires 0 <= k < |uploaded| => ImageEntry("", Blob(uploaded[k])))
  }

  lemma ImageEntriesSnoc(uploaded: seq<Bytes>, data: Bytes)
    ensures ImageEntries(uploaded + [data]) == ImageEntries(uploaded) + [ImageEntry("", Blob(data))]
  {
  }

  /** The main post: text, the header facet, and an image embed only when there are images. */
  function MainPost(config: Config, tweet: Tweet, images: seq<ImageEntry>): Post
  {
    Post(FullText(config.headerText, tweet.text), [HeaderFacet(config.headerText, config.headerLink)],
         if |images| > 0 then Some(images) else None, None)
  }

  /** The reply carrying the permalink, with root and parent both the main post. */
  function ReplyPost(config: Config, tweet: Tweet, main: PostRef): Post
  {
    Post(TweetLink(config.twitterUsername, tweet.id), [], None, Some(ReplyRef(main, main)))
  }

  /** The session's blobs and posts after one item, whether the warning was printed, and the item's error. */
  datatype Effect = Effect(blobs: seq<Bytes>, feed: seq<Post>, warned: bool, error: Option<ItemError>)

  /** What `create_bluesky_post` does to a session whose blobs and posts are `blobs` and `feed`. */
  function PostTweet(blobs: seq<Bytes>, feed: seq<Post>, tweet: Tweet, config: Config,
                     download: string -> Option<Bytes>, svc: Service): (e: Effect)
    ensures blobs <= e.blobs && feed <= e.feed
  {
    var t := TweetTransfer(tweet, download, svc.uploadOk);
    var blobs' := blobs + t.uploaded;
    if t.error.Some? then Effect(blobs', feed, false, t.error)
    else
      var warned := MediaOf(tweet).Some? && |Photos(MediaOf(tweet).value)| > MAX_IMAGES;
      var main := MainPost(config, tweet, ImageEntries(t.uploaded));
      if !svc.sendOk(main) then Effect(blobs', feed, warned, Some(MainPostFailed))
      else
        var reply := ReplyPost(config, tweet, PostRef(|feed|));
        if !svc.sendOk(reply) then Effect(blobs', feed + [main], warned, Some(ReplyFailed))
        else Effect(blobs', feed + [main, reply], warned, None)
  }

  /**
   * The posts one item adds: none, the main post alone (the reply failed),
   * or the main post followed by the permalink reply threaded to it.  The
   * item counts as posted exactly when both were created.
   */
  lemma PostTweetPosts(blobs: seq<Bytes>, feed: seq<Post>, tweet: Tweet, config: Config,
                       download: string -> Option<Bytes>, svc: Service)
    ensures var e := PostTweet(blobs, feed, tweet, config, download, svc);
      && |e.feed| <= |feed| + 2
      && (e.error.None? <==> |e.feed| == |feed| + 2)
      && (e.error == Some(ReplyFailed) <==> |e.feed| == |feed| + 1)
      && (|e.feed| > |feed| ==>
            && e.feed[|feed|].text == FullText(config.headerText, tweet.text)
            && e.feed[|feed|].facets == [HeaderFacet(config.headerText, config.headerLink)]
            && e.feed[|feed|].reply.None?)
      && (|e.feed| == |feed| + 2 ==>
            e.feed[|feed| + 1] == Post(TweetLink(config.twitterUsername, tweet.id), [], None,
                                       Some(ReplyRef(PostRef(|feed|), PostRef(|feed|)))))
  {
  }

  /**
   * Media of one item: at most four blobs, each the download of the
   * selected photo at the same position; a failed photo leaves the item
   * without any post; the main post has an embed exactly when photos were
   * selected, holding one empty-alt entry per uploaded blob.
   */
  lemma PostTweetMedia(blobs: seq<Bytes>, feed: seq<Post>, tweet: Tweet, config: Config,
                       download: string -> Option<Bytes>, svc: Service)
    ensures var e := PostTweet(blobs, feed, tweet, config, download, svc);
      var t := TweetTransfer(tweet, download, svc.uploadOk);
      var sel := if MediaOf(tweet).Some? then Selected(MediaOf(tweet).value) else [];
      && |e.blobs| <= |blobs| + MAX_IMAGES
      && (forall k :: |blobs| <= k < |e.blobs| ==>
            sel[k - |blobs|].url.Some? && download(sel[k - |blobs|].url.value) == Some(e.blobs[k]))
      && (t.error.Some? ==> e.feed == feed && e.error == t.error)
      && (|e.feed| > |feed| ==>
            && |e.blobs| == |blobs| + |sel|
            && (e.feed[|feed|].embed.Some? <==> sel != [])
            && (e.feed[|feed|].embed.Some? ==>
                  e.feed[|feed|].embed.value == ImageEntries(e.blobs[|blobs|..])))
  {
    var e := PostTweet(blobs, feed, tweet, config, download, svc);
    var t := TweetTransfer(tweet, download, svc.uploadOk);
    var sel := if MediaOf(tweet).Some? then Selected(MediaOf(tweet).value) else [];
    assert t == TransferPhotos(sel, download, svc.uploadOk);
    TransferPhotosUploads(sel, download, svc.uploadOk);
    assert e.blobs == blobs + t.uploaded;
    assert e.blobs[|blobs|..] == t.uploaded;
    forall k | |blobs| <= k < |e.blobs|
      ensures sel[k - |blobs|].url.Some? && download(sel[k - |blobs|].url.value) == Some(e.blobs[k])
    {
      assert FetchPhoto(sel[k - |blobs|], download, svc.uploadOk) == Success(t.uploaded[k - |blobs|]);
    }
  }

  /** The overflow warning is printed exactly when all photos transferred and there were more than four. */
  lemma PostTweetWarning(blobs: seq<Bytes>, feed: seq<Post>, tweet: Tweet, config: Config,
                         download: string -> Option<Bytes>, svc: Service)
    ensures var e := PostTweet(blobs, feed, tweet, config, download, svc);
      e.warned <==> (&& TweetTransfer(tweet, download, svc.uploadOk).error.None?
                     && MediaOf(tweet).Some?
                     && |Selected(MediaOf(tweet).value)| < |Photos(MediaOf(tweet).value)|)
  {
  }

  /**
   * The photo loop of `create_bluesky_post`: walk the media list, and for
   * each photo while fewer than four were taken, download it and upload it,
   * appending an empty-alt image entry; the first failure ends the loop.
   */
  method UploadPhotos(client: Client, ms: seq<Media>, download: string -> Option<Bytes>)
    returns (images: seq<ImageEntry>, ghost uploaded: seq<Bytes>, error: Option<ItemError>)
    requires client.loggedIn
    modifies client`blobs
    ensures TransferPhotos(Selected(ms), download, client.service.uploadOk) == Transfer(uploaded, error)
    ensures images == ImageEntries(uploaded)
    ensures client.blobs == old(client.blobs) + uploaded
  {
    images, uploaded, error := [], [], None;
    ghost var uploadOk := client.service.uploadOk;
    var photoCount := 0;
    var i := 0;
    while i < |ms|
      invariant 0 <= i <= |ms|
      invariant photoCount == |Cap(Photos(ms[..i]))|
      invariant TransferPhotos(Cap(Photos(ms[..i])), download, uploadOk) == Transfer(uploaded, None)
      invariant images == ImageEntries(uploaded)
      invariant client.blobs == old(client.blobs) + uploaded
    {
      var media := ms[i];
      CapPhotosStep(ms, i);
      if media.kind == "photo" && photoCount < MAX_IMAGES {
        if media.url.None? {
          TransferFailsAt(ms, i, uploaded, download, uploadOk);
          error := Some(MissingMediaUrl);
          return;
        }
        var data := download(media.url.value);
        if data.None? {
          TransferFailsAt(ms, i, uploaded, download, uploadOk);
          error := Some(DownloadFailed);
          return;
        }
        var blob := client.UploadBlob(data.value);
        if blob.None? {
          TransferFailsAt(ms, i, uploaded, download, uploadOk);
          error := Some(UploadFailed);
          return;
        }
        TransferStep(Cap(Photos(ms[..i])), media, uploaded, download, uploadOk);
        ImageEntriesSnoc(uploaded, data.value);
        images := images + [ImageEntry("", blob.value)];
        uploaded := uploaded + [data.value];
        photoCount := photoCount + 1;
        assert TransferPhotos(Cap(Photos(ms[..i + 1])), download, uploadOk) == Transfer(uploaded, None);
      } else {
        assert Cap(Photos(ms[..i + 1])) == Cap(Photos(ms[..i]));
      }
      i := i + 1;
    }
    assert ms[..i] == ms;
  }

  /**
   * `create_bluesky_post(client, tweet, config)`.  `download` stands for
   * `requests.get(url)` followed by `raise_for_status()`; `None` is where it
   * raises.  `warned` is the overflow warning the source prints.
   */
  method CreateBlueskyPost(client: Client, tweet: Tweet, config: Config, download: string -> Option<Bytes>)
    returns (error: Option<ItemError>, warned: bool)
    requires client.loggedIn
    modifies client
    ensures client.loggedIn
    ensures var e := PostTweet(old(client.blobs), old(client.feed), tweet, config, download, client.service);
      client.blobs == e.blobs && client.feed == e.feed && warned == e.warned && error == e.error
  {
    var headerText := config.headerText;
    var headerLink := config.headerLink;
    var fullText := FullText(headerText, tweet.text);
    var facets := [HeaderFacet(headerText, headerLink)];

    var images: seq<ImageEntry> := [];
    ghost var uploaded: seq<Bytes> := [];
    warned := false;
    if tweet.includes.Some? && tweet.includes.value.media.Some? {
      var ms := tweet.includes.value.media.value;
      images, uploaded, error := UploadPhotos(client, ms, download);
      if error.Some? {
        return;
      }
      var totalPhotos := |Photos(ms)|;
      if totalPhotos > MAX_IMAGES {
        warned := true;
      }
    }

    var embed: Option<seq<ImageEntry>> := None;
    if |images| > 0 {
      embed := Some(images);
    }
    ghost var e := PostTweet(old(client.blobs), old(client.feed), tweet, config, download, client.service);
    assert TweetTransfer(tweet, download, client.service.uploadOk) == Transfer(uploaded, None);
    assert warned == (MediaOf(tweet).Some? && |Photos(MediaOf(tweet).value)| > MAX_IMAGES);
    assert Post(fullText, facets, embed, None) == MainPost(config, tweet, ImageEntries(uploaded));
    var mainPost := client.SendPost(Post(fullText, facets, embed, None));
    if mainPost.None? {
      error := Some(MainPostFailed);
      return;
    }

    var tweetLink := TweetLink(config.twitterUsername, tweet.id);
    var reply := client.SendPost(Post(tweetLink, [], None, Some(ReplyRef(mainPost.value, mainPost.value))));
    if reply.None? {
      error := Some(ReplyFailed);
      return;
    }
    error := None;
  }
}
