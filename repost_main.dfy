/**
 * `main` of `projects/wixosstcg/repost.py`: one mirroring pass.  Load the
 * cursor, choose the page size, fetch the page of tweets newer than the
 * cursor, reverse it into oldest-first order, hand every tweet the page's
 * `includes`, log in, post each tweet in turn with per-item failure
 * isolation, and save the id of the last fetched tweet.
 */
module RepostMain {
  import opened Wrappers
  import opened Bluesky
  import opened RepostState
  import opened RepostCompose

  /** The page size of every run after the first. */
  const LATER_RUN_LIMIT: int := 100

  /** The decoded timeline response: the `data` list and the `includes` object, each possibly absent. */
  datatype Page = Page(data: Option<seq<Tweet>>, includes: Option<Includes>)

  /**
   * What `get_twitter_timeline(username, since_id, max_results)` gives:
   * a page, an `HTTPError` (which `main` catches), or any other exception
   * (which leaves the script).
   */
  datatype Response = Fetched(page: Page) | HttpError | TransportError

  /** What the source prints for one item: the overflow warning, and the error it caught, if any. */
  datatype ItemReport = ItemReport(warned: bool, error: Option<ItemError>)
  {
    /** The item's main post was created (its reply may still have failed). */
    predicate MainPosted()
    {
      error.None? || error == Some(ReplyFailed)
    }
  }

  /** How a pass ends. */
  datatype RunOutcome =
    | CursorUnreadable      // the state file could not be read: the exception leaves the script
    | FetchAborted          // `HTTPError` while fetching: `main` returns
    | FetchCrashed          // any other exception while fetching leaves the script
    | NothingNew            // `data` missing or empty: `main` returns
    | LoginFailed           // `client.login` raised
    | Completed(reports: seq<ItemReport>)

  /** `max_results`: the configured initial limit on a first run, a full page otherwise. */
  function MaxResults(initialized: bool, initialPostLimit: int): (n: int)
    ensures !initialized ==> n == initialPostLimit
    ensures initialized ==> n == LATER_RUN_LIMIT
  {
    if !initialized then initialPostLimit else LATER_RUN_LIMIT
  }

  /** `'data' not in tweets_data or not tweets_data['data']`. */
  predicate NoNewTweets(page: Page)
  {
    page.data.None? || page.data.value == []
  }

  /** `tweets_data.get('includes', {})`. */
  function PageIncludes(page: Page): Includes
  {
    match page.includes
    case Some(inc) => inc
    case None => Includes(None)
  }

  /** `s` in the opposite order. */
  function Reversed<T>(s: seq<T>): (r: seq<T>)
    ensures |r| == |s|
    ensures forall k :: 0 <= k < |s| ==> r[k] == s[|s| - 1 - k]
  {
    if s == [] then [] else [s[|s| - 1]] + Reversed(s[..|s| - 1])
  }

  /** Every tweet carrying the page-wide `includes` (the loop `tweet['includes'] = includes`). */
  function WithIncludes(ts: seq<Tweet>, inc: Includes): (r: seq<Tweet>)
    ensures |r| == |ts|
  {
    seq(|ts|, k requires 0 <= k < |ts| => ts[k].(includes := Some(inc)))
  }

  /**
   * The tweets a pass posts, in order: oldest first, every one carrying the
   * page-wide `includes` whatever its own media keys, and the last of them
   * the newest tweet of the page.
   */
  lemma ProcessingOrder(data: seq<Tweet>, inc: Includes)
    requires data != []
    ensures var ts := WithIncludes(Reversed(data), inc);
      && (forall k :: 0 <= k < |ts| ==> ts[k] == data[|data| - 1 - k].(includes := Some(inc)))
      && ts[|ts| - 1].id == data[0].id
  {
  }

  /** The session after a list of items, and the report of each item. */
  datatype Progress = Progress(blobs: seq<Bytes>, feed: seq<Post>, reports: seq<ItemReport>)
  {
    /** A later point of the same pass: every part only grew at its end. */
    predicate IsPrefixOf(q: Progress)
    {
      blobs <= q.blobs && feed <= q.feed && reports <= q.reports
    }
  }

  /**
   * Posting the items one after the other, each on the session the earlier
   * ones left, whatever they did (the loop with `try`/`continue`).
   */
  function PostAll(blobs: seq<Bytes>, feed: seq<Post>, ts: seq<Tweet>, config: Config,
                   download: string -> Option<Bytes>, svc: Service): (p: Progress)
    ensures |p.reports| == |ts|
    ensures blobs <= p.blobs && feed <= p.feed
  {
    if ts == [] then Progress(blobs, feed, [])
    else
      var before := PostAll(blobs, feed, ts[..|ts| - 1], config, download, svc);
      var e := PostTweet(before.blobs, before.feed, ts[|ts| - 1], config, download, svc);
      Progress(e.blobs, e.feed, before.reports + [ItemReport(e.warned, e.error)])
  }

  /**
   * Item `k` is attempted on the session the first `k` items left, and its
   * report is the outcome of that one attempt: a failing item neither stops
   * nor changes the attempts after it.
   */
  lemma PostAllItem(blobs: seq<Bytes>, feed: seq<Post>, ts: seq<Tweet>, config: Config,
                    download: string -> Option<Bytes>, svc: Service, k: nat)
    requires k < |ts|
    ensures var before := PostAll(blobs, feed, ts[..k], config, download, svc);
      var e := PostTweet(before.blobs, before.feed, ts[k], config, download, svc);
      && PostAll(blobs, feed, ts[..k + 1], config, download, svc) == Progress(e.blobs, e.feed, before.reports + [ItemReport(e.warned, e.error)])
      && PostAll(blobs, feed, ts, config, download, svc).reports[k] == ItemReport(e.warned, e.error)
  {
    assert ts[..k + 1][..k] == ts[..k];
    PostAllPrefix(blobs, feed, ts, config, download, svc, k + 1, |ts|);
    assert ts[..|ts|] == ts;
  }

  /** The session after a prefix of the items is a prefix of the session after more of them. */
  lemma PostAllPrefix(blobs: seq<Bytes>, feed: seq<Post>, ts: seq<Tweet>, config: Config,
                      download: string -> Option<Bytes>, svc: Service, i: nat, j: nat)
    requires i <= j <= |ts|
    ensures var p := PostAll(blobs, feed, ts[..i], config, download, svc);
      var q := PostAll(blobs, feed, ts[..j], config, download, svc);
      p.IsPrefixOf(q)
  {
    assert ts[..j][..i] == ts[..i];
    PostAllPrefixOfAll(blobs, feed, ts[..j], config, download, svc, i);
  }

  lemma PrefixReflexive(p: Progress)
    ensures p.IsPrefixOf(p)
  {
  }

  lemma PrefixTransitive(p: Progress, m: Progress, q: Progress)
    requires p.IsPrefixOf(m) && m.IsPrefixOf(q)
    ensures p.IsPrefixOf(q)
  {
    assert forall k :: 0 <= k < |p.blobs| ==> p.blobs[k] == m.blobs[k] == q.blobs[k];
    assert forall k :: 0 <= k < |p.feed| ==> p.feed[k] == m.feed[k] == q.feed[k];
    assert forall k :: 0 <= k < |p.reports| ==> p.reports[k] == m.reports[k] == q.reports[k];
  }

  /**
   * An item whose report says its main post was created has that post at
   * the position the earlier items left the session at.
   */
  lemma MainPostOfItem(blobs: seq<Bytes>, feed: seq<Post>, ts: seq<Tweet>, config: Config,
                       download: string -> Option<Bytes>, svc: Service, k: nat)
    requires k < |ts|
    requires PostAll(blobs, feed, ts, config, download, svc).reports[k].MainPosted()
    ensures var pk := |PostAll(blobs, feed, ts[..k], config, download, svc).feed|;
      var after := PostAll(blobs, feed, ts[..k + 1], config, download, svc);
      && |feed| <= pk < |after.feed|
      && after.feed[pk].text == FullText(config.headerText, ts[k].text)
  {
    var before := PostAll(blobs, feed, ts[..k], config, download, svc);
    PostAllItem(blobs, feed, ts, config, download, svc, k);
    PostTweetPosts(before.blobs, before.feed, ts[k], config, download, svc);
  }

  /**
   * Oldest-first posting: when items `i < j` both created their main post,
   * item `i`'s main post comes earlier in the session than item `j`'s.
   */
  lemma PostAllOrder(blobs: seq<Bytes>, feed: seq<Post>, ts: seq<Tweet>, config: Config,
                     download: string -> Option<Bytes>, svc: Service, i: nat, j: nat)
    requires i < j < |ts|
    requires PostAll(blobs, feed, ts, config, download, svc).reports[i].MainPosted()
    requires PostAll(blobs, feed, ts, config, download, svc).reports[j].MainPosted()
    ensures var p := PostAll(blobs, feed, ts, config, download, svc);
      var pi := |PostAll(blobs, feed, ts[..i], config, download, svc).feed|;
      var pj := |PostAll(blobs, feed, ts[..j], config, download, svc).feed|;
      && |feed| <= pi < pj < |p.feed|
      && p.feed[pi].text == FullText(config.headerText, ts[i].text)
      && p.feed[pj].text == FullText(config.headerText, ts[j].text)
  {
    MainPostPlaced(blobs, feed, ts, config, download, svc, i);
    MainPostPlaced(blobs, feed, ts, config, download, svc, j);
    PostAllPrefix(blobs, feed, ts, config, download, svc, i + 1, j);
  }

  /** The main post of such an item keeps its position in the session after all the items. */
  lemma MainPostPlaced(blobs: seq<Bytes>, feed: seq<Post>, ts: seq<Tweet>, config: Config,
                       download: string -> Option<Bytes>, svc: Service, k: nat)
    requires k < |ts|
    requires PostAll(blobs, feed, ts, config, download, svc).reports[k].MainPosted()
    ensures var p := PostAll(blobs, feed, ts, config, download, svc);
      var pk := |PostAll(blobs, feed, ts[..k], config, download, svc).feed|;
      && |feed| <= pk < |PostAll(blobs, feed, ts[..k + 1], config, download, svc).feed| <= |p.feed|
      && p.feed[pk].text == FullText(config.headerText, ts[k].text)
  {
    var all := PostAll(blobs, feed, ts, config, download, svc).feed;
    var after := PostAll(blobs, feed, ts[..k + 1], config, download, svc).feed;
    var pk := |PostAll(blobs, feed, ts[..k], config, download, svc).feed|;
    MainPostOfItem(blobs, feed, ts, config, download, svc, k);
    PostAllPrefixOfAll(blobs, feed, ts, config, download, svc, k + 1);
    PrefixAt(after, all, pk);
  }

  lemma PrefixAt<T>(a: seq<T>, b: seq<T>, n: nat)
    requires a <= b && n < |a|
    ensures n < |b| && b[n] == a[n]
  {
  }

  /** The session after a prefix of the items is a prefix of the session after all of them. */
  lemma {:induction false} PostAllPrefixOfAll(blobs: seq<Bytes>, feed: seq<Post>, ts: seq<Tweet>, config: Config,
                                              download: string -> Option<Bytes>, svc: Service, i: nat)
    requires i <= |ts|
    ensures var p := PostAll(blobs, feed, ts[..i], config, download, svc);
      var q := PostAll(blobs, feed, ts, config, download, svc);
      p.IsPrefixOf(q)
  {
    var p := PostAll(blobs, feed, ts[..i], config, download, svc);
    if i < |ts| {
      var init := ts[..|ts| - 1];
      assert init[..i] == ts[..i];
      PostAllPrefixOfAll(blobs, feed, init, config, download, svc, i);
      PrefixTransitive(p, PostAll(blobs, feed, init, config, download, svc), PostAll(blobs, feed, ts, config, download, svc));
    } else {
      assert ts[..i] == ts;
      PrefixReflexive(p);
    }
  }

  /**
   * After a completed pass the next one resumes from the newest fetched
   * tweet with a full page, and stays initialized from then on.
   */
  lemma NextRunResumes(data: seq<Tweet>, updatedAt: string, initialPostLimit: int)
    requires data != []
    ensures var c := LoadCursor(Stored(SavedDoc(data[0].id, updatedAt)));
      && c == Success(Cursor(Some(data[0].id), true))
      && MaxResults(c.value.initialized, initialPostLimit) == LATER_RUN_LIMIT
  {
    LoadAfterSave(data[0].id, updatedAt);
  }

  /** `tweets.reverse()`. */
  method ReverseInPlace<T>(a: array<T>)
    modifies a
    ensures a[..] == Reversed(old(a[..]))
  {
    var lo, hi := 0, a.Length;
    while lo + 1 < hi
      invariant 0 <= lo && lo + hi == a.Length && (lo <= hi || lo == hi + 1)
      invariant forall k :: 0 <= k < lo ==> a[k] == old(a[a.Length - 1 - k]) && a[a.Length - 1 - k] == old(a[k])
      invariant forall k :: lo <= k < hi ==> a[k] == old(a[k])
    {
      a[lo], a[hi - 1] := a[hi - 1], a[lo];
      lo, hi := lo + 1, hi - 1;
    }
  }

  /** The loop `tweet['includes'] = includes` over the page's tweets. */
  method AttachIncludes(tweets: array<Tweet>, includes: Includes)
    modifies tweets
    ensures tweets[..] == WithIncludes(old(tweets[..]), includes)
  {
    for k := 0 to tweets.Length
      invariant forall m :: 0 <= m < k ==> tweets[m] == old(tweets[m]).(includes := Some(includes))
      invariant forall m :: k <= m < tweets.Length ==> tweets[m] == old(tweets[m])
    {
      tweets[k] := tweets[k].(includes := Some(includes));
    }
  }

  /**
   * The fetched list as `main` posts it: reversed in place
   * (`tweets.reverse()`), then every tweet given the page-wide includes.
   */
  method OldestFirst(data: seq<Tweet>, includes: Includes) returns (tweets: array<Tweet>)
    ensures fresh(tweets)
    ensures tweets[..] == WithIncludes(Reversed(data), includes)
  {
    tweets := new Tweet[|data|](k requires 0 <= k < |data| => data[k]);
    assert tweets[..] == data;
    ReverseInPlace(tweets);
    AttachIncludes(tweets, includes);
  }

  /**
   * The posting loop of `main`: `create_bluesky_post` for every tweet in
   * order, a failing item reported and skipped.
   */
  method PostEach(client: Client, tweets: array<Tweet>, config: Config, download: string -> Option<Bytes>)
    returns (reports: seq<ItemReport>)
    requires client.loggedIn
    modifies client
    ensures client.loggedIn
    ensures var p := PostAll(old(client.blobs), old(client.feed), tweets[..], config, download, client.service);
      client.blobs == p.blobs && client.feed == p.feed && reports == p.reports
  {
    reports := [];
    for k := 0 to tweets.Length
      invariant client.loggedIn
      invariant var p := PostAll(old(client.blobs), old(client.feed), tweets[..k], config, download, client.service);
        client.blobs == p.blobs && client.feed == p.feed && reports == p.reports
    {
      var error, warned := CreateBlueskyPost(client, tweets[k], config, download);
      reports := reports + [ItemReport(warned, error)];
      assert tweets[..k + 1][..k] == tweets[..k];
    }
    assert tweets[..tweets.Length] == tweets[..];
  }

  /**
   * `main()`.  The configuration is given (its loading is not modelled);
   * `fetch` stands for `get_twitter_timeline`, `download` for the image
   * requests, `client` for the Bluesky session `main` creates, and
   * `updatedAt` for the clock reading `save_last_tweet_id` stores.
   */
  method RunRepost(config: Config, store: Store, fetch: (Option<string>, int) -> Response,
                   download: string -> Option<Bytes>, client: Client, updatedAt: string)
    returns (outcome: RunOutcome)
    requires !client.loggedIn
    modifies store, client
    ensures !outcome.Completed? ==>
      && store.file == old(store.file) && !client.loggedIn
      && client.blobs == old(client.blobs) && client.feed == old(client.feed)
    ensures LoadCursor(old(store.file)).Failure? <==> outcome == CursorUnreadable
    ensures LoadCursor(old(store.file)).Success? ==>
      var c := LoadCursor(old(store.file)).value;
      var resp := fetch(c.lastTweetId, MaxResults(c.initialized, config.initialPostLimit));
      && (resp.HttpError? <==> outcome == FetchAborted)
      && (resp.TransportError? <==> outcome == FetchCrashed)
      && (resp.Fetched? && NoNewTweets(resp.page) <==> outcome == NothingNew)
      && (resp.Fetched? && !NoNewTweets(resp.page) ==>
            var data := resp.page.data.value;
            var ts := WithIncludes(Reversed(data), PageIncludes(resp.page));
            var p := PostAll(old(client.blobs), old(client.feed), ts, config, download, client.service);
            && (outcome == LoginFailed <==> !client.service.loginOk)
            && (client.service.loginOk ==>
                  && outcome == Completed(p.reports)
                  && client.blobs == p.blobs && client.feed == p.feed
                  && store.file == Stored(SavedDoc(data[0].id, updatedAt))))
  {
    var loaded := LoadCursor(store.file);
    if loaded.Failure? {
      return CursorUnreadable;
    }
    var lastTweetId := loaded.value.lastTweetId;
    var initialized := loaded.value.initialized;
    var maxResults := MaxResults(initialized, config.initialPostLimit);

    var resp := fetch(lastTweetId, maxResults);
    if resp.HttpError? {
      return FetchAborted;
    }
    if resp.TransportError? {
      return FetchCrashed;
    }
    var page := resp.page;
    if page.data.None? || page.data.value == [] {
      return NothingNew;
    }

    var data := page.data.value;
    var tweets := OldestFirst(data, PageIncludes(page));

    var ok := client.Login();
    if !ok {
      return LoginFailed;
    }

    var reports := PostEach(client, tweets, config, download);
    ProcessingOrder(data, PageIncludes(page));
    if tweets.Length > 0 {
      store.Save(tweets[tweets.Length - 1].id, updatedAt);
    }
    outcome := Completed(reports);
  }
}
