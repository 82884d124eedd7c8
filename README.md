# WIXOSS X-to-Bluesky mirroring, modelled in Dafny

The repository holds two small scripts. Each copies posts of the official
WIXOSS account from X/Twitter to Bluesky.

- `projects/wixosstcg/repost.py` runs one cursor-driven mirroring pass:
  - It loads the last mirrored tweet id and the `initialized` flag from a
    state file.
  - It picks the page size: the configured initial limit on a first run,
    100 afterwards.
  - It fetches the tweets newer than the cursor and reverses them into
    oldest-first order.
  - It gives every tweet the page-wide `includes` object.
  - It logs in to Bluesky.
  - It posts every tweet in turn. A tweet that raises is reported and
    skipped.
  - Finally it saves the id of the last fetched tweet.
- Each post (`create_bluesky_post`) has these parts:
  - the text `header + "\n\n" + tweet text`;
  - one link facet over the UTF-8 bytes of the header;
  - up to four photos, with a warning when there were more;
  - an image embed only when there are images;
  - a reply holding the tweet's permalink, threaded to the main post.
- `post_wixoss_to_bsky.py` scrapes the account's Nitter timeline. It keeps
  the items that have all their fields and pass its 24-hour date window test.
  As written that window is shifted nine hours into the future (see
  Findings); the model runs the corrected window.
  It resolves and downloads at most four images per item. It posts each
  kept item with `send_images` or `send_post`, and records whether
  anything was posted.

## How the external world is modelled

- **The Bluesky session** is the class `Bluesky.Client`.
  - It records the blobs it uploaded and the posts it created, in order.
  - A `Service` value decides which logins, uploads and posts succeed.
  - A created post is referred to by its position in the session
    (`PostRef`).
  - Blob references are content identifiers (`Blob(bytes)`).
- **HTTP requests** are parameters:
  - The timeline fetch in `repost.py` is a function returning a `Response`:
    a page, an `HttpError` (which `main` catches) or a `TransportError`
    (which leaves the script).
  - The image downloads of both scripts are functions that return `None`
    where the request raises.
  - The Nitter page is a value: its parsed items, or `None` where the
    request raises.
- **The state file** is a `RepostState.Store` holding the decoded JSON
  document.
- **Nitter items** are records with optional fields, one per selector
  that may find nothing.
- **Dates** are integer instants in microseconds. `parseDate` stands for
  `strptime` plus the JST timezone, and returns `None` where it raises.
- **Text** is a sequence of Unicode scalar values. `Utf8.Utf8Len` and
  `Utf8.Encode` give its UTF-8 byte length and encoding, following section
  3 of RFC 3629. `PyStr.Strip` is Python's `str.strip()`.

Each loop of the source is a method with its invariants. It is proved
equal to a right-recursive specification function, and the properties are
lemmas about those functions:

| method | specification function |
|---|---|
| `RepostMain.PostEach` | `RepostMain.PostAll` |
| `RepostCompose.UploadPhotos` | `RepostCompose.TransferPhotos` |
| `NitterScript.RunScript` | `NitterScript.ExecItems` |
| `NitterScript.CollectImages` | `NitterScript.FetchAll` |

The in-place operations of `main` also stay methods:

- `RepostMain.ReverseInPlace` is `tweets.reverse()`, on an `array`.
- `RepostMain.AttachIncludes` is `tweet['includes'] = includes`, on an
  `array`.
- `RepostState.Store.Save` writes the state file.

## Model

| member | source | states |
|---|---|---|
| Utf8.EncodeChar | projects/wixosstcg/repost.py:109 | One scalar value encodes to 1 to 4 bytes. The first byte is below 0x80 exactly when it is the only byte; a lead byte of a longer sequence is at least 0xC0; continuation bytes lie in [0x80, 0xC0). |
| Utf8.EncodeLength | projects/wixosstcg/repost.py:109 | `Utf8Len(s)` is the length of the UTF-8 encoding of `s`, that is `len(s.encode('utf-8'))`. |
| Utf8.EncodeAppend | projects/wixosstcg/repost.py:103 | Encoding a concatenation concatenates the encodings, so the header's bytes come first in the encoded full text. |
| Utf8.Utf8LenAppend | projects/wixosstcg/repost.py:103 | Byte lengths add up over concatenation. |
| Utf8.Utf8LenBounds | projects/wixosstcg/repost.py:109 | A text of n characters takes between n and 4n bytes, and 0 bytes only when it is empty. |
| PyStr.TrimStart | post_wixoss_to_bsky.py:42 | The result is a suffix of the input; everything removed is whitespace; the result does not start with whitespace. |
| PyStr.TrimEnd | post_wixoss_to_bsky.py:42 | The result is a prefix of the input; everything removed is whitespace; the result does not end with whitespace. |
| PyStr.StripIsTrimmedInfix | post_wixoss_to_bsky.py:58 | `s` is leading whitespace, then `s.strip()`, then trailing whitespace; the stripped text is empty or begins and ends with non-whitespace. |
| PyStr.StripIdempotent | post_wixoss_to_bsky.py:42 | Stripping an already stripped text changes nothing. |
| Bluesky.ImagesPost | post_wixoss_to_bsky.py:82 | `send_images` submits an embed of one entry per image, with entry k holding alt k and the blob of image k. |
| Bluesky.Client.constructor | projects/wixosstcg/repost.py:207 | A new `Client()` is not logged in and has uploaded and posted nothing. |
| Bluesky.Client.Login | projects/wixosstcg/repost.py:208 | Login succeeds exactly when the service accepts it; afterwards the session is logged in if it was before or the login succeeded. |
| Bluesky.Client.UploadBlob | projects/wixosstcg/repost.py:128 | An accepted upload returns the blob of those bytes and records them; a refused one records nothing. |
| Bluesky.Client.SendPost | projects/wixosstcg/repost.py:148-152 | An accepted post is appended to the session and its reference is its position; a refused one changes nothing. |
| Bluesky.Client.SendImages | post_wixoss_to_bsky.py:82 | Succeeds exactly when every upload and the post are accepted. It then appends the images to the blobs and the image post to the feed, and otherwise changes nothing. |
| RepostState.LoadCursor | projects/wixosstcg/repost.py:26-33 | No file gives `(None, False)`. A stored document gives its `last_tweet_id`, and counts as initialized only when `initialized` is true (missing means false). Only an unreadable file fails, and it always fails. |
| RepostState.LoadAfterSave | projects/wixosstcg/repost.py:35-43 | Loading what `save_last_tweet_id` wrote gives the saved id, marked initialized. |
| RepostState.Store.constructor | projects/wixosstcg/repost.py:18 | A store holds the given state file. |
| RepostState.Store.Save | projects/wixosstcg/repost.py:35-43 | The file afterwards holds the tweet id, `initialized` true and the write time. |
| RepostCompose.HeaderFacetSpansHeader | projects/wixosstcg/repost.py:99-115 | The facet runs from byte 0 to `Utf8Len(header)` with the header link as uri. Its end plus 2 plus the body's bytes is the full text's byte length, so it lies inside the encoded text. The header's encoding is a prefix of the full text's. The facet is non-empty exactly when the header is. |
| RepostCompose.PhotosExactly | projects/wixosstcg/repost.py:122 | A media entry is among the photos exactly when it is in the list and has type `photo`. |
| RepostCompose.Selected | projects/wixosstcg/repost.py:119-137 | The selection is a prefix of the photos in source order with at most four entries. It has fewer entries than the photos exactly when there are more than four photos, and its length is the number of photos capped at four, so with more than four photos it is exactly the first four. |
| RepostCompose.SelectedArePhotos | projects/wixosstcg/repost.py:121-133 | Every selected entry is a photo of the list; with at most four photos every photo is selected. |
| RepostCompose.TransferPhotos | projects/wixosstcg/repost.py:121-133 | At most one upload per selected photo. A transfer without error uploaded every selected photo; every error is a media error (missing url, failed download, refused upload). |
| RepostCompose.TransferPhotosUploads | projects/wixosstcg/repost.py:121-133 | Photo k before the failing one was downloaded and uploaded as the k-th blob; the error is the failing photo's own. |
| RepostCompose.ImageEntries | projects/wixosstcg/repost.py:129-132 | One embed entry per uploaded blob, in order: entry k has the empty alt text and the blob of upload k. |
| RepostCompose.PostTweet | projects/wixosstcg/repost.py:96-162 | One item only appends to the session's blobs and posts. |
| RepostCompose.PostTweetPosts | projects/wixosstcg/repost.py:140-162 | An item adds no post, the main post alone, or the main post and its reply. It succeeds exactly when both were created; the reply error leaves exactly the main post. The main post has the full text, the one header facet and no reply link. The second post is the permalink text with root and parent both the main post. |
| RepostCompose.PostTweetMedia | projects/wixosstcg/repost.py:117-146 | At most four blobs per item, each the download of the selected photo at that position. A media error leaves no post. A created main post has an embed exactly when photos were selected, holding one empty-alt entry per uploaded blob in order. |
| RepostCompose.PostTweetWarning | projects/wixosstcg/repost.py:135-138 | The overflow warning is printed exactly when the photos transferred and there were more than four. |
| RepostCompose.UploadPhotos | projects/wixosstcg/repost.py:117-133 | The photo loop equals the transfer of the selected photos: the same uploads, the same first error, the blobs appended to the session and the empty-alt entries built from them. |
| RepostCompose.CreateBlueskyPost | projects/wixosstcg/repost.py:96-164 | The session's blobs and posts, the warning and the error are exactly those of `PostTweet`. |
| RepostMain.MaxResults | projects/wixosstcg/repost.py:173-178 | The limit is `initial_post_limit` when not initialized, and 100 otherwise. |
| RepostMain.Reversed | projects/wixosstcg/repost.py:196-197 | Same length; element k is element `n - 1 - k` of the input. |
| RepostMain.ProcessingOrder | projects/wixosstcg/repost.py:195-202 | The posted list is the page oldest first, with every tweet carrying the page-wide `includes`. Its last element is the newest fetched tweet `data[0]`. |
| RepostMain.PostAll | projects/wixosstcg/repost.py:210-216 | One report per tweet; the session's blobs and posts only grow. |
| RepostMain.PostAllItem | projects/wixosstcg/repost.py:210-216 | Tweet k is attempted on the session the first k tweets left, and its report is that one attempt's outcome, so a failing tweet neither stops nor alters the later ones. |
| RepostMain.PostAllPrefix | projects/wixosstcg/repost.py:210-216 | The session and reports after a prefix of the tweets are a prefix of those after a longer prefix. |
| RepostMain.PostAllPrefixOfAll | projects/wixosstcg/repost.py:210-216 | The session and reports after a prefix of the tweets are a prefix of those after all of them. |
| RepostMain.MainPostOfItem | projects/wixosstcg/repost.py:211-216 | A tweet whose main post was created has that post at the position the earlier tweets left the session at. |
| RepostMain.MainPostPlaced | projects/wixosstcg/repost.py:211-216 | That main post stays at that position in the session after all tweets. |
| RepostMain.PostAllOrder | projects/wixosstcg/repost.py:195-216 | For tweets i < j that both created their main post, tweet i's post comes strictly before tweet j's, each with its own text: oldest first. |
| RepostMain.NextRunResumes | projects/wixosstcg/repost.py:174-178 | After a completed pass, the next load gives the newest fetched id, initialized, and so a page size of 100. |
| RepostMain.ReverseInPlace | projects/wixosstcg/repost.py:197 | The array afterwards holds its old contents reversed. |
| RepostMain.AttachIncludes | projects/wixosstcg/repost.py:200-202 | Every tweet of the array afterwards carries the given `includes` and is otherwise unchanged. |
| RepostMain.OldestFirst | projects/wixosstcg/repost.py:195-202 | A fresh array holding the page reversed, every tweet with the page's `includes`. |
| RepostMain.PostEach | projects/wixosstcg/repost.py:210-216 | The posting loop leaves the session and returns the reports of `PostAll` on the array's tweets. |
| RepostMain.RunRepost | projects/wixosstcg/repost.py:166-221 | An unreadable state file, an `HTTPError`, any other fetch exception and missing or empty `data` each end the pass with their own outcome. They post nothing, leave the cursor unwritten and never log in. The fetch uses the cursor's id and `MaxResults`. A refused login ends with `LoginFailed`. Otherwise the session is `PostAll` of the oldest-first tweets and the saved cursor is the newest fetched id, whatever the items did. |
| NitterScript.ScriptNow | post_wixoss_to_bsky.py:18-19 | Intended `now`: an instant is in the window exactly when it lies in [clock - 24h, clock]. |
| NitterScript.ScriptNowAsWritten | post_wixoss_to_bsky.py:18 | As written, `now` lies nine hours after the current instant. |
| NitterScript.AsWrittenWindowIsShifted | post_wixoss_to_bsky.py:18-19 | As written, the window is [clock - 15h, clock + 9h]. |
| NitterScript.AsWrittenWindowMissesRecentItem | post_wixoss_to_bsky.py:18-50 | An item 20 hours old is in the intended window but rejected by the as-written test. |
| NitterScript.ResolveImageUrl | post_wixoss_to_bsky.py:67-71 | A `src` starting with `http://` or `https://` is kept; any other becomes `nitter_base + src`; the result is always absolute. |
| NitterScript.ResolveIdempotent | post_wixoss_to_bsky.py:67-71 | Resolving a resolved URL changes nothing. |
| NitterScript.UsableSrc | post_wixoss_to_bsky.py:66-67 | A `src` is used exactly when it is present, a string and non-empty, and then it is that string. |
| NitterScript.FirstTags | post_wixoss_to_bsky.py:65 | `[:4]`: a prefix of the tags with at most four elements, all of them when there are at most four; its length is the tag count capped at four, so with more tags it is exactly the first four. |
| NitterScript.ImageUrls | post_wixoss_to_bsky.py:65-71 | No more URLs than tags. |
| NitterScript.ImageUrlsExactly | post_wixoss_to_bsky.py:65-71 | A URL is selected exactly when some tag has a usable `src` resolving to it; every selected URL is absolute. |
| NitterScript.PostTextLayout | post_wixoss_to_bsky.py:78 | The post text is the prefix `[wixoss公式] `, then the stripped item text, a newline, then `https://twitter.com` followed by the `href` (line 60). |
| NitterScript.DecideKeeps | post_wixoss_to_bsky.py:39-56 | An item is kept exactly when all of these hold: it has a date tag; the stripped date parses; the instant is in the inclusive window; it has a content tag and a link tag with an `href`. |
| NitterScript.DecideDraft | post_wixoss_to_bsky.py:58-71 | A kept item's draft has the formatted text and at most four absolute image URLs. |
| NitterScript.SelectedUrlsAbsolute | post_wixoss_to_bsky.py:65-71 | At most four URLs come from an item's tags, all absolute. |
| NitterScript.FetchAll | post_wixoss_to_bsky.py:73 | Successful downloads give one result per URL. |
| NitterScript.FetchAllExactly | post_wixoss_to_bsky.py:73 | The downloads succeed exactly when every URL downloads, and then hold each URL's bytes in order. |
| NitterScript.Blanks | post_wixoss_to_bsky.py:75 | `image_alts`: n entries, each the empty string. |
| NitterScript.Publish | post_wixoss_to_bsky.py:81-87 | The session only grows. |
| NitterScript.Deliver | post_wixoss_to_bsky.py:63-87 | The session only grows. |
| NitterScript.Attempt | post_wixoss_to_bsky.py:37-87 | The session only grows. |
| NitterScript.DeliverCounts | post_wixoss_to_bsky.py:63-87 | A kept item adds at most one post, and adds one exactly when nothing raised. A raise leaves the session unchanged, and the image-fetch error occurs exactly when a download fails. |
| NitterScript.DeliverShape | post_wixoss_to_bsky.py:63-87 | A delivered post has the draft's text and the script's shape. It has an embed exactly when there are images (`send_images` versus `send_post`), and the downloaded images are the blobs uploaded, in order. |
| NitterScript.AttemptPosts | post_wixoss_to_bsky.py:39-87 | One item adds at most one post, and adds one exactly when posted. A skipped item changes nothing and halts nothing. A raising item leaves the session unchanged. A posted item's post has its draft text and the script's shape. |
| NitterScript.ImagesPostShape | post_wixoss_to_bsky.py:81-83 | An image post has an embed of one to four entries, all with empty alt text, no facets and no reply. |
| NitterScript.ExecItems | post_wixoss_to_bsky.py:36-88 | The session only grows over the loop. |
| NitterScript.ExecItemsPosts | post_wixoss_to_bsky.py:36-90 | `posted_any` is true exactly when something was posted. At most one post is made per item, and every post has the script's shape. |
| NitterScript.ExecItemsStep | post_wixoss_to_bsky.py:37 | Item i is attempted on the session the earlier items left, unless one of them raised. |
| NitterScript.ExecItemsHaltPersists | post_wixoss_to_bsky.py:37-87 | Once an item raises, the later items are never attempted and the result is the one at the raise. |
| NitterScript.CollectImages | post_wixoss_to_bsky.py:63-75 | The image loop succeeds exactly when every selected URL downloads, and then yields those downloads in order. `images` and `image_alts` have the same length, at most four, with every alt empty. |
| NitterScript.CollectTag | post_wixoss_to_bsky.py:66-75 | One pass of the image loop extends the downloads of the tags before it by this tag's image, if it has one. It reports a failed download, and keeps the alts empty and as many as the images. |
| NitterScript.PublishPost | post_wixoss_to_bsky.py:81-87 | The `send_images`/`send_post` choice and call leave the session, the halt and `posted` of `Publish`. |
| NitterScript.PostItem | post_wixoss_to_bsky.py:37-88 | The loop body for one item leaves the session and returns the halt and `posted` of `Attempt`. |
| NitterScript.RunScript | post_wixoss_to_bsky.py:18-91 | A failed page request ends with `PageFetchFailed`, and an empty timeline ends with `NoTimeline`. Both happen before login and post nothing, and so does a refused login. Otherwise the session is `ExecItems` over the items. The outcome is the first raise, or `Finished(posted_any)`. |

## Left out

- HTTP: the requests themselves are left out and replaced by parameters.
  - In `repost.py`, the bearer-token request, the user lookup and the timeline request together are the `fetch` parameter. It returns a `Response`: `HttpError` is the `HTTPError` that `main` catches, and `TransportError` is any other exception, which leaves the script.
  - The image downloads of both scripts and the Nitter page are `Option`s whose `None` is a raise. Neither Nitter request (the page, post_wixoss_to_bsky.py:22, or an image, line 73) calls `raise_for_status`, so there a `None` is only a transport exception; an HTTP error status is read as a normal response.
- `download`, `get` and `Service` are fixed functions of the URL or the bytes. A URL that fails therefore fails for every tweet that uses it in one pass: all tweets of a page share the page-wide `includes`, so one failing photo URL fails every tweet on the page. Transient failures that hit one request and not another are not modelled, and no property here covers them.
- Utf8.Utf8Len: a Dafny `char` is a Unicode scalar value, so a lone surrogate in `header_text` cannot be represented. Python's `json.load` accepts one, and then `header_text.encode('utf-8')` raises `UnicodeEncodeError` in every tweet, which `main` catches and reports. In the model `Utf8Len` and `HeaderFacet` never fail.
- `load_config`, files, JSON (de)serialisation, `os.makedirs`, environment variables and base64 credentials are left out; the configuration is a given `Config` value.
- `print` output, `time.sleep(1)`, the debug HTML dump of the Nitter script and `exit()` are left out. The overflow warning is the boolean `warned`.
- The BeautifulSoup selectors and `datetime.strptime` with the JST timezone are foreign library calls. An item is a record of what the selectors found, and parsing is the `parseDate` parameter.
- `atproto.Client` is replaced by the recording `Bluesky.Client`; the AT protocol itself, URIs and CIDs are not modelled.
- Bluesky.Client.SendImages: modelled all-or-nothing. A failure mid-way through the library's own uploads leaves no blobs recorded, because the library's internal order is not part of this model.
- NitterScript.RunScript: runs with the corrected `ScriptNow`. The as-written nine-hour shift is modelled by `ScriptNowAsWritten` and its lemmas (see Findings).
- RepostState.LoadCursor: `initialized` is modelled as an optional boolean. A non-boolean JSON value, which Python would test for truthiness, is not modelled. Likewise `last_tweet_id` is an optional string.
- Keys the source reads without a default are taken to be present: `tweet['text']`, `tweet['id']`, `media['type']`, the `config` keys and `data['id']`. Their `KeyError` is not modelled; a missing `media['url']` is (`MissingMediaUrl`).
- A login failure raises out of both scripts; the model ends the pass with `LoginFailed` and nothing posted.
- The code has no tracking-link stripping, no in-body link facets re-based after the header, no per-image failure recovery and no check of each tweet's own media keys, and neither does the model.
- Three behaviours of the code that the model keeps as they are:
  - Every tweet gets the page-wide `includes` (`ProcessingOrder`).
  - One failed image aborts the whole item (`TransferPhotosUploads`, `PostTweetMedia`).
  - An empty `header_text` yields the empty facet [0, 0) (`HeaderFacetSpansHeader`).
- Timestamps are microseconds, so the window bounds are exact. The scraped dates have minute resolution, and that is up to `parseDate`.

## Findings

| source | as written | input that shows it | evidently intended | confidence | as-written member | corrected member |
|---|---|---|---|---|---|---|
| post_wixoss_to_bsky.py:18 | `datetime.now(timezone.utc) + timedelta(hours=9)` keeps the UTC label, so `now` is nine hours in the future. The window becomes [clock - 15h, clock + 9h]. | An item dated 20 hours ago (for example clock 12:00 UTC, item at 16:00 UTC the previous day) | the current instant in JST, with window [clock - 24h, clock] | not executed | NitterScript.AsWrittenWindowMissesRecentItem | NitterScript.ScriptNow |
