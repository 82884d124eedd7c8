/**
 * The target platform as the scripts see it through the `atproto` client:
 * an abstract, recording sink.  Which calls succeed is fixed by a `Service`
 * value; a session records the blobs it uploaded and the posts it created,
 * in order.
 */
module Bluesky {
  import opened Wrappers
  import opened Utf8

  type Bytes = seq<byte>

  /**
   * What `upload_blob` returns.  Blob references are content identifiers,
   * so the reference is determined by the uploaded bytes.
   */
  datatype Blob = Blob(content: Bytes)

  /** Stands for the (uri, cid) of a created post: its position among the posts of the session. */
  datatype PostRef = PostRef(index: nat)

  /** A link annotation over UTF-8 bytes `[byteStart, byteEnd)` of a post's text. */
  datatype Facet = LinkFacet(byteStart: int, byteEnd: int, uri: string)

  /** One entry of an `app.bsky.embed.images` embed. */
  datatype ImageEntry = ImageEntry(alt: string, image: Blob)

  /** Reply threading: the thread's root post and the post replied to. */
  datatype ReplyRef = ReplyRef(root: PostRef, parent: PostRef)

  /** A post as submitted: text, facets, the optional image embed and the optional reply link. */
  datatype Post = Post(text: string, facets: seq<Facet>, embed: Option<seq<ImageEntry>>, reply: Option<ReplyRef>)

  /** How the service answers: whether login succeeds, and which uploads and posts it accepts. */
  datatype Service = Service(loginOk: bool, uploadOk: Bytes -> bool, sendOk: Post -> bool)

  /** What `send_post(text=...)` submits: the bare text. */
  function TextPost(text: string): Post
  {
    Post(text, [], None, None)
  }

  /** What `send_images(text, images, image_alts)` submits: the text and one embed entry per image. */
  function ImagesPost(text: string, images: seq<Bytes>, alts: seq<string>): (p: Post)
    requires |alts| == |images|
    ensures p.embed.Some? && |p.embed.value| == |images|
    ensures forall k :: 0 <= k < |images| ==> p.embed.value[k] == ImageEntry(alts[k], Blob(images[k]))
  {
    Post(text, [], Some(seq(|images|, k requires 0 <= k < |images| => ImageEntry(alts[k], Blob(images[k])))), None)
  }

  /** `send_images` succeeds when every image upload and the post itself are accepted. */
  predicate ImagesAccepted(svc: Service, text: string, images: seq<Bytes>, alts: seq<string>)
    requires |alts| == |images|
  {
    (forall b <- images :: svc.uploadOk(b)) && svc.sendOk(ImagesPost(text, images, alts))
  }

  /** A logged-in or not yet logged-in `atproto.Client` session. */
  class Client {
    const service: Service
    var loggedIn: bool
    /** Blobs uploaded in this session, in order. */
    var blobs: seq<Bytes>
    /** Posts created in this session, in order. */
    var feed: seq<Post>

    constructor (service: Service)
      ensures this.service == service
      ensures !loggedIn && blobs == [] && feed == []
    {
      this.service := service;
      loggedIn := false;
      blobs := [];
      feed := [];
    }

    /** `client.login(...)`; `ok` is false where the library raises. */
    method Login() returns (ok: bool)
      modifies this`loggedIn
      ensures ok == service.loginOk
      ensures loggedIn == (old(loggedIn) || ok)
    {
      ok := service.loginOk;
      loggedIn := loggedIn || ok;
    }

    /** `client.upload_blob(data)`; `None` where the library raises. */
    method UploadBlob(data: Bytes) returns (r: Option<Blob>)
      requires loggedIn
      modifies this`blobs
      ensures r.Some? == service.uploadOk(data)
      ensures r.Some? ==> r.value == Blob(data) && blobs == old(blobs) + [data]
      ensures r.None? ==> blobs == old(blobs)
    {
      if service.uploadOk(data) {
        blobs := blobs + [data];
        r := Some(Blob(data));
      } else {
        r := None;
      }
    }

    /** `client.send_post(...)`; `None` where the library raises. */
    method SendPost(p: Post) returns (r: Option<PostRef>)
      requires loggedIn
      modifies this`feed
      ensures r.Some? == service.sendOk(p)
      ensures r.Some? ==> r.value == PostRef(|old(feed)|) && feed == old(feed) + [p]
      ensures r.None? ==> feed == old(feed)
    {
      if service.sendOk(p) {
        r := Some(PostRef(|feed|));
        feed := feed + [p];
      } else {
        r := None;
      }
    }

    /** `client.send_images(text, images, image_alts)`; `None` where the library raises. */
    method SendImages(text: string, images: seq<Bytes>, alts: seq<string>) returns (r: Option<PostRef>)
      requires loggedIn
      requires |alts| == |images|
      modifies this`blobs, this`feed
      ensures r.Some? == ImagesAccepted(service, text, images, alts)
      ensures r.Some? ==> r.value == PostRef(|old(feed)|)
      ensures r.Some? ==> blobs == old(blobs) + images && feed == old(feed) + [ImagesPost(text, images, alts)]
      ensures r.None? ==> blobs == old(blobs) && feed == old(feed)
    {
      if ImagesAccepted(service, text, images, alts) {
        r := Some(PostRef(|feed|));
        blobs := blobs + images;
        feed := feed + [ImagesPost(text, images, alts)];
      } else {
        r := None;
      }
    }
  }
}
