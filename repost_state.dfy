/**
 * The synchronisation cursor of `projects/wixosstcg/repost.py`: what
 * `load_last_tweet_id` reads from the state file and what
 * `save_last_tweet_id` writes to it.  Only the decoded JSON document is
 * modelled, not the file system or the JSON syntax.
 */
module RepostState {
  import opened Wrappers

  /** The JSON object in the state file; a key that is absent or `null` is `None`. */
  datatype StateDoc = StateDoc(lastTweetId: Option<string>, initialized: Option<bool>, lastUpdated: Option<string>)

  /**
   * The state file: absent, present but not a JSON object (`json.load` or
   * `data.get` raises), or holding a document.
   */
  datatype StateFile = NoFile | Unreadable | Stored(doc: StateDoc)

  /** The cursor a run starts from: the last tweet id and whether a first run has completed. */
  datatype Cursor = Cursor(lastTweetId: Option<string>, initialized: bool)

  datatype LoadError = MalformedState

  /**
   * `load_last_tweet_id()`: a missing file gives `(None, False)`; a file
   * without `initialized` counts as not initialized; only an unreadable file
   * is an error (the exception leaves the script).
   */
  function LoadCursor(f: StateFile): (r: Result<Cursor, LoadError>)
    ensures r.Failure? <==> f.Unreadable?
    ensures f.NoFile? ==> r == Success(Cursor(None, false))
    ensures f.Stored? ==> r.Success? && r.value.lastTweetId == f.doc.lastTweetId
    ensures f.Stored? && f.doc.initialized != Some(true) ==> r.Success? && !r.value.initialized
    ensures r.Success? && r.value.initialized ==> f.Stored? && f.doc.initialized == Some(true)
  {
    match f
    case NoFile => Success(Cursor(None, false))
    case Unreadable => Failure(MalformedState)
    case Stored(doc) =>
      Success(Cursor(doc.lastTweetId, match doc.initialized case Some(b) => b case None => false))
  }

  /** The document `save_last_tweet_id(tweet_id)` writes. */
  function SavedDoc(tweetId: string, updatedAt: string): StateDoc
  {
    StateDoc(Some(tweetId), Some(true), Some(updatedAt))
  }

  /** Loading what was saved gives back the saved id, marked initialized. */
  lemma LoadAfterSave(tweetId: string, updatedAt: string)
    ensures LoadCursor(Stored(SavedDoc(tweetId, updatedAt))) == Success(Cursor(Some(tweetId), true))
  {
  }

  /** The state file of a project. */
  class Store {
    var file: StateFile

    constructor (file: StateFile)
      ensures this.file == file
    {
      this.file := file;
    }

    /**
     * `save_last_tweet_id(tweet_id)`: overwrites the file with the id, the
     * initialized flag and the time of the write (`updatedAt`, the clock
     * being a parameter).
     */
    method Save(tweetId: string, updatedAt: string)
      modifies this
      ensures file == Stored(SavedDoc(tweetId, updatedAt))
    {
      file := Stored(SavedDoc(tweetId, updatedAt));
    }
  }
}
