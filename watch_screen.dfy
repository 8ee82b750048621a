/**
 * The watch screen: the embed address of a video, the bookmark toggle, and the upload form's
 * validation and defaults.
 */
module WatchScreen {
  import opened Wrappers
  import opened Types
  import opened Seqs
  import opened Text
  import opened AuthContext

  const PluginPath := "facebook.com/plugins/video.php"
  const EmbedScheme := "https://www."
  const EmbedQuery := "?href="
  const EmbedPrefix := EmbedScheme + PluginPath + EmbedQuery
  const EmbedSuffix := "&show_text=false&t=0"

  /** The embed prefix already carries the plugin path. */
  lemma PrefixHasPluginPath()
    ensures Contains(EmbedPrefix, PluginPath)
  {
    ContainsSelf(PluginPath);
    ContainsWithin(EmbedScheme, PluginPath, EmbedQuery, PluginPath);
  }

  /** `getEmbedUrl`: an address that already points at the plugin is kept, any other is wrapped. */
  function EmbedUrl(url: string): (r: string)
    ensures Contains(url, PluginPath) ==> r == url
    ensures !Contains(url, PluginPath) ==> r == EmbedPrefix + EncodeURIComponent(url) + EmbedSuffix
    ensures Contains(r, PluginPath)
  {
    if Contains(url, PluginPath) then url
    else
      PrefixHasPluginPath();
      ContainsWithin([], EmbedPrefix, EncodeURIComponent(url) + EmbedSuffix, PluginPath);
      assert [] + EmbedPrefix + (EncodeURIComponent(url) + EmbedSuffix) == EmbedPrefix + EncodeURIComponent(url) + EmbedSuffix;
      EmbedPrefix + EncodeURIComponent(url) + EmbedSuffix
  }

  /** Normalising twice is normalising once. */
  lemma EmbedUrlIdempotent(url: string)
    ensures EmbedUrl(EmbedUrl(url)) == EmbedUrl(url)
  {
  }

  /** `handleSave`: the bookmarks afterwards and the new saved flag. */
  function SaveStep(bookmarks: seq<Bookmark>, videoId: Id, session: Option<User>, isSaved: bool): (r: (seq<Bookmark>, bool))
    ensures r.1 == !isSaved
    ensures !isSaved ==> r.0 == bookmarks + [Bookmark(videoId, if session.Some? then Some(session.value.id) else None)]
    ensures isSaved ==> forall i :: 0 <= i < |r.0| ==> r.0[i].videoId != videoId && r.0[i] in bookmarks
    ensures isSaved ==> forall i :: 0 <= i < |bookmarks| && bookmarks[i].videoId != videoId ==> bookmarks[i] in r.0
  {
    if !isSaved then (bookmarks + [Bookmark(videoId, if session.Some? then Some(session.value.id) else None)], true)
    else (Filter(bookmarks, (b: Bookmark) => b.videoId != videoId), false)
  }

  /** Saving and then unsaving a video nobody had saved restores the bookmark list. */
  lemma SaveUnsaveRestores(bookmarks: seq<Bookmark>, videoId: Id, session: Option<User>)
    requires forall i :: 0 <= i < |bookmarks| ==> bookmarks[i].videoId != videoId
    ensures var once := SaveStep(bookmarks, videoId, session, false);
      SaveStep(once.0, videoId, session, once.1) == (bookmarks, false)
  {
    var entry := Bookmark(videoId, if session.Some? then Some(session.value.id) else None);
    FilterDropsAppended(bookmarks, entry, (b: Bookmark) => b.videoId != videoId);
  }

  /** `handleSave` on the store; the card's saved flag is passed in and returned. */
  method HandleSave(store: Store, videoId: Id, isSaved: bool) returns (nowSaved: bool)
    modifies store
    ensures (store.bookmarks, nowSaved) == SaveStep(old(store.bookmarks), videoId, old(store.session), isSaved)
    ensures store.Snapshot() == old(store.Snapshot()).(bookmarks := store.bookmarks)
  {
    if !isSaved {
      var userId := if store.session.Some? then Some(store.session.value.id) else None;
      store.bookmarks := store.bookmarks + [Bookmark(videoId, userId)];
      nowSaved := true;
    } else {
      store.bookmarks := Filter(store.bookmarks, (b: Bookmark) => b.videoId != videoId);
      nowSaved := false;
    }
  }

  const UploadError := "Title and Video URL are required"

  /** The thumbnail used when none is given. */
  function GeneratedThumbnail(now: nat): string
  {
    "https://picsum.photos/seed/" + NatToString(now) + "/800/450"
  }

  /** The upload form's check: a title and a video address are required; a missing thumbnail is generated. */
  function UploadDraft(title: string, description: string, videoUrl: string, thumbnailUrl: string, now: nat): (r: Result<VideoDraft, string>)
    ensures r.Failure? <==> title == "" || videoUrl == ""
    ensures r.Failure? ==> r.error == UploadError
    ensures r.Success? ==> r.value.title == title && r.value.videoUrl == videoUrl && r.value.description == description
    ensures r.Success? ==> r.value.thumbnailUrl == if thumbnailUrl == "" then GeneratedThumbnail(now) else thumbnailUrl
  {
    if title == "" || videoUrl == "" then Failure(UploadError)
    else Success(VideoDraft(title, videoUrl, if thumbnailUrl == "" then GeneratedThumbnail(now) else thumbnailUrl, description))
  }

  /** `handleUpload`: on a failed check the error is shown and the store is untouched. */
  method HandleUpload(store: Store, title: string, description: string, videoUrl: string, thumbnailUrl: string, now: nat) returns (error: string)
    modifies store
    ensures title == "" || videoUrl == "" ==> error == UploadError && store.Snapshot() == old(store.Snapshot())
    ensures title != "" && videoUrl != "" ==>
      error == "" && store.Snapshot() == VideoStep(old(store.Snapshot()), UploadDraft(title, description, videoUrl, thumbnailUrl, now).value, now)
  {
    var draft := UploadDraft(title, description, videoUrl, thumbnailUrl, now);
    if draft.Failure? {
      return draft.error;
    }
    store.CreateVideo(draft.value, now);
    error := "";
  }
}
