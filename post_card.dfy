/**
 * One post in the feed: the liked marker, the author shown (the stored record when there is one),
 * sharing the post back into the feed or into a chat, the comment box, and the list of people the
 * post can be sent to.
 */
module PostCard {
  import opened Wrappers
  import opened Types
  import opened Seqs
  import opened Text
  import opened AuthContext
  import opened ChatRoom

  /** `isLiked`: without a session nothing is liked. */
  predicate IsLiked(session: Option<User>, p: Post)
  {
    session.Some? && session.value.id in p.likedBy
  }

  /** Pressing like flips the marker on every copy of the post and leaves the other posts alone. */
  lemma LikeFlipsMarker(s: State, postId: Id, noteId: Id, now: int)
    requires s.session.Some?
    ensures var after := LikeStep(s, postId, noteId, now).state.posts;
      |after| == |s.posts| &&
      (forall i :: 0 <= i < |s.posts| && s.posts[i].id == postId ==> (IsLiked(s.session, after[i]) <==> !IsLiked(s.session, s.posts[i]))) &&
      (forall i :: 0 <= i < |s.posts| && s.posts[i].id != postId ==> after[i] == s.posts[i])
  {
  }

  /** The author shown on the card: the stored record with the post's author id, else the copy inside the post. */
  function DisplayedAuthor(users: seq<User>, p: Post): (r: User)
    ensures r.id == p.user.id
    ensures FindUser(users, p.user.id).None? ==> r == p.user
    ensures FindUser(users, p.user.id).Some? ==> r in users
  {
    match FindUser(users, p.user.id)
    case None => p.user
    case Some(u) => u
  }

  /** The text of a post shared to the feed: the note above a marker line, or a fixed lead-in without one. */
  function SharedContent(shareText: string, authorName: string, content: string): (r: string)
    ensures |r| >= |content| && r[|r| - |content|..] == content
    ensures !IsBlank(shareText) ==> |r| >= |shareText| + |content| && r[..|shareText|] == shareText
    ensures IsBlank(shareText) ==> |r| >= 19 && r[..19] == "Shared a post from "
    ensures !IsBlank(shareText) ==> r[|shareText|..|r| - |content|] == "\n\n--- Shared from " + authorName + " ---\n"
    ensures IsBlank(shareText) ==> r[..|r| - |content|] == "Shared a post from " + authorName + ":\n\n"
    ensures Contains(r, authorName)
  {
    var lead := if !IsBlank(shareText) then shareText + "\n\n--- Shared from " else "Shared a post from ";
    var tail := if !IsBlank(shareText) then " ---\n" + content else ":\n\n" + content;
    assert (lead + authorName + tail)[|lead|..|lead| + |authorName|] == authorName;
    assert OccursAt(lead + authorName + tail, authorName, |lead|);
    lead + authorName + tail
  }

  /** The share dialog: whether it is open, the typed note, and the page it shows. */
  datatype ShareStage = Choosing | ToFeed | ToChat
  datatype ShareDialog = ShareDialog(open: bool, note: string, stage: ShareStage)

  /** `handleShareToFeed`: with a session, a new post carrying the shared text and the post's image, and a reset dialog. */
  method ShareToFeed(store: Store, dialog: ShareDialog, author: User, post: Post, now: nat) returns (next: ShareDialog)
    modifies store
    ensures store.Snapshot() == PostStep(old(store.Snapshot()), SharedContent(dialog.note, author.name, post.content), post.imageUrl, now)
    ensures old(store.session).None? ==> next == dialog
    ensures old(store.session).Some? ==> next == ShareDialog(false, "", Choosing)
  {
    if store.session.None? {
      return dialog;
    }
    store.CreatePost(SharedContent(dialog.note, author.name, post.content), post.imageUrl, now);
    next := ShareDialog(false, "", Choosing);
  }

  /** Sharing at a moment later than every stored post puts the shared post, with the original text at its end, first in the feed. */
  lemma SharedPostLeadsFeed(s: State, note: string, author: User, post: Post, now: nat)
    requires s.session.Some?
    requires forall i :: 0 <= i < |s.posts| ==> FeedKey(s.posts[i]) < now
    ensures var feed := Feed(PostStep(s, SharedContent(note, author.name, post.content), post.imageUrl, now).posts);
      feed != [] && feed[0].user == s.session.value && feed[0].imageUrl == post.imageUrl &&
      |feed[0].content| >= |post.content| && feed[0].content[|feed[0].content| - |post.content|..] == post.content
  {
    CreatedPostLeadsFeed(s, SharedContent(note, author.name, post.content), post.imageUrl, now);
  }

  /** The chat message that carries a shared post: the author's credit and at most the first 50 characters of its text. */
  function ShareMessageText(authorName: string, content: string): (r: string)
    ensures |r| == 32 + |authorName| + (if |content| < 50 then |content| else 50)
    ensures r[..28 + |authorName|] == "Check out this post from " + authorName + ": \""
    ensures r[28 + |authorName|..] == Take(content, 50) + "...\""
    ensures Contains(r, Take(content, 50))
    ensures |content| <= 50 ==> Contains(r, content)
  {
    var lead := "Check out this post from " + authorName + ": \"";
    assert OccursAt(Take(content, 50), Take(content, 50), 0);
    ContainsWithin(lead, Take(content, 50), "...\"", Take(content, 50));
    lead + Take(content, 50) + "...\""
  }

  function SharedMessage(me: User, recipient: User, authorName: string, post: Post, now: nat): Message
  {
    Message("msg_share_" + NatToString(now), me.id, recipient.id, ShareMessageText(authorName, post.content), now)
  }

  /** `handleSendToChat`: the message is appended to the log and the recipient is alerted. */
  function SendToChatStep(s: State, recipient: User, authorName: string, post: Post, now: nat): (r: Outcome)
    ensures s.session.None? ==> r == Outcome(s, [])
    ensures s.session.Some? ==>
      r.state == s.(messages := s.messages + [SharedMessage(s.session.value, recipient, authorName, post, now)])
    ensures s.session.Some? ==>
      r.alerts == PushAlerts(s, recipient.id, s.session.value.name, "Shared a post with you", Some(s.session.value.profilePic), Some(s.session.value.id))
  {
    if s.session.None? then Outcome(s, [])
    else
      var me := s.session.value;
      Outcome(s.(messages := s.messages + [SharedMessage(me, recipient, authorName, post, now)]),
              PushAlerts(s, recipient.id, me.name, "Shared a post with you", Some(me.profilePic), Some(me.id)))
  }

  /** The shared message shows up in the thread between the sender and the recipient, next to every earlier one. */
  lemma SharedMessageJoinsThread(s: State, recipient: User, authorName: string, post: Post, now: nat)
    requires s.session.Some?
    ensures var me := Some(s.session.value.id);
      var after := SendToChatStep(s, recipient, authorName, post, now).state.messages;
      forall m :: m in Thread(after, me, recipient.id) <==>
        m in Thread(s.messages, me, recipient.id) || m == SharedMessage(s.session.value, recipient, authorName, post, now)
  {
    var me := Some(s.session.value.id);
    var after := SendToChatStep(s, recipient, authorName, post, now).state.messages;
    ThreadCorrect(after, me, recipient.id);
    ThreadCorrect(s.messages, me, recipient.id);
  }

  method SendToChat(store: Store, dialog: ShareDialog, recipient: User, authorName: string, post: Post, now: nat) returns (next: ShareDialog, alerts: seq<Alert>)
    modifies store
    ensures store.Snapshot() == SendToChatStep(old(store.Snapshot()), recipient, authorName, post, now).state
    ensures alerts == SendToChatStep(old(store.Snapshot()), recipient, authorName, post, now).alerts
    ensures old(store.session).None? ==> next == dialog
    ensures old(store.session).Some? ==> next == dialog.(open := false, stage := Choosing)
  {
    if store.session.None? {
      return dialog, [];
    }
    var me := store.session.value;
    alerts := PushAlerts(store.Snapshot(), recipient.id, me.name, "Shared a post with you", Some(me.profilePic), Some(me.id));
    store.messages := store.messages + [SharedMessage(me, recipient, authorName, post, now)];
    next := dialog.(open := false, stage := Choosing);
  }

  /** `handleCommentSubmit`: a blank box submits nothing and keeps its text; otherwise the comment is added and the box cleared. */
  method SubmitComment(store: Store, postId: Id, box: string, noteId: Id, now: nat) returns (nextBox: string, alerts: seq<Alert>)
    modifies store
    ensures IsBlank(box) ==> nextBox == box && alerts == [] && store.Snapshot() == old(store.Snapshot())
    ensures !IsBlank(box) ==> nextBox == ""
    ensures store.Snapshot() == CommentStep(old(store.Snapshot()), postId, box, noteId, now).state
    ensures alerts == CommentStep(old(store.Snapshot()), postId, box, noteId, now).alerts
  {
    if IsBlank(box) {
      return box, [];
    }
    alerts := store.AddComment(postId, box, noteId, now);
    nextBox := "";
  }

  /** The stored records of the given ids, in the order of the ids; unknown ids are skipped. */
  function Resolve(ids: seq<Id>, users: seq<User>): (r: seq<User>)
    ensures |r| <= |ids|
    ensures forall i :: 0 <= i < |r| ==> r[i] in users && r[i].id in ids
    ensures forall i :: 0 <= i < |ids| && FindUser(users, ids[i]).Some? ==> FindUser(users, ids[i]).value in r
  {
    if ids == [] then []
    else
      var rest := Resolve(ids[1..], users);
      assert forall i :: 1 <= i < |ids| ==> ids[i] == ids[1..][i - 1];
      match FindUser(users, ids[0])
      case None => rest
      case Some(u) => [u] + rest
  }

  /** The people a post can be sent to: the session user's followed ids, looked up. */
  function ChatTargets(session: Option<User>, users: seq<User>): (r: seq<User>)
    ensures session.None? ==> r == []
    ensures session.Some? ==> forall i :: 0 <= i < |r| ==> r[i] in users && SessionFollows(session, r[i].id)
    ensures session.Some? ==> forall id :: id in FollowingOf(session.value) && FindUser(users, id).Some? ==>
      FindUser(users, id).value in r
  {
    if session.None? then [] else Resolve(FollowingOf(session.value), users)
  }
}
