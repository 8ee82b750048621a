/**
 * The client's store engine. The browser's local storage holds the collections (users, posts,
 * videos, notifications, chat messages and rooms, stories, video bookmarks); the provider keeps
 * the session user and the peer of the open chat. Every operation reads a collection, rewrites it
 * with map/filter/append and writes it back.
 *
 * Each operation is specified twice: a pure step function on `State`, which the lemmas talk
 * about, and a method of `Store` that performs the update field by field and is proved to
 * produce exactly the state the step function describes.
 */
module AuthContext {
  import opened Wrappers
  import opened Types
  import opened Seqs
  import opened Sorting
  import opened Text

  /** What the storage holds under the session key when the client starts. */
  datatype SessionMarker = NoMarker | Corrupt | Decoded(user: User)

  /** The stored collections as the client finds them at start-up. */
  datatype Saved = Saved(
    users: seq<User>,
    posts: seq<Post>,
    videos: seq<Video>,
    notifications: seq<Notification>,
    messages: seq<Message>,
    rooms: seq<Room>,
    stories: seq<Story>,
    bookmarks: seq<Bookmark>,
    marker: SessionMarker)

  /** Everything the store holds; `permitted` is whether the browser lets the client raise alerts. */
  datatype State = State(
    users: seq<User>,
    posts: seq<Post>,
    videos: seq<Video>,
    notifications: seq<Notification>,
    messages: seq<Message>,
    rooms: seq<Room>,
    stories: seq<Story>,
    bookmarks: seq<Bookmark>,
    session: Option<User>,
    activeChatRecipientId: Option<Id>,
    permitted: bool)

  /** The state after an operation and the alerts it raised, in order. */
  datatype Outcome = Outcome(state: State, alerts: seq<Alert>)

  datatype AuthError = InvalidCredentials | DuplicateEmail | RecordWithoutEmail

  // ---------------------------------------------------------------------------------------------
  // Start-up

  const SeedVideoUrl := "https://www.facebook.com/plugins/video.php?height=314&href=https%3A%2F%2Fwww.facebook.com%2Ffacebook%2Fvideos%2F10153231379946729%2F&show_text=false&width=560&t=0"

  /** The video the client seeds when the stored video list is empty. */
  const SeedVideo: Video :=
    Video(
      "v1",
      "Future of Decentralized Networking",
      SeedVideoUrl,
      "https://picsum.photos/id/1/800/450",
      Profile("a1", "R Tech Insights", "https://ui-avatars.com/api/?name=R+Tech&background=312E81&color=fff"),
      "1.2M",
      "2 hours ago",
      "Exploring how R is redefining the way professionals connect across the globe.")

  /** `initAuth` with `loadVideos`: a marker that does not decode leaves no session. */
  function Boot(saved: Saved, permitted: bool): (s: State)
    ensures s.session.Some? <==> saved.marker.Decoded?
    ensures saved.marker.Decoded? ==> s.session.value == saved.marker.user
    ensures saved.videos == [] ==> s.videos == [SeedVideo]
    ensures saved.videos != [] ==> s.videos == saved.videos
    ensures s.activeChatRecipientId.None?
  {
    State(
      saved.users, saved.posts,
      if saved.videos == [] then [SeedVideo] else saved.videos,
      saved.notifications, saved.messages, saved.rooms, saved.stories, saved.bookmarks,
      if saved.marker.Decoded? then Some(saved.marker.user) else None,
      None,
      permitted)
  }

  // ---------------------------------------------------------------------------------------------
  // Feed order

  /** `p.timestamp || 0` */
  function FeedKey(p: Post): int
  {
    p.timestamp.GetOr(0)
  }

  /** `loadPosts`: the stored posts, newest first. */
  function Feed(posts: seq<Post>): (r: seq<Post>)
    ensures SortedDesc(r, FeedKey)
    ensures multiset(r) == multiset(posts)
  {
    SortDescSorted(posts, FeedKey);
    SortDesc(posts, FeedKey)
  }

  // ---------------------------------------------------------------------------------------------
  // Users

  /** `getUserById`: the first record with that id. */
  function FindUser(users: seq<User>, uid: Id): (r: Option<User>)
    ensures r.None? <==> forall i :: 0 <= i < |users| ==> users[i].id != uid
    ensures r.Some? ==> r.value.id == uid
    ensures r.Some? ==> exists k :: 0 <= k < |users| && users[k] == r.value && forall j :: 0 <= j < k ==> users[j].id != uid
  {
    match FindFirst(users, (u: User) => u.id == uid)
    case None => None
    case Some(k) => Some(users[k])
  }

  /** Looking a user up after rewriting every record with an id-preserving `f` finds the rewritten record. */
  lemma FindUserMapped(users: seq<User>, f: User -> User, uid: Id)
    requires forall u :: f(u).id == u.id
    ensures FindUser(Map(users, f), uid) == if FindUser(users, uid).Some? then Some(f(FindUser(users, uid).value)) else None
  {
    var mapped := Map(users, f);
    var a := FindFirst(users, (u: User) => u.id == uid);
    var b := FindFirst(mapped, (u: User) => u.id == uid);
    assert forall i :: 0 <= i < |users| ==> (mapped[i].id == uid <==> users[i].id == uid);
    if a.Some? {
      assert b.Some? && b.value == a.value;
    } else {
      assert b.None?;
    }
  }

  /** `ids` with `x` removed when it was present, appended when it was not. */
  function Toggled(ids: seq<Id>, x: Id, present: bool): (r: seq<Id>)
    ensures x in r <==> !present
    ensures forall y :: y != x ==> (y in r <==> y in ids)
  {
    if present then Without(ids, x) else ids + [x]
  }

  /** The follow graph is two-sided: `a` lists `b` as followed exactly when `b` lists `a` as follower. */
  ghost predicate MutualFollows(users: seq<User>)
  {
    forall i, j :: 0 <= i < |users| && 0 <= j < |users| ==>
      (users[j].id in FollowingOf(users[i]) <==> users[i].id in FollowersOf(users[j]))
  }

  /** The per-record callback of `toggleFollow`: the actor's record first, then the target's. */
  function FollowRecord(u: User, me: Id, target: Id, was: bool): User
  {
    if u.id == me then u.(following := Some(Toggled(FollowingOf(u), target, was)))
    else if u.id == target then u.(followers := Some(Toggled(FollowersOf(u), me, was)))
    else u
  }

  /** The user list after a follow (`was` false) or an unfollow (`was` true) of `target` by `me`. */
  function ApplyFollow(users: seq<User>, me: Id, target: Id, was: bool): (r: seq<User>)
    ensures |r| == |users|
    ensures forall i :: 0 <= i < |users| ==> r[i].id == users[i].id
    ensures forall i :: 0 <= i < |users| && users[i].id == me ==>
      r[i].(following := users[i].following) == users[i] && (target in FollowingOf(r[i]) <==> !was)
    ensures forall i :: 0 <= i < |users| && users[i].id == target && target != me ==>
      r[i].(followers := users[i].followers) == users[i] && (me in FollowersOf(r[i]) <==> !was)
    ensures forall i :: 0 <= i < |users| && users[i].id != me && users[i].id != target ==> r[i] == users[i]
  {
    Map(users, (u: User) => FollowRecord(u, me, target, was))
  }

  /** A follow or an unfollow keeps the follow graph two-sided, whatever the session believed. */
  lemma FollowKeepsMutual(users: seq<User>, me: Id, target: Id, was: bool)
    requires me != target
    requires MutualFollows(users)
    ensures MutualFollows(ApplyFollow(users, me, target, was))
  {
    var r := ApplyFollow(users, me, target, was);
    forall i, j | 0 <= i < |r| && 0 <= j < |r|
      ensures r[j].id in FollowingOf(r[i]) <==> r[i].id in FollowersOf(r[j])
    {
      assert r[i] == FollowRecord(users[i], me, target, was);
      assert r[j] == FollowRecord(users[j], me, target, was);
      assert users[j].id in FollowingOf(users[i]) <==> users[i].id in FollowersOf(users[j]);
    }
  }

  // ---------------------------------------------------------------------------------------------
  // Notifications

  /** A notification before the store gives it an id, a time and a read flag. */
  datatype Draft = Draft(
    toUserId: Id,
    fromUserId: Id,
    fromUserName: string,
    fromUserProfilePic: string,
    kind: NotificationKind,
    postId: Option<Id>)

  function FollowDraft(me: User, target: Id): Draft
  {
    Draft(target, me.id, me.name, me.profilePic, FollowKind, None)
  }

  function PostDraft(me: User, p: Post, kind: NotificationKind): Draft
  {
    Draft(p.user.id, me.id, me.name, me.profilePic, kind, Some(p.id))
  }

  /** A draft addressed to the session user is dropped. */
  predicate SelfAddressed(session: Option<User>, toUserId: Id)
  {
    session.Some? && session.value.id == toUserId
  }

  function Created(d: Draft, noteId: Id, now: int): (n: Notification)
    ensures !n.isRead && n.toUserId == d.toUserId && n.kind == d.kind && n.timestamp == now
  {
    Notification(noteId, d.toUserId, d.fromUserId, d.fromUserName, d.fromUserProfilePic, d.kind, d.postId, now, false)
  }

  /** The alert phrase of `createNotification`; every kind other than like and comment reads as a follow. */
  function AlertPhrase(k: NotificationKind): string
  {
    match k
    case LikeKind => "liked your post"
    case CommentKind => "commented on your post"
    case _ => "started following you"
  }

  function AlertFor(d: Draft): (a: Alert)
    ensures a.title == "R Network Update"
    ensures a.body == d.fromUserName + " " + AlertPhrase(d.kind)
  {
    LocalAlert("R Network Update", d.fromUserName + " " + AlertPhrase(d.kind), Some(d.fromUserProfilePic))
  }

  /** `sendLocalNotification`: an alert is shown only when the browser permits it. */
  function Raise(s: State, a: Alert): (r: seq<Alert>)
    ensures r == [] <==> !s.permitted
    ensures r != [] ==> r == [a]
  {
    if s.permitted then [a] else []
  }

  /** `createNotification`: prepend one unread notification, unless it is addressed to the session user. */
  function Deliver(s: State, d: Draft, noteId: Id, now: int): (r: Outcome)
    ensures r.state.(notifications := s.notifications) == s
    ensures SelfAddressed(s.session, d.toUserId) ==> r.state == s && r.alerts == []
    ensures !SelfAddressed(s.session, d.toUserId) ==>
      |r.state.notifications| == |s.notifications| + 1 && r.state.notifications[1..] == s.notifications &&
      r.state.notifications[0].toUserId == d.toUserId && !r.state.notifications[0].isRead &&
      r.alerts == Raise(s, AlertFor(d))
  {
    if SelfAddressed(s.session, d.toUserId) then Outcome(s, [])
    else Outcome(s.(notifications := [Created(d, noteId, now)] + s.notifications), Raise(s, AlertFor(d)))
  }

  /** `createNotification` called once per draft, in order. */
  function DeliverAll(s: State, ds: seq<Draft>, noteId: Id, now: int): Outcome
    decreases |ds|
  {
    if ds == [] then Outcome(s, [])
    else
      var prev := DeliverAll(s, ds[..|ds| - 1], noteId, now);
      var last := Deliver(prev.state, ds[|ds| - 1], noteId, now);
      Outcome(last.state, prev.alerts + last.alerts)
  }

  /**
   * The notifications a run of `createNotification` calls adds, newest first: one per draft not
   * addressed to the session user, the last draft's at the front.
   */
  function Delivered(session: Option<User>, ds: seq<Draft>, noteId: Id, now: int): (r: seq<Notification>)
    ensures |r| <= |ds|
    ensures forall i :: 0 <= i < |r| ==> !r[i].isRead && !SelfAddressed(session, r[i].toUserId)
    decreases |ds|
  {
    if ds == [] then [] else DeliveredHead(session, ds[|ds| - 1], noteId, now) + Delivered(session, ds[..|ds| - 1], noteId, now)
  }

  /** What one `createNotification` call adds: nothing for the session user, else one unread notification. */
  function DeliveredHead(session: Option<User>, d: Draft, noteId: Id, now: int): (r: seq<Notification>)
    ensures SelfAddressed(session, d.toUserId) ==> r == []
    ensures !SelfAddressed(session, d.toUserId) ==> r == [Created(d, noteId, now)]
  {
    if SelfAddressed(session, d.toUserId) then [] else [Created(d, noteId, now)]
  }

  /** The alerts the same run raises, in call order. */
  function DeliveredAlerts(permitted: bool, session: Option<User>, ds: seq<Draft>): (r: seq<Alert>)
    ensures !permitted ==> r == []
    ensures |r| <= |ds|
    decreases |ds|
  {
    if ds == [] then []
    else
      var d := ds[|ds| - 1];
      DeliveredAlerts(permitted, session, ds[..|ds| - 1]) +
      (if !permitted || SelfAddressed(session, d.toUserId) then [] else [AlertFor(d)])
  }

  /** Delivering drafts changes nothing but the notifications. */
  lemma {:induction false} DeliverAllFrame(s: State, ds: seq<Draft>, noteId: Id, now: int)
    ensures DeliverAll(s, ds, noteId, now).state == s.(notifications := DeliverAll(s, ds, noteId, now).state.notifications)
  {
    if ds != [] {
      DeliverAllFrame(s, ds[..|ds| - 1], noteId, now);
    }
  }

  /** The last draft's call runs on the state the earlier calls left. */
  lemma DeliverAllLast(s: State, ds: seq<Draft>, noteId: Id, now: int)
    requires ds != []
    ensures DeliverAll(s, ds, noteId, now).state.notifications ==
      DeliveredHead(DeliverAll(s, ds[..|ds| - 1], noteId, now).state.session, ds[|ds| - 1], noteId, now) +
      DeliverAll(s, ds[..|ds| - 1], noteId, now).state.notifications
  {
  }

  lemma {:induction false} DeliverAllNotifications(s: State, ds: seq<Draft>, noteId: Id, now: int)
    ensures DeliverAll(s, ds, noteId, now).state.notifications == Delivered(s.session, ds, noteId, now) + s.notifications
  {
    if ds != [] {
      var pre := ds[..|ds| - 1];
      DeliverAllNotifications(s, pre, noteId, now);
      DeliverAllFrame(s, pre, noteId, now);
      DeliverAllLast(s, ds, noteId, now);
      var head := DeliveredHead(s.session, ds[|ds| - 1], noteId, now);
      var older := Delivered(s.session, pre, noteId, now);
      assert head + (older + s.notifications) == (head + older) + s.notifications;
    }
  }

  lemma {:induction false} DeliverAllAlerts(s: State, ds: seq<Draft>, noteId: Id, now: int)
    ensures DeliverAll(s, ds, noteId, now).alerts == DeliveredAlerts(s.permitted, s.session, ds)
  {
    if ds != [] {
      var pre := ds[..|ds| - 1];
      DeliverAllAlerts(s, pre, noteId, now);
      DeliverAllFrame(s, pre, noteId, now);
    }
  }

  /** Delivering drafts one by one prepends exactly `Delivered` and raises exactly `DeliveredAlerts`; nothing else changes. */
  lemma DeliverAllExact(s: State, ds: seq<Draft>, noteId: Id, now: int)
    ensures DeliverAll(s, ds, noteId, now).state == s.(notifications := Delivered(s.session, ds, noteId, now) + s.notifications)
    ensures DeliverAll(s, ds, noteId, now).alerts == DeliveredAlerts(s.permitted, s.session, ds)
  {
    DeliverAllFrame(s, ds, noteId, now);
    DeliverAllNotifications(s, ds, noteId, now);
    DeliverAllAlerts(s, ds, noteId, now);
  }

  /** The notifications new since `s`: the first `|after| - |s.notifications|` entries of `after`. */
  ghost predicate OnlyPrepended(s: State, after: State, bound: nat)
  {
    && after == s.(notifications := after.notifications)
    && |s.notifications| <= |after.notifications| <= |s.notifications| + bound
    && after.notifications[|after.notifications| - |s.notifications|..] == s.notifications
    && forall i :: 0 <= i < |after.notifications| - |s.notifications| ==>
         !after.notifications[i].isRead && !SelfAddressed(s.session, after.notifications[i].toUserId)
  }

  /**
   * Delivering drafts only prepends notifications, at most one per draft, each unread and not
   * addressed to the session user; the old list survives as the tail and nothing else changes.
   */
  lemma DeliverAllPrepends(s: State, ds: seq<Draft>, noteId: Id, now: int)
    ensures OnlyPrepended(s, DeliverAll(s, ds, noteId, now).state, |ds|)
  {
    DeliverAllExact(s, ds, noteId, now);
    var fresh_ := Delivered(s.session, ds, noteId, now);
    var after := DeliverAll(s, ds, noteId, now).state;
    assert after.notifications[|fresh_|..] == s.notifications;
    forall i | 0 <= i < |after.notifications| - |s.notifications|
      ensures !after.notifications[i].isRead && !SelfAddressed(s.session, after.notifications[i].toUserId)
    {
      assert after.notifications[i] == fresh_[i];
    }
  }

  /** Replacing the posts and then delivering drafts: the posts are the new ones and only notifications are prepended. */
  lemma DeliverAllAfterPosts(s: State, posts: seq<Post>, ds: seq<Draft>, noteId: Id, now: int)
    ensures var r := DeliverAll(s.(posts := posts), ds, noteId, now).state;
      r.(posts := s.posts, notifications := s.notifications) == s && r.posts == posts &&
      (forall i :: 0 <= i < |r.notifications| - |s.notifications| ==>
        !r.notifications[i].isRead && !SelfAddressed(s.session, r.notifications[i].toUserId)) &&
      |s.notifications| <= |r.notifications| && r.notifications[|r.notifications| - |s.notifications|..] == s.notifications
  {
    var t := s.(posts := posts);
    DeliverAllExact(t, ds, noteId, now);
    var fresh_ := Delivered(s.session, ds, noteId, now);
    var r := DeliverAll(t, ds, noteId, now).state;
    assert r == s.(posts := posts, notifications := fresh_ + s.notifications);
    assert r.notifications[|fresh_|..] == s.notifications;
    forall i | 0 <= i < |r.notifications| - |s.notifications|
      ensures !r.notifications[i].isRead && !SelfAddressed(s.session, r.notifications[i].toUserId)
    {
      assert r.notifications[i] == fresh_[i];
    }
  }

  /** One more draft is one more `createNotification` call after the others. */
  lemma DeliverAllSnoc(s: State, ds: seq<Draft>, d: Draft, noteId: Id, now: int)
    ensures var prev := DeliverAll(s, ds, noteId, now);
      var last := Deliver(prev.state, d, noteId, now);
      DeliverAll(s, ds + [d], noteId, now) == Outcome(last.state, prev.alerts + last.alerts)
  {
    assert (ds + [d])[..|ds|] == ds;
  }

  /** Drafts that are all addressed to the session user create nothing and raise nothing. */
  lemma {:induction false} DeliverAllSelfAddressed(s: State, ds: seq<Draft>, noteId: Id, now: int)
    requires forall i :: 0 <= i < |ds| ==> SelfAddressed(s.session, ds[i].toUserId)
    ensures DeliverAll(s, ds, noteId, now) == Outcome(s, [])
  {
    if ds != [] {
      DeliverAllSelfAddressed(s, ds[..|ds| - 1], noteId, now);
    }
  }

  /** `markNotificationsAsRead`: every stored notification, whoever it is for. */
  function MarkAllRead(notes: seq<Notification>): (r: seq<Notification>)
    ensures |r| == |notes|
    ensures forall i :: 0 <= i < |r| ==> r[i].isRead && r[i].(isRead := notes[i].isRead) == notes[i]
  {
    Map(notes, (n: Notification) => n.(isRead := true))
  }

  lemma MarkAllReadIdempotent(notes: seq<Notification>)
    ensures MarkAllRead(MarkAllRead(notes)) == MarkAllRead(notes)
  {
    var once := MarkAllRead(notes);
    var twice := MarkAllRead(once);
    forall i | 0 <= i < |notes| ensures twice[i] == once[i] {
      assert twice[i] == once[i].(isRead := true);
    }
  }

  /** `activeChatRecipientId === data?.senderId`: null never equals an absent sender. */
  predicate ChatSuppressed(s: State, targetId: Id, senderId: Option<Id>)
  {
    s.session.Some? && targetId == s.session.value.id &&
    s.activeChatRecipientId.Some? && senderId.Some? && s.activeChatRecipientId.value == senderId.value
  }

  /** `sendPushNotification`: the alerts it raises. */
  function PushAlerts(s: State, targetId: Id, title: string, body: string, icon: Option<string>, senderId: Option<Id>): (r: seq<Alert>)
    ensures FindUser(s.users, targetId).None? ==> r == []
    ensures r != [] <==> FindUser(s.users, targetId).Some? && !ChatSuppressed(s, targetId, senderId) && s.permitted
    ensures r != [] ==> r == [LocalAlert(title, body, icon)]
  {
    if FindUser(s.users, targetId).None? then []
    else if ChatSuppressed(s, targetId, senderId) then []
    else Raise(s, LocalAlert(title, body, icon))
  }

  /** An alert for anyone other than the session user is never suppressed. */
  lemma PushToOthersNotSuppressed(s: State, targetId: Id, title: string, body: string, icon: Option<string>, senderId: Option<Id>)
    requires s.session.None? || s.session.value.id != targetId
    requires FindUser(s.users, targetId).Some? && s.permitted
    ensures PushAlerts(s, targetId, title, body, icon, senderId) == [LocalAlert(title, body, icon)]
  {
  }

  // ---------------------------------------------------------------------------------------------
  // Follow

  /** `toggleFollow(target)`. */
  function FollowStep(s: State, target: Id, noteId: Id, now: int): (r: Outcome)
    ensures s.session.None? || s.session.value.id == target ==> r == Outcome(s, [])
    ensures r.state.(users := s.users, session := s.session, notifications := s.notifications) == s
    ensures s.session.Some? && s.session.value.id != target && target in FollowingOf(s.session.value) ==>
      r.state.notifications == s.notifications && r.alerts == []
    ensures s.session.Some? && s.session.value.id != target && target !in FollowingOf(s.session.value) ==>
      |r.state.notifications| == |s.notifications| + 1 && r.state.notifications[1..] == s.notifications &&
      r.state.notifications[0].kind == FollowKind && r.state.notifications[0].toUserId == target &&
      r.state.notifications[0].fromUserId == s.session.value.id && !r.state.notifications[0].isRead
  {
    if s.session.None? || s.session.value.id == target then Outcome(s, [])
    else
      var me := s.session.value;
      var was := target in FollowingOf(me);
      var users := ApplyFollow(s.users, me.id, target, was);
      // the notification is checked against the session as it was when the call began
      var o := if was then Outcome(s.(users := users), []) else Deliver(s.(users := users), FollowDraft(me, target), noteId, now);
      Outcome(o.state.(session := FindUser(users, me.id)), o.alerts)
  }

  /** `me?.following?.includes(id)`: the session user's copy lists `id` as followed. */
  predicate SessionFollows(session: Option<User>, id: Id)
  {
    session.Some? && id in FollowingOf(session.value)
  }

  /** For a session copy that matches the store, each toggle flips whether the session follows the target. */
  lemma FollowStepFlipsFollowing(s: State, target: Id, noteId: Id, now: int)
    requires s.session.Some? && s.session.value.id != target
    requires FindUser(s.users, s.session.value.id) == s.session
    ensures SessionFollows(FollowStep(s, target, noteId, now).state.session, target) <==> !SessionFollows(s.session, target)
  {
    var me := s.session.value;
    var was := target in FollowingOf(me);
    FindUserMapped(s.users, (u: User) => FollowRecord(u, me.id, target, was), me.id);
    assert FollowStep(s, target, noteId, now).state.session == Some(FollowRecord(me, me.id, target, was));
  }

  /** Follow and unfollow keep the follow graph two-sided. */
  lemma FollowStepKeepsMutual(s: State, target: Id, noteId: Id, now: int)
    requires MutualFollows(s.users)
    ensures MutualFollows(FollowStep(s, target, noteId, now).state.users)
  {
    if s.session.Some? && s.session.value.id != target {
      FollowKeepsMutual(s.users, s.session.value.id, target, target in FollowingOf(s.session.value));
    }
  }

  /** Following and then unfollowing restores the records of both sides, when their lists are present. */
  lemma FollowUnfollowRestores(users: seq<User>, me: Id, target: Id)
    requires me != target
    requires forall i :: 0 <= i < |users| && users[i].id == me ==> users[i].following.Some? && target !in FollowingOf(users[i])
    requires forall i :: 0 <= i < |users| && users[i].id == target ==> users[i].followers.Some? && me !in FollowersOf(users[i])
    ensures ApplyFollow(ApplyFollow(users, me, target, false), me, target, true) == users
  {
    var once := ApplyFollow(users, me, target, false);
    var twice := ApplyFollow(once, me, target, true);
    forall i | 0 <= i < |users| ensures twice[i] == users[i] {
      var u := users[i];
      assert once[i] == FollowRecord(u, me, target, false);
      assert twice[i] == FollowRecord(once[i], me, target, true);
      if u.id == me {
        WithoutUndoesAppend(FollowingOf(u), target);
      } else if u.id == target {
        WithoutUndoesAppend(FollowersOf(u), me);
      }
    }
  }

  /** A follow by a session user whose copy matches the store: the session becomes the updated record. */
  lemma FollowStepStarts(s: State, target: Id, noteId: Id, now: int)
    requires s.session.Some? && s.session.value.id != target
    requires FindUser(s.users, s.session.value.id) == s.session
    requires target !in FollowingOf(s.session.value)
    ensures var me := s.session.value; var users := ApplyFollow(s.users, me.id, target, false);
      FollowStep(s, target, noteId, now).state ==
        s.(users := users, session := FindUser(users, me.id),
           notifications := [Created(FollowDraft(me, target), noteId, now)] + s.notifications) &&
      FindUser(users, me.id) == Some(FollowRecord(me, me.id, target, false))
  {
    var me := s.session.value;
    FindUserMapped(s.users, (u: User) => FollowRecord(u, me.id, target, false), me.id);
  }

  /** An unfollow by a session user whose copy matches the store. */
  lemma FollowStepStops(s: State, target: Id, noteId: Id, now: int)
    requires s.session.Some? && s.session.value.id != target
    requires target in FollowingOf(s.session.value)
    ensures var me := s.session.value; var users := ApplyFollow(s.users, me.id, target, true);
      FollowStep(s, target, noteId, now).state == s.(users := users, session := FindUser(users, me.id))
  {
  }

  /**
   * With the session copy equal to the stored record and the two lists present, a follow followed
   * by an unfollow restores every user record and the session; one follow notification remains.
   */
  lemma FollowTwiceRestores(s: State, target: Id, id1: Id, now1: int, id2: Id, now2: int)
    requires s.session.Some? && s.session.value.id != target
    requires FindUser(s.users, s.session.value.id) == s.session
    requires forall i :: 0 <= i < |s.users| && s.users[i].id == s.session.value.id ==>
      s.users[i].following.Some? && target !in FollowingOf(s.users[i])
    requires forall i :: 0 <= i < |s.users| && s.users[i].id == target ==>
      s.users[i].followers.Some? && s.session.value.id !in FollowersOf(s.users[i])
    ensures var s2 := FollowStep(FollowStep(s, target, id1, now1).state, target, id2, now2).state;
      s2.users == s.users && s2.session == s.session &&
      s2.notifications == [Created(FollowDraft(s.session.value, target), id1, now1)] + s.notifications
  {
    var me := s.session.value;
    assert target !in FollowingOf(me);
    FollowStepStarts(s, target, id1, now1);
    var users1 := ApplyFollow(s.users, me.id, target, false);
    var s1 := FollowStep(s, target, id1, now1).state;
    assert s1.session == Some(FollowRecord(me, me.id, target, false));
    FollowStepStops(s1, target, id2, now2);
    FollowUnfollowRestores(s.users, me.id, target);
  }

  // ---------------------------------------------------------------------------------------------
  // Likes

  /** The per-post callback of `toggleLike`: `likes` is recomputed from the new `likedBy`. */
  function LikeToggled(p: Post, me: Id): Post
  {
    var likedBy := Toggled(p.likedBy, me, me in p.likedBy);
    p.(likedBy := likedBy, likes := |likedBy|)
  }

  function ApplyLike(posts: seq<Post>, postId: Id, me: Id): (r: seq<Post>)
    ensures |r| == |posts|
    ensures forall i :: 0 <= i < |posts| && posts[i].id == postId ==>
      r[i].(likedBy := posts[i].likedBy, likes := posts[i].likes) == posts[i] &&
      r[i].likes == |r[i].likedBy| && (me in r[i].likedBy <==> me !in posts[i].likedBy)
    ensures forall i :: 0 <= i < |posts| && posts[i].id != postId ==> r[i] == posts[i]
    ensures LikesConsistent(posts) ==> LikesConsistent(r)
  {
    Map(posts, (p: Post) => if p.id == postId then LikeToggled(p, me) else p)
  }

  /** Every post's `likes` equals the length of its `likedBy`. */
  ghost predicate LikesConsistent(posts: seq<Post>)
  {
    forall i :: 0 <= i < |posts| ==> posts[i].likes == |posts[i].likedBy|
  }

  /** A like then an unlike by someone who had not liked restores the posts exactly. */
  lemma LikeTwiceRestores(posts: seq<Post>, postId: Id, me: Id)
    requires LikesConsistent(posts)
    requires forall i :: 0 <= i < |posts| && posts[i].id == postId ==> me !in posts[i].likedBy
    ensures ApplyLike(ApplyLike(posts, postId, me), postId, me) == posts
  {
    var once := ApplyLike(posts, postId, me);
    var twice := ApplyLike(once, postId, me);
    forall i | 0 <= i < |posts| ensures twice[i] == posts[i] {
      if posts[i].id == postId {
        assert once[i] == LikeToggled(posts[i], me);
        WithoutUndoesAppend(posts[i].likedBy, me);
      }
    }
  }

  /** The matching posts the actor had not liked: each gets one like notification, in list order. */
  function NewlyLiked(posts: seq<Post>, postId: Id, me: Id): seq<Post>
  {
    Filter(posts, (p: Post) => p.id == postId && me !in p.likedBy)
  }

  function LikeDrafts(posts: seq<Post>, postId: Id, me: User): seq<Draft>
  {
    Map(NewlyLiked(posts, postId, me.id), (p: Post) => PostDraft(me, p, LikeKind))
  }

  /** `toggleLike(postId)`. */
  function LikeStep(s: State, postId: Id, noteId: Id, now: int): (r: Outcome)
    ensures s.session.None? ==> r == Outcome(s, [])
    ensures r.state.(posts := s.posts, notifications := s.notifications) == s
    ensures s.session.Some? ==> r.state.posts == ApplyLike(s.posts, postId, s.session.value.id)
    ensures forall i :: 0 <= i < |r.state.notifications| - |s.notifications| ==>
      !r.state.notifications[i].isRead && !SelfAddressed(s.session, r.state.notifications[i].toUserId)
    ensures |s.notifications| <= |r.state.notifications| &&
      r.state.notifications[|r.state.notifications| - |s.notifications|..] == s.notifications
  {
    if s.session.None? then Outcome(s, [])
    else
      var me := s.session.value;
      var liked := ApplyLike(s.posts, postId, me.id);
      var ds := LikeDrafts(s.posts, postId, me);
      DeliverAllAfterPosts(s, liked, ds, noteId, now);
      DeliverAll(s.(posts := liked), ds, noteId, now)
  }

  /** Liking one's own post creates no notification and raises no alert. */
  lemma LikeOwnPostSilent(s: State, postId: Id, noteId: Id, now: int)
    requires s.session.Some?
    requires forall j :: 0 <= j < |s.posts| && s.posts[j].id == postId ==> s.posts[j].user.id == s.session.value.id
    ensures LikeStep(s, postId, noteId, now).state.notifications == s.notifications
    ensures LikeStep(s, postId, noteId, now).alerts == []
  {
    var me := s.session.value;
    var ds := LikeDrafts(s.posts, postId, me);
    var targets := NewlyLiked(s.posts, postId, me.id);
    forall i | 0 <= i < |ds| ensures SelfAddressed(s.session, ds[i].toUserId) {
      assert ds[i] == PostDraft(me, targets[i], LikeKind);
      assert targets[i] in s.posts && targets[i].id == postId;
    }
    DeliverAllSelfAddressed(s.(posts := ApplyLike(s.posts, postId, me.id)), ds, noteId, now);
  }

  /** A single draft is delivered as one notification and one alert, unless it is self-addressed. */
  lemma DeliverOne(s: State, d: Draft, noteId: Id, now: int)
    requires !SelfAddressed(s.session, d.toUserId)
    ensures DeliverAll(s, [d], noteId, now) == Outcome(s.(notifications := [Created(d, noteId, now)] + s.notifications), Raise(s, AlertFor(d)))
  {
    assert [d][..0] == [];
  }

  /** Liking someone else's post, not liked before, notifies its owner with exactly one like notification and alert. */
  lemma LikeNotifiesOwner(s: State, postId: Id, k: nat, noteId: Id, now: int)
    requires s.session.Some? && k < |s.posts| && s.posts[k].id == postId
    requires forall j :: 0 <= j < |s.posts| && j != k ==> s.posts[j].id != postId
    requires s.posts[k].user.id != s.session.value.id && s.session.value.id !in s.posts[k].likedBy
    ensures var r := LikeStep(s, postId, noteId, now);
      var d := PostDraft(s.session.value, s.posts[k], LikeKind);
      d.toUserId == s.posts[k].user.id && d.kind == LikeKind &&
      r.state.notifications == [Created(d, noteId, now)] + s.notifications && r.alerts == Raise(s, AlertFor(d))
  {
    var me := s.session.value;
    var d := PostDraft(me, s.posts[k], LikeKind);
    FilterSingle(s.posts, (p: Post) => p.id == postId && me.id !in p.likedBy, k);
    assert LikeDrafts(s.posts, postId, me) == [d];
    DeliverOne(s.(posts := ApplyLike(s.posts, postId, me.id)), d, noteId, now);
  }

  /** Unliking notifies no one: when the actor already likes every matching post, nothing is created or raised. */
  lemma UnlikeSilent(s: State, postId: Id, noteId: Id, now: int)
    requires s.session.Some?
    requires forall j :: 0 <= j < |s.posts| && s.posts[j].id == postId ==> s.session.value.id in s.posts[j].likedBy
    ensures LikeStep(s, postId, noteId, now).state.notifications == s.notifications
    ensures LikeStep(s, postId, noteId, now).alerts == []
  {
    var me := s.session.value;
    FilterNone(s.posts, (p: Post) => p.id == postId && me.id !in p.likedBy);
    assert LikeDrafts(s.posts, postId, me) == [];
  }

  /** A like then an unlike, with nothing in between, restores the stored posts. */
  lemma LikeStepTwiceRestores(s: State, postId: Id, id1: Id, now1: int, id2: Id, now2: int)
    requires s.session.Some? && LikesConsistent(s.posts)
    requires forall i :: 0 <= i < |s.posts| && s.posts[i].id == postId ==> s.session.value.id !in s.posts[i].likedBy
    ensures LikeStep(LikeStep(s, postId, id1, now1).state, postId, id2, now2).state.posts == s.posts
  {
    LikeTwiceRestores(s.posts, postId, s.session.value.id);
  }

  // ---------------------------------------------------------------------------------------------
  // Comments and views

  function NewComment(postId: Id, me: User, text: string, now: nat): Comment
  {
    Comment(NatToString(now), postId, me, text, "Just now")
  }

  /** Every post with that id gets `c` appended to its comments. */
  function Commented(posts: seq<Post>, postId: Id, c: Comment): (r: seq<Post>)
    ensures |r| == |posts|
    ensures forall i :: 0 <= i < |posts| && posts[i].id == postId ==>
      r[i].(comments := posts[i].comments) == posts[i] &&
      |r[i].comments| == |posts[i].comments| + 1 &&
      r[i].comments[..|posts[i].comments|] == posts[i].comments && r[i].comments[|posts[i].comments|] == c
    ensures forall i :: 0 <= i < |posts| && posts[i].id != postId ==> r[i] == posts[i]
    ensures LikesConsistent(posts) ==> LikesConsistent(r)
  {
    Map(posts, (p: Post) => if p.id == postId then p.(comments := p.comments + [c]) else p)
  }

  /** One comment notification per matching post, in list order. */
  function CommentDrafts(posts: seq<Post>, postId: Id, me: User): seq<Draft>
  {
    Map(Filter(posts, (p: Post) => p.id == postId), (p: Post) => PostDraft(me, p, CommentKind))
  }

  /** `addComment(postId, text)`: the text is kept as typed; only its blankness is tested. */
  function CommentStep(s: State, postId: Id, text: string, noteId: Id, now: nat): (r: Outcome)
    ensures s.session.None? || IsBlank(text) ==> r == Outcome(s, [])
    ensures r.state.(posts := s.posts, notifications := s.notifications) == s
    ensures s.session.Some? && !IsBlank(text) ==>
      r.state.posts == Commented(s.posts, postId, NewComment(postId, s.session.value, text, now))
    ensures forall i :: 0 <= i < |r.state.notifications| - |s.notifications| ==>
      !r.state.notifications[i].isRead && !SelfAddressed(s.session, r.state.notifications[i].toUserId)
    ensures |s.notifications| <= |r.state.notifications| &&
      r.state.notifications[|r.state.notifications| - |s.notifications|..] == s.notifications
  {
    if s.session.None? || IsBlank(text) then Outcome(s, [])
    else
      var me := s.session.value;
      var commented := Commented(s.posts, postId, NewComment(postId, me, text, now));
      var ds := CommentDrafts(s.posts, postId, me);
      DeliverAllAfterPosts(s, commented, ds, noteId, now);
      DeliverAll(s.(posts := commented), ds, noteId, now)
  }

  /** Commenting on one's own post creates no notification. */
  lemma CommentOwnPostSilent(s: State, postId: Id, text: string, noteId: Id, now: nat)
    requires s.session.Some?
    requires forall j :: 0 <= j < |s.posts| && s.posts[j].id == postId ==> s.posts[j].user.id == s.session.value.id
    ensures CommentStep(s, postId, text, noteId, now).state.notifications == s.notifications
    ensures CommentStep(s, postId, text, noteId, now).alerts == []
  {
    if !IsBlank(text) {
      var me := s.session.value;
      var ds := CommentDrafts(s.posts, postId, me);
      var targets := Filter(s.posts, (p: Post) => p.id == postId);
      forall i | 0 <= i < |ds| ensures SelfAddressed(s.session, ds[i].toUserId) {
        assert ds[i] == PostDraft(me, targets[i], CommentKind);
        assert targets[i] in s.posts && targets[i].id == postId;
      }
      DeliverAllSelfAddressed(s.(posts := Commented(s.posts, postId, NewComment(postId, me, text, now))), ds, noteId, now);
    }
  }

  /** A comment on someone else's post notifies its owner with exactly one comment notification and alert. */
  lemma CommentNotifiesOwner(s: State, postId: Id, text: string, k: nat, noteId: Id, now: nat)
    requires s.session.Some? && !IsBlank(text) && k < |s.posts| && s.posts[k].id == postId
    requires forall j :: 0 <= j < |s.posts| && j != k ==> s.posts[j].id != postId
    requires s.posts[k].user.id != s.session.value.id
    ensures var r := CommentStep(s, postId, text, noteId, now);
      var d := PostDraft(s.session.value, s.posts[k], CommentKind);
      d.toUserId == s.posts[k].user.id && d.kind == CommentKind &&
      r.state.notifications == [Created(d, noteId, now)] + s.notifications && r.alerts == Raise(s, AlertFor(d))
  {
    var me := s.session.value;
    var d := PostDraft(me, s.posts[k], CommentKind);
    FilterSingle(s.posts, (p: Post) => p.id == postId, k);
    assert CommentDrafts(s.posts, postId, me) == [d];
    DeliverOne(s.(posts := Commented(s.posts, postId, NewComment(postId, me, text, now))), d, noteId, now);
  }

  /** `recordView(postId)`: no session is needed. */
  function ViewStep(posts: seq<Post>, postId: Id): (r: seq<Post>)
    ensures |r| == |posts|
    ensures forall i :: 0 <= i < |posts| && posts[i].id == postId ==>
      r[i].(views := posts[i].views) == posts[i] && r[i].views == Some(posts[i].views.GetOr(0) + 1)
    ensures forall i :: 0 <= i < |posts| && posts[i].id != postId ==> r[i] == posts[i]
    ensures LikesConsistent(posts) ==> LikesConsistent(r)
  {
    Map(posts, (p: Post) => if p.id == postId then p.(views := Some(p.views.GetOr(0) + 1)) else p)
  }

  // ---------------------------------------------------------------------------------------------
  // Posts and videos

  function NewPost(me: User, content: string, imageUrl: Option<string>, now: nat): (p: Post)
    ensures p.likes == |p.likedBy| == 0 && p.comments == []
  {
    Post(NatToString(now), me, "Just now", content, imageUrl, 0, [], [], 0, Some(0), Some(now))
  }

  /** `createPost(content, imageUrl)`: appended to the stored list; content is not checked. */
  function PostStep(s: State, content: string, imageUrl: Option<string>, now: nat): (r: State)
    ensures s.session.None? ==> r == s
    ensures r.(posts := s.posts) == s
    ensures s.session.Some? ==> r.posts == s.posts + [NewPost(s.session.value, content, imageUrl, now)]
    ensures LikesConsistent(s.posts) ==> LikesConsistent(r.posts)
  {
    if s.session.None? then s
    else s.(posts := s.posts + [NewPost(s.session.value, content, imageUrl, now)])
  }

  /** A post strictly later than every other post heads the feed. */
  lemma LatestHeadsFeed(all: seq<Post>, p: Post)
    requires p in all
    requires forall i :: 0 <= i < |all| && all[i] != p ==> FeedKey(all[i]) < FeedKey(p)
    ensures Feed(all) != [] && Feed(all)[0] == p
  {
    var feed := Feed(all);
    assert p in multiset(feed);
    var j :| 0 <= j < |feed| && feed[j] == p;
    assert FeedKey(feed[0]) >= FeedKey(p);
    assert feed[0] in multiset(all);
    var k :| 0 <= k < |all| && all[k] == feed[0];
  }

  /** A post created later than every stored post heads the feed. */
  lemma CreatedPostLeadsFeed(s: State, content: string, imageUrl: Option<string>, now: nat)
    requires s.session.Some?
    requires forall i :: 0 <= i < |s.posts| ==> FeedKey(s.posts[i]) < now
    ensures var feed := Feed(PostStep(s, content, imageUrl, now).posts);
      feed != [] && feed[0] == NewPost(s.session.value, content, imageUrl, now)
  {
    var p := NewPost(s.session.value, content, imageUrl, now);
    var all := s.posts + [p];
    assert all[|s.posts|] == p;
    forall i | 0 <= i < |all| && all[i] != p ensures FeedKey(all[i]) < FeedKey(p) {
      assert all[i] == s.posts[i];
    }
    LatestHeadsFeed(all, p);
  }

  /** The fields of a new video that the upload form supplies. */
  datatype VideoDraft = VideoDraft(title: string, videoUrl: string, thumbnailUrl: string, description: string)

  function NewVideo(d: VideoDraft, author: User, now: nat): (v: Video)
    ensures v.title == d.title && v.videoUrl == d.videoUrl && v.thumbnailUrl == d.thumbnailUrl
    ensures v.author == author && v.views == "0" && v.id == "vid_" + NatToString(now)
  {
    Video("vid_" + NatToString(now), d.title, d.videoUrl, d.thumbnailUrl, author, "0", "Just now", d.description)
  }

  /** `createVideo(data)`: prepended, authored by the session user. */
  function VideoStep(s: State, d: VideoDraft, now: nat): (r: State)
    ensures s.session.None? ==> r == s
    ensures r.(videos := s.videos) == s
    ensures s.session.Some? ==> r.videos == [NewVideo(d, s.session.value, now)] + s.videos
    ensures s.session.Some? ==>
      r.videos[0].title == d.title && r.videos[0].videoUrl == d.videoUrl && r.videos[0].author == s.session.value
  {
    if s.session.None? then s
    else s.(videos := [NewVideo(d, s.session.value, now)] + s.videos)
  }

  // ---------------------------------------------------------------------------------------------
  // Sign-up, login and profile

  /** `u.email.toLowerCase() === email.toLowerCase()` for a record that has an e-mail. */
  predicate SameEmail(u: User, email: string)
  {
    u.email.Some? && Lower(u.email.value) == Lower(email)
  }

  /** How a front-to-back scan comparing e-mails ends: a match, no match, or a record without e-mail. */
  datatype EmailScan = Match(index: nat) | NoMatch | Broken(index: nat)

  /** The scan `find` and `some` perform; a record without an e-mail stops it with an error. */
  function ScanEmails(users: seq<User>, email: string): (r: EmailScan)
    ensures r.Match? ==> r.index < |users| && SameEmail(users[r.index], email)
    ensures r.Broken? ==> r.index < |users| && users[r.index].email.None?
    ensures !r.NoMatch? ==> forall j :: 0 <= j < r.index ==> users[j].email.Some? && !SameEmail(users[j], email)
    ensures r.NoMatch? <==> forall j :: 0 <= j < |users| ==> users[j].email.Some? && !SameEmail(users[j], email)
  {
    if users == [] then NoMatch
    else if users[0].email.None? then Broken(0)
    else if SameEmail(users[0], email) then Match(0)
    else match ScanEmails(users[1..], email)
      case NoMatch => NoMatch
      case Match(k) => Match(k + 1)
      case Broken(k) => Broken(k + 1)
  }

  /** `login(email, pass)`; the login form refuses empty fields before calling it. */
  function LoginResult(users: seq<User>, email: string, pass: string): (r: Result<User, AuthError>)
    requires email != [] && pass != []
    ensures r.Success? ==> r.value in users && SameEmail(r.value, email) && r.value.password == Some(pass)
    ensures r.Failure? && r.error == RecordWithoutEmail ==> ScanEmails(users, email).Broken?
    ensures ScanEmails(users, email).NoMatch? ==> r == Failure(InvalidCredentials)
    ensures ScanEmails(users, email).Broken? ==> r == Failure(RecordWithoutEmail)
    ensures ScanEmails(users, email).Match? ==>
      var found := users[ScanEmails(users, email).index];
      r == if found.password == Some(pass) then Success(found) else Failure(InvalidCredentials)
  {
    match ScanEmails(users, email)
    case Broken(_) => Failure(RecordWithoutEmail)
    case NoMatch => Failure(InvalidCredentials)
    case Match(k) => if users[k].password == Some(pass) then Success(users[k]) else Failure(InvalidCredentials)
  }

  function LoginStep(s: State, email: string, pass: string): (r: State)
    requires email != [] && pass != []
    ensures r.(session := s.session) == s
    ensures LoginResult(s.users, email, pass).Success? ==> r.session == Some(LoginResult(s.users, email, pass).value)
    ensures LoginResult(s.users, email, pass).Failure? ==> r == s
  {
    match LoginResult(s.users, email, pass)
    case Success(u) => s.(session := Some(u))
    case Failure(_) => s
  }

  /** The avatar URL a new account gets. */
  function AvatarUrl(name: string): string
  {
    "https://ui-avatars.com/api/?name=" + EncodeURIComponent(name) + "&background=312E81&color=fff&size=256"
  }

  /** The record `signUp` creates; `idSuffix` and `tokenSuffix` stand for the random parts. */
  function NewAccount(name: string, email: string, pass: string, idSuffix: string, tokenSuffix: string): (u: User)
    ensures u.followers == Some([]) && u.following == Some([])
    ensures u.email == Some(email) && u.password == Some(pass)
  {
    User("u_" + idSuffix, name, AvatarUrl(name), None, None, Some([]), Some([]), Some("fcm_" + tokenSuffix), Some(email), Some(pass))
  }

  /** `signUp(name, email, pass)`; the sign-up form refuses passwords shorter than six characters. */
  function SignUpResult(users: seq<User>, name: string, email: string, pass: string, idSuffix: string, tokenSuffix: string): (r: Result<User, AuthError>)
    requires |pass| >= 6
    ensures r.Failure? && r.error == DuplicateEmail <==> ScanEmails(users, email).Match?
    ensures r.Success? <==> forall j :: 0 <= j < |users| ==> users[j].email.Some? && !SameEmail(users[j], email)
    ensures r.Success? ==> r.value == NewAccount(name, email, pass, idSuffix, tokenSuffix)
  {
    match ScanEmails(users, email)
    case Match(_) => Failure(DuplicateEmail)
    case Broken(_) => Failure(RecordWithoutEmail)
    case NoMatch => Success(NewAccount(name, email, pass, idSuffix, tokenSuffix))
  }

  function SignUpStep(s: State, name: string, email: string, pass: string, idSuffix: string, tokenSuffix: string): (r: State)
    requires |pass| >= 6
    ensures r.(users := s.users, session := s.session) == s
    ensures SignUpResult(s.users, name, email, pass, idSuffix, tokenSuffix).Failure? ==> r == s
    ensures SignUpResult(s.users, name, email, pass, idSuffix, tokenSuffix).Success? ==>
      var u := NewAccount(name, email, pass, idSuffix, tokenSuffix); r.users == s.users + [u] && r.session == Some(u)
  {
    match SignUpResult(s.users, name, email, pass, idSuffix, tokenSuffix)
    case Success(u) => s.(users := s.users + [u], session := Some(u))
    case Failure(_) => s
  }

  /** After a successful sign-up, logging in with the same e-mail in any ASCII case and the same password finds the new account. */
  lemma SignUpThenLogin(s: State, name: string, email: string, pass: string, idSuffix: string, tokenSuffix: string, typed: string)
    requires |pass| >= 6 && typed != []
    requires Lower(typed) == Lower(email)
    requires SignUpResult(s.users, name, email, pass, idSuffix, tokenSuffix).Success?
    ensures var s1 := SignUpStep(s, name, email, pass, idSuffix, tokenSuffix);
      LoginResult(s1.users, typed, pass) == Success(NewAccount(name, email, pass, idSuffix, tokenSuffix))
  {
    var s1 := SignUpStep(s, name, email, pass, idSuffix, tokenSuffix);
    var u := NewAccount(name, email, pass, idSuffix, tokenSuffix);
    assert s1.users == s.users + [u];
    var scan := ScanEmails(s1.users, typed);
    assert forall j :: 0 <= j < |s.users| ==> s1.users[j] == s.users[j];
    assert SameEmail(s1.users[|s.users|], typed);
    assert scan.Match? && scan.index == |s.users|;
  }

  /** A second sign-up with the same e-mail, in any ASCII case, is refused. */
  lemma SignUpTwiceRefused(s: State, name: string, email: string, pass: string, idSuffix: string, tokenSuffix: string,
                           name2: string, email2: string, pass2: string, idSuffix2: string, tokenSuffix2: string)
    requires |pass| >= 6 && |pass2| >= 6
    requires Lower(email2) == Lower(email)
    requires SignUpResult(s.users, name, email, pass, idSuffix, tokenSuffix).Success?
    ensures var s1 := SignUpStep(s, name, email, pass, idSuffix, tokenSuffix);
      SignUpResult(s1.users, name2, email2, pass2, idSuffix2, tokenSuffix2) == Failure(DuplicateEmail)
  {
    var s1 := SignUpStep(s, name, email, pass, idSuffix, tokenSuffix);
    assert SameEmail(s1.users[|s.users|], email2);
  }

  /** `Partial<User>` as the profile editor sends it; `None` is an absent key. */
  datatype ProfileUpdate = ProfileUpdate(name: Option<string>, bio: Option<string>, city: Option<string>, profilePic: Option<string>)

  /** `{...u, ...updates}` */
  function Merge(u: User, upd: ProfileUpdate): (r: User)
    ensures r.(name := u.name, bio := u.bio, city := u.city, profilePic := u.profilePic) == u
    ensures r.name == upd.name.GetOr(u.name) && r.profilePic == upd.profilePic.GetOr(u.profilePic)
    ensures r.bio == (if upd.bio.Some? then upd.bio else u.bio) && r.city == (if upd.city.Some? then upd.city else u.city)
  {
    u.(name := upd.name.GetOr(u.name),
       bio := if upd.bio.Some? then upd.bio else u.bio,
       city := if upd.city.Some? then upd.city else u.city,
       profilePic := upd.profilePic.GetOr(u.profilePic))
  }

  /** What the profile editor sends: the three text fields, and the picked picture or the current one. */
  function EditedProfile(u: User, name: string, bio: string, city: string, picked: Option<string>): (r: ProfileUpdate)
    ensures picked.None? || picked.value == "" ==> r.profilePic == Some(u.profilePic)
    ensures picked.Some? && picked.value != "" ==> r.profilePic == picked
    ensures r.name == Some(name) && r.bio == Some(bio) && r.city == Some(city)
  {
    ProfileUpdate(Some(name), Some(bio), Some(city), if picked.Some? && picked.value != "" then picked else Some(u.profilePic))
  }

  /** `updateProfile(updates)`: the stored record and the session copy are each merged on their own. */
  function ProfileStep(s: State, upd: ProfileUpdate): (r: State)
    ensures s.session.None? ==> r == s
    ensures r.(users := s.users, session := s.session) == s
    ensures s.session.Some? ==> r.session == Some(Merge(s.session.value, upd)) && |r.users| == |s.users|
    ensures s.session.Some? ==> forall i :: 0 <= i < |s.users| ==>
      r.users[i] == if s.users[i].id == s.session.value.id then Merge(s.users[i], upd) else s.users[i]
  {
    if s.session.None? then s
    else
      var me := s.session.value;
      s.(users := Map(s.users, (u: User) => if u.id == me.id then Merge(u, upd) else u), session := Some(Merge(me, upd)))
  }

  /** A session copy that equals its stored record still equals it after a profile update. */
  lemma ProfileStepKeepsSessionInSync(s: State, upd: ProfileUpdate)
    requires s.session.Some? && FindUser(s.users, s.session.value.id) == s.session
    ensures var r := ProfileStep(s, upd); FindUser(r.users, s.session.value.id) == r.session
  {
    var me := s.session.value;
    FindUserMapped(s.users, (u: User) => if u.id == me.id then Merge(u, upd) else u, me.id);
  }

  // ---------------------------------------------------------------------------------------------
  // The store

  class Store {
    var users: seq<User>
    var posts: seq<Post>
    var videos: seq<Video>
    var notifications: seq<Notification>
    var messages: seq<Message>
    var rooms: seq<Room>
    var stories: seq<Story>
    var bookmarks: seq<Bookmark>
    var session: Option<User>
    var activeChatRecipientId: Option<Id>
    const permitted: bool

    function Snapshot(): State
      reads this
    {
      State(users, posts, videos, notifications, messages, rooms, stories, bookmarks, session, activeChatRecipientId, permitted)
    }

    /** `initAuth`: restore the session, then load the collections, seeding the video list. */
    constructor Restore(saved: Saved, alertsPermitted: bool)
      ensures Snapshot() == Boot(saved, alertsPermitted)
    {
      users := saved.users;
      posts := saved.posts;
      videos := saved.videos;
      notifications := saved.notifications;
      messages := saved.messages;
      rooms := saved.rooms;
      stories := saved.stories;
      bookmarks := saved.bookmarks;
      permitted := alertsPermitted;
      activeChatRecipientId := None;
      match saved.marker {
        case Decoded(u) => session := Some(u);
        case _ => session := None;
      }
      new;
      if videos == [] {
        videos := [SeedVideo];
      }
    }

    method CreateNotification(d: Draft, noteId: Id, now: int) returns (alerts: seq<Alert>)
      modifies this
      ensures Snapshot() == Deliver(old(Snapshot()), d, noteId, now).state
      ensures alerts == Deliver(old(Snapshot()), d, noteId, now).alerts
    {
      if SelfAddressed(session, d.toUserId) {
        return [];
      }
      notifications := [Created(d, noteId, now)] + notifications;
      alerts := if permitted then [AlertFor(d)] else [];
    }

    /** Calls `CreateNotification` once per draft. */
    method CreateNotifications(ds: seq<Draft>, noteId: Id, now: int) returns (alerts: seq<Alert>)
      modifies this
      ensures Snapshot() == DeliverAll(old(Snapshot()), ds, noteId, now).state
      ensures alerts == DeliverAll(old(Snapshot()), ds, noteId, now).alerts
    {
      ghost var start := Snapshot();
      alerts := [];
      var i := 0;
      while i < |ds|
        invariant 0 <= i <= |ds|
        invariant Snapshot() == DeliverAll(start, ds[..i], noteId, now).state
        invariant alerts == DeliverAll(start, ds[..i], noteId, now).alerts
      {
        DeliverAllSnoc(start, ds[..i], ds[i], noteId, now);
        assert ds[..i + 1] == ds[..i] + [ds[i]];
        var more := CreateNotification(ds[i], noteId, now);
        alerts := alerts + more;
        i := i + 1;
      }
      assert ds[..i] == ds;
    }

    method MarkNotificationsAsRead()
      modifies this
      ensures Snapshot() == old(Snapshot()).(notifications := MarkAllRead(old(notifications)))
    {
      notifications := MarkAllRead(notifications);
    }

    method ToggleFollow(target: Id, noteId: Id, now: int) returns (alerts: seq<Alert>)
      modifies this
      ensures Snapshot() == FollowStep(old(Snapshot()), target, noteId, now).state
      ensures alerts == FollowStep(old(Snapshot()), target, noteId, now).alerts
    {
      alerts := [];
      if session.None? || session.value.id == target {
        return;
      }
      var me := session.value;
      var was := target in FollowingOf(me);
      users := ApplyFollow(users, me.id, target, was);
      if !was {
        alerts := CreateNotification(FollowDraft(me, target), noteId, now);
      }
      session := FindUser(users, me.id);
    }

    method ToggleLike(postId: Id, noteId: Id, now: int) returns (alerts: seq<Alert>)
      modifies this
      ensures Snapshot() == LikeStep(old(Snapshot()), postId, noteId, now).state
      ensures alerts == LikeStep(old(Snapshot()), postId, noteId, now).alerts
    {
      alerts := [];
      if session.None? {
        return;
      }
      var me := session.value;
      var drafts := LikeDrafts(posts, postId, me);
      posts := ApplyLike(posts, postId, me.id);
      alerts := CreateNotifications(drafts, noteId, now);
    }

    method AddComment(postId: Id, text: string, noteId: Id, now: nat) returns (alerts: seq<Alert>)
      modifies this
      ensures Snapshot() == CommentStep(old(Snapshot()), postId, text, noteId, now).state
      ensures alerts == CommentStep(old(Snapshot()), postId, text, noteId, now).alerts
    {
      alerts := [];
      if session.None? || IsBlank(text) {
        return;
      }
      var me := session.value;
      var drafts := CommentDrafts(posts, postId, me);
      posts := Commented(posts, postId, NewComment(postId, me, text, now));
      alerts := CreateNotifications(drafts, noteId, now);
    }

    method RecordView(postId: Id)
      modifies this
      ensures Snapshot() == old(Snapshot()).(posts := ViewStep(old(posts), postId))
    {
      posts := ViewStep(posts, postId);
    }

    method CreatePost(content: string, imageUrl: Option<string>, now: nat)
      modifies this
      ensures Snapshot() == PostStep(old(Snapshot()), content, imageUrl, now)
    {
      if session.Some? {
        posts := posts + [NewPost(session.value, content, imageUrl, now)];
      }
    }

    method CreateVideo(d: VideoDraft, now: nat)
      modifies this
      ensures Snapshot() == VideoStep(old(Snapshot()), d, now)
    {
      if session.Some? {
        videos := [NewVideo(d, session.value, now)] + videos;
      }
    }

    method Login(email: string, pass: string) returns (r: Result<User, AuthError>)
      requires email != [] && pass != []
      modifies this
      ensures r == LoginResult(old(users), email, pass)
      ensures Snapshot() == LoginStep(old(Snapshot()), email, pass)
    {
      r := LoginResult(users, email, pass);
      if r.Success? {
        session := Some(r.value);
      }
    }

    method SignUp(name: string, email: string, pass: string, idSuffix: string, tokenSuffix: string) returns (r: Result<User, AuthError>)
      requires |pass| >= 6
      modifies this
      ensures r == SignUpResult(old(users), name, email, pass, idSuffix, tokenSuffix)
      ensures Snapshot() == SignUpStep(old(Snapshot()), name, email, pass, idSuffix, tokenSuffix)
    {
      r := SignUpResult(users, name, email, pass, idSuffix, tokenSuffix);
      if r.Success? {
        users := users + [r.value];
        session := Some(r.value);
      }
    }

    method Logout()
      modifies this
      ensures Snapshot() == old(Snapshot()).(session := None)
    {
      session := None;
    }

    method UpdateProfile(upd: ProfileUpdate)
      modifies this
      ensures Snapshot() == ProfileStep(old(Snapshot()), upd)
    {
      if session.None? {
        return;
      }
      var me := session.value;
      users := Map(users, (u: User) => if u.id == me.id then Merge(u, upd) else u);
      session := Some(Merge(me, upd));
    }

    method SetActiveChatRecipient(peer: Option<Id>)
      modifies this
      ensures Snapshot() == old(Snapshot()).(activeChatRecipientId := peer)
    {
      activeChatRecipientId := peer;
    }
  }
}
