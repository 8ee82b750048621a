/**
 * A profile page: whose profile it shows, that user's posts in feed order with the post count,
 * the follow button and its refresh of the shown record, and the grid tile of a post.
 */
module ProfilePage {
  import opened Wrappers
  import opened Types
  import opened Seqs
  import opened Sorting
  import opened Text
  import opened AuthContext

  /** `isOwnProfile`: no target (absent or empty) or the session user's own id. */
  predicate IsOwnProfile(target: Option<Id>, session: Option<User>)
  {
    target.None? || target.value == "" || (session.Some? && target.value == session.value.id)
  }

  /** `activeUser`: the session user on one's own profile, otherwise the stored record of the target. */
  function ActiveUser(target: Option<Id>, session: Option<User>, users: seq<User>): (r: Option<User>)
    ensures IsOwnProfile(target, session) ==> r == session
    ensures !IsOwnProfile(target, session) ==> (r.None? <==> forall i :: 0 <= i < |users| ==> users[i].id != target.value)
    ensures !IsOwnProfile(target, session) && r.Some? ==> r.value.id == target.value && r.value in users
  {
    if IsOwnProfile(target, session) then session else FindUser(users, target.value)
  }

  /** The user's posts, in the order of the list given. */
  function UserPosts(feed: seq<Post>, uid: Id): (r: seq<Post>)
    ensures forall i :: 0 <= i < |r| ==> r[i].user.id == uid && r[i] in feed
    ensures forall i :: 0 <= i < |feed| && feed[i].user.id == uid ==> feed[i] in r
  {
    Filter(feed, (p: Post) => p.user.id == uid)
  }

  /**
   * Over the feed the store publishes, the profile lists the user's posts newest first, and the
   * post count equals the number of stored posts by that user.
   */
  lemma ProfilePostsCorrect(posts: seq<Post>, uid: Id)
    ensures SortedDesc(UserPosts(Feed(posts), uid), FeedKey)
    ensures |UserPosts(Feed(posts), uid)| == |Filter(posts, (p: Post) => p.user.id == uid)|
    ensures forall p :: p in UserPosts(Feed(posts), uid) <==> p in posts && p.user.id == uid
  {
    var feed := Feed(posts);
    FilterSortedDesc(feed, (p: Post) => p.user.id == uid, FeedKey);
    FilterLengthPermutation(feed, posts, (p: Post) => p.user.id == uid);
    forall p ensures p in UserPosts(feed, uid) <==> p in posts && p.user.id == uid {
      assert p in feed <==> p in multiset(feed);
      assert p in posts <==> p in multiset(posts);
      if p in posts && p.user.id == uid {
        var i :| 0 <= i < |feed| && feed[i] == p;
      }
    }
  }

  /** The follower and following counts shown, a missing list counting as zero. */
  function FollowerCount(u: User): nat
  {
    |FollowersOf(u)|
  }

  function FollowingCount(u: User): nat
  {
    |FollowingOf(u)|
  }

  /** The follow button's caption on another user's profile. */
  function FollowButtonLabel(session: Option<User>, shownId: Id): (r: string)
    ensures r == "Following" <==> SessionFollows(session, shownId)
    ensures r == "Follow" <==> !SessionFollows(session, shownId)
  {
    if SessionFollows(session, shownId) then "Following" else "Follow"
  }

  /**
   * `handleFollowAction`: with no target nothing happens; otherwise the follow is toggled and the
   * shown record is looked up again.
   */
  method FollowAction(store: Store, target: Option<Id>, shown: Option<User>, noteId: Id, now: int) returns (nextShown: Option<User>, alerts: seq<Alert>)
    modifies store
    ensures target.None? || target.value == "" ==>
      nextShown == shown && alerts == [] && store.Snapshot() == old(store.Snapshot())
    ensures target.Some? && target.value != "" ==>
      store.Snapshot() == FollowStep(old(store.Snapshot()), target.value, noteId, now).state &&
      alerts == FollowStep(old(store.Snapshot()), target.value, noteId, now).alerts &&
      nextShown == FindUser(store.users, target.value)
  {
    if target.None? || target.value == "" {
      return shown, [];
    }
    alerts := store.ToggleFollow(target.value, noteId, now);
    nextShown := FindUser(store.users, target.value);
  }

  /** After `me` follows `target`, the stored record of `target` lists `me` as a follower, one more than before. */
  lemma FollowAddsFollower(users: seq<User>, me: Id, target: Id)
    requires me != target && FindUser(users, target).Some?
    ensures var after := ApplyFollow(users, me, target, false);
      FindUser(after, target).Some? && me in FollowersOf(FindUser(after, target).value) &&
      FollowerCount(FindUser(after, target).value) == FollowerCount(FindUser(users, target).value) + 1
  {
    var f := (u: User) => FollowRecord(u, me, target, false);
    assert ApplyFollow(users, me, target, false) == Map(users, f);
    FindUserMapped(users, f, target);
  }

  /**
   * Following a user from their profile, as a session user whose copy matches the store, adds the
   * session user to the refreshed record's followers and turns the button to "Following".
   */
  lemma FollowShowsOnProfile(s: State, target: Id, noteId: Id, now: int)
    requires s.session.Some? && s.session.value.id != target
    requires FindUser(s.users, s.session.value.id) == s.session
    requires !SessionFollows(s.session, target)
    requires FindUser(s.users, target).Some?
    ensures var after := FollowStep(s, target, noteId, now).state;
      FindUser(after.users, target).Some? &&
      s.session.value.id in FollowersOf(FindUser(after.users, target).value) &&
      FollowerCount(FindUser(after.users, target).value) == FollowerCount(FindUser(s.users, target).value) + 1 &&
      FollowButtonLabel(after.session, target) == "Following"
  {
    var me := s.session.value;
    FollowStepStarts(s, target, noteId, now);
    FollowStepFlipsFollowing(s, target, noteId, now);
    FollowAddsFollower(s.users, me.id, target);
  }

  /** The grid tile of a post: its image, or the first 30 characters of its text in quotes. */
  datatype Tile = ImageTile(url: string) | TextTile(text: string)

  function GridTile(p: Post): (t: Tile)
    ensures p.imageUrl.Some? && p.imageUrl.value != "" ==> t == ImageTile(p.imageUrl.value)
    ensures t.TextTile? <==> !(p.imageUrl.Some? && p.imageUrl.value != "")
    ensures t.TextTile? ==> |t.text| == 5 + (if |p.content| < 30 then |p.content| else 30)
    ensures t.TextTile? ==> t.text[0] == '"' && t.text[|t.text| - 4..] == "...\""
    ensures t.TextTile? ==> t.text[1..|t.text| - 4] == p.content[..|t.text| - 5]
    ensures t.TextTile? && |p.content| <= 30 ==> t.text[1..|t.text| - 4] == p.content
  {
    if p.imageUrl.Some? && p.imageUrl.value != "" then ImageTile(p.imageUrl.value)
    else TextTile("\"" + Take(p.content, 30) + "...\"")
  }
}
