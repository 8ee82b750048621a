/**
 * The discover screen: every other user as a trimmed-down record, the name-or-id search over
 * them, the following badge, and the follow button's processing marker.
 */
module DiscoverScreen {
  import opened Wrappers
  import opened Types
  import opened Seqs
  import opened Text
  import opened AuthContext

  /** `u.id !== me?.id`: without a session every user is another user. */
  predicate Other(u: User, session: Option<User>)
  {
    session.None? || u.id != session.value.id
  }

  /** The record the list keeps: id, name, picture, and both lists with a missing one read as empty. */
  function Listed(u: User): (r: User)
    ensures r.id == u.id && r.name == u.name && r.profilePic == u.profilePic
    ensures r.followers == Some(FollowersOf(u)) && r.following == Some(FollowingOf(u))
    ensures r.bio.None? && r.city.None? && r.fcmToken.None? && r.email.None? && r.password.None?
  {
    Profile(u.id, u.name, u.profilePic).(followers := Some(FollowersOf(u)), following := Some(FollowingOf(u)))
  }

  /** `fetchUsers`. */
  function FetchUsers(users: seq<User>, session: Option<User>): seq<User>
  {
    Map(Filter(users, (u: User) => Other(u, session)), Listed)
  }

  /** Each fetched record is the trimmed record of another user. */
  lemma FetchUsersSound(users: seq<User>, session: Option<User>, i: int)
    requires 0 <= i < |FetchUsers(users, session)|
    ensures var r := FetchUsers(users, session);
      Other(r[i], session) && r[i].followers.Some? && r[i].following.Some? &&
      exists j :: 0 <= j < |users| && r[i] == Listed(users[j])
  {
    var others := Filter(users, (u: User) => Other(u, session));
    var r := FetchUsers(users, session);
    assert r[i] == Listed(others[i]);
    assert Other(others[i], session);
    assert others[i] in users;
    var j :| 0 <= j < |users| && users[j] == others[i];
  }

  /** Every other user's trimmed record is fetched. */
  lemma FetchUsersComplete(users: seq<User>, session: Option<User>, j: int)
    requires 0 <= j < |users| && Other(users[j], session)
    ensures Listed(users[j]) in FetchUsers(users, session)
  {
    var others := Filter(users, (u: User) => Other(u, session));
    var r := FetchUsers(users, session);
    assert users[j] in others;
    var i :| 0 <= i < |others| && others[i] == users[j];
    assert r[i] == Listed(users[j]);
  }

  /** The fetched list never holds the session user, and holds the trimmed record of every other user. */
  lemma FetchUsersCorrect(users: seq<User>, session: Option<User>)
    ensures var r := FetchUsers(users, session);
      (forall i :: 0 <= i < |r| ==> Other(r[i], session) && r[i].followers.Some? && r[i].following.Some?) &&
      (forall i :: 0 <= i < |r| ==> exists j :: 0 <= j < |users| && r[i] == Listed(users[j])) &&
      (forall j :: 0 <= j < |users| && Other(users[j], session) ==> Listed(users[j]) in r)
  {
    var r := FetchUsers(users, session);
    forall i | 0 <= i < |r|
      ensures Other(r[i], session) && r[i].followers.Some? && r[i].following.Some?
      ensures exists j :: 0 <= j < |users| && r[i] == Listed(users[j])
    {
      FetchUsersSound(users, session, i);
    }
    forall j | 0 <= j < |users| && Other(users[j], session) ensures Listed(users[j]) in r {
      FetchUsersComplete(users, session, j);
    }
  }

  /** The search: the lowercased name or the lowercased id contains the lowercased query. */
  predicate Matches(u: User, query: string)
  {
    Contains(Lower(u.name), Lower(query)) || Contains(Lower(u.id), Lower(query))
  }

  /** `filteredUsers`. */
  function FilteredUsers(all: seq<User>, query: string): (r: seq<User>)
    ensures forall i :: 0 <= i < |r| ==> Matches(r[i], query) && r[i] in all
    ensures forall i :: 0 <= i < |all| && Matches(all[i], query) ==> all[i] in r
  {
    Filter(all, (u: User) => Matches(u, query))
  }

  /** The search keeps the list order, and an empty query keeps every user. */
  lemma FilteredUsersOrder(all: seq<User>, query: string)
    ensures IsSubsequence(FilteredUsers(all, query), all)
    ensures query == [] ==> FilteredUsers(all, query) == all
  {
    FilterIsSubsequence(all, (u: User) => Matches(u, query));
    if query == [] {
      forall i | 0 <= i < |all| ensures Matches(all[i], query) {
        ContainsEmpty(Lower(all[i].name));
      }
      FilterAll(all, (u: User) => Matches(u, query));
    }
  }

  /** The following badge on a user's row. */
  predicate FollowingBadge(session: Option<User>, u: User)
  {
    SessionFollows(session, u.id)
  }

  /** Toggling a user from the list flips that user's badge, when the session copy matches the store. */
  lemma ToggleFlipsBadge(s: State, u: User, noteId: Id, now: int)
    requires s.session.Some? && s.session.value.id != u.id
    requires FindUser(s.users, s.session.value.id) == s.session
    ensures FollowingBadge(FollowStep(s, u.id, noteId, now).state.session, u) <==> !FollowingBadge(s.session, u)
  {
    FollowStepFlipsFollowing(s, u.id, noteId, now);
  }

  /** `handleFollowToggle`: the store's follow toggle, with its alerts. */
  method HandleFollowToggle(store: Store, targetId: Id, noteId: Id, now: int) returns (alerts: seq<Alert>)
    modifies store
    ensures store.Snapshot() == FollowStep(old(store.Snapshot()), targetId, noteId, now).state
    ensures alerts == FollowStep(old(store.Snapshot()), targetId, noteId, now).alerts
  {
    alerts := store.ToggleFollow(targetId, noteId, now);
  }
}
