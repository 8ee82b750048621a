/**
 * The story strip: the fixed sample stories merged with the session user's own latest story, and
 * posting a story, which puts it first in the stored list.
 */
module StorySection {
  import opened Wrappers
  import opened Types
  import opened Seqs
  import opened Text
  import opened AuthContext

  function MockStory(id: Id, uid: Id, name: string, picId: string): Story
  {
    Story(id, Profile(uid, name, "https://picsum.photos/id/" + picId + "/200/200"), None, None)
  }

  /** The five sample stories, in display order. */
  function MockStories(): (r: seq<Story>)
    ensures |r| == 5
    ensures forall i :: 0 <= i < |r| ==> r[i].id != MyStoryId && r[i].imageUrl.None?
  {
    [ MockStory("2", "u2", "Alex Rivera", "1012"),
      MockStory("3", "u3", "Sarah Chen", "1027"),
      MockStory("4", "u4", "Marcus Doe", "1005"),
      MockStory("5", "u5", "Elena G.", "1011"),
      MockStory("6", "u6", "David Kim", "1025") ]
  }

  const MyStoryId := "my-story-active"

  /** `s.user.id === user?.id`: a story of the session user; none without a session. */
  predicate Mine(st: Story, session: Option<User>)
  {
    session.Some? && st.user.id == session.value.id
  }

  /** The saved stories of the session user, in stored order. */
  function OwnStories(saved: seq<Story>, session: Option<User>): (r: seq<Story>)
    ensures r != [] ==> session.Some?
  {
    var own := Filter(saved, (st: Story) => Mine(st, session));
    assert own != [] ==> Mine(own[0], session);
    own
  }

  /** The sample stories that are not the session user's, in display order. */
  function OtherSamples(session: Option<User>): (r: seq<Story>)
    ensures forall i :: 0 <= i < |r| ==> !Mine(r[i], session) && r[i].id != MyStoryId
  {
    Filter(MockStories(), (st: Story) => !Mine(st, session))
  }

  /** `loadDynamicStories`: the session user's latest saved story first, then the other sample stories. */
  function LoadDynamicStories(saved: seq<Story>, session: Option<User>): seq<Story>
  {
    var own := OwnStories(saved, session);
    if own != [] then [Story(MyStoryId, session.value, own[0].imageUrl, None)] + OtherSamples(session)
    else OtherSamples(session)
  }

  /** The index of the first saved story of the session user, when there is one. */
  function FirstMine(saved: seq<Story>, session: Option<User>): Option<nat>
  {
    FindFirst(saved, (st: Story) => Mine(st, session))
  }

  /**
   * With a saved story the strip is one entry for the session user, carrying the image of the
   * first such story, followed by the sample stories that are not the session user's; without
   * one it is just those sample stories. Either way the sample part keeps its order.
   */
  lemma LoadDynamicStoriesCorrect(saved: seq<Story>, session: Option<User>)
    ensures var r := LoadDynamicStories(saved, session);
      var others := OtherSamples(session);
      IsSubsequence(others, MockStories()) &&
      (FirstMine(saved, session).Some? ==>
        r == [Story(MyStoryId, session.value, saved[FirstMine(saved, session).value].imageUrl, None)] + others) &&
      (FirstMine(saved, session).None? ==> r == others)
  {
    FilterIsSubsequence(MockStories(), (st: Story) => !Mine(st, session));
    var k := FirstMine(saved, session);
    if k.Some? {
      FilterFirst(saved, (st: Story) => Mine(st, session), k.value);
    } else {
      FilterNone(saved, (st: Story) => Mine(st, session));
    }
  }

  /** No entry of the strip other than the session user's own belongs to the session user. */
  lemma NoOwnSampleStory(saved: seq<Story>, session: Option<User>)
    ensures var r := LoadDynamicStories(saved, session);
      forall i :: 0 <= i < |r| && r[i].id != MyStoryId ==> !Mine(r[i], session)
  {
    var r := LoadDynamicStories(saved, session);
    var others := OtherSamples(session);
    if OwnStories(saved, session) != [] {
      forall i | 0 <= i < |r| && r[i].id != MyStoryId ensures !Mine(r[i], session) {
        assert r[i] == others[i - 1];
      }
    }
  }

  /** `handlePostStory`: without an image or a session nothing happens. */
  function PostStoryStep(s: State, preview: Option<string>, now: nat): (r: State)
    ensures preview.None? || preview == Some("") || s.session.None? ==> r == s
    ensures r.(stories := s.stories) == s
    ensures preview.Some? && preview.value != "" && s.session.Some? ==>
      |r.stories| == |s.stories| + 1 && r.stories[1..] == s.stories &&
      r.stories[0].user == s.session.value && r.stories[0].imageUrl == preview
  {
    if preview.None? || preview.value == "" || s.session.None? then s
    else s.(stories := [Story("story_" + NatToString(now), s.session.value, preview, None)] + s.stories)
  }

  /** After posting, reloading the strip shows the posted image as the session user's story. */
  lemma PostedStoryLeads(s: State, preview: Option<string>, now: nat)
    requires preview.Some? && preview.value != "" && s.session.Some?
    ensures var r := LoadDynamicStories(PostStoryStep(s, preview, now).stories, s.session);
      r != [] && r[0] == Story(MyStoryId, s.session.value, preview, None)
  {
    var stories := PostStoryStep(s, preview, now).stories;
    LoadDynamicStoriesCorrect(stories, s.session);
    assert Mine(stories[0], s.session);
    assert FirstMine(stories, s.session) == Some(0);
  }

  method PostStory(store: Store, preview: Option<string>, now: nat)
    modifies store
    ensures store.Snapshot() == PostStoryStep(old(store.Snapshot()), preview, now)
  {
    if preview.None? || preview.value == "" || store.session.None? {
      return;
    }
    var entry := Story("story_" + NatToString(now), store.session.value, preview, None);
    store.stories := [entry] + store.stories;
  }
}
