/**
 * The conversation list: the flat message log grouped into one conversation per peer, holding
 * the latest message exchanged with that peer, newest conversation first; its name search, the
 * preview line and the day bucket of its time stamp.
 */
module ChatList {
  import opened Wrappers
  import opened Types
  import opened Seqs
  import opened Sorting
  import opened Text
  import opened AuthContext

  /** The session user sent or received `m`. */
  predicate Involves(m: Message, me: Id)
  {
    m.senderId == me || m.receiverId == me
  }

  /** The other participant of `m`. */
  function Peer(m: Message, me: Id): Id
  {
    if m.senderId == me then m.receiverId else m.senderId
  }

  /** One entry of the grouping map: a peer and the message kept for it. */
  datatype Entry = Entry(peer: Id, last: Message)

  /** One step of the grouping loop: a message with a peer already present replaces its entry only when strictly later. */
  function Record(entries: seq<Entry>, m: Message, me: Id): seq<Entry>
  {
    if !Involves(m, me) then entries
    else match FindFirst(entries, (e: Entry) => e.peer == Peer(m, me))
      case None => entries + [Entry(Peer(m, me), m)]
      case Some(i) => if m.timestamp > entries[i].last.timestamp then entries[i := Entry(Peer(m, me), m)] else entries
  }

  /** The grouping map after the loop has seen `msgs`, entries in first-insertion order. */
  function GroupLatest(msgs: seq<Message>, me: Id): seq<Entry>
    decreases |msgs|
  {
    if msgs == [] then [] else Record(GroupLatest(msgs[..|msgs| - 1], me), msgs[|msgs| - 1], me)
  }

  /** `msgs[p]` is with `peer`, no message with `peer` is later, and none before it is as late. */
  ghost predicate LatestAt(msgs: seq<Message>, me: Id, peer: Id, p: int)
  {
    0 <= p < |msgs| && Involves(msgs[p], me) && Peer(msgs[p], me) == peer &&
    (forall q :: 0 <= q < |msgs| && Involves(msgs[q], me) && Peer(msgs[q], me) == peer ==> msgs[q].timestamp <= msgs[p].timestamp) &&
    (forall q :: 0 <= q < p && Involves(msgs[q], me) && Peer(msgs[q], me) == peer ==> msgs[q].timestamp < msgs[p].timestamp)
  }

  /** The peers of the entries are pairwise distinct. */
  ghost predicate DistinctPeers(entries: seq<Entry>)
  {
    forall i, j :: 0 <= i < j < |entries| ==> entries[i].peer != entries[j].peer
  }

  /** Some entry is for `peer`. */
  predicate HasPeer(entries: seq<Entry>, peer: Id)
  {
    exists i | 0 <= i < |entries| :: entries[i].peer == peer
  }

  /** A latest message stays latest when a message that is not later, or not with that peer, is appended. */
  lemma LatestKept(pre: seq<Message>, m: Message, me: Id, peer: Id, p: int)
    requires LatestAt(pre, me, peer, p)
    requires !(Involves(m, me) && Peer(m, me) == peer) || m.timestamp <= pre[p].timestamp
    ensures LatestAt(pre + [m], me, peer, p)
  {
    var msgs := pre + [m];
    forall q | 0 <= q < |msgs| && Involves(msgs[q], me) && Peer(msgs[q], me) == peer
      ensures msgs[q].timestamp <= msgs[p].timestamp
    {
      if q < |pre| {
        assert msgs[q] == pre[q];
      }
    }
  }

  /** A strictly later message with that peer becomes the latest. */
  lemma LatestReplaced(pre: seq<Message>, m: Message, me: Id, peer: Id, p: int)
    requires LatestAt(pre, me, peer, p)
    requires Involves(m, me) && Peer(m, me) == peer && m.timestamp > pre[p].timestamp
    ensures LatestAt(pre + [m], me, peer, |pre|)
  {
    var msgs := pre + [m];
    forall q | 0 <= q < |pre| && Involves(msgs[q], me) && Peer(msgs[q], me) == peer
      ensures msgs[q].timestamp < m.timestamp
    {
      assert msgs[q] == pre[q];
    }
  }

  /** The first message with a peer is the latest so far. */
  lemma LatestFirst(pre: seq<Message>, m: Message, me: Id)
    requires Involves(m, me)
    requires forall q :: 0 <= q < |pre| && Involves(pre[q], me) ==> Peer(pre[q], me) != Peer(m, me)
    ensures LatestAt(pre + [m], me, Peer(m, me), |pre|)
  {
    var msgs := pre + [m];
    forall q | 0 <= q < |pre| ensures !(Involves(msgs[q], me) && Peer(msgs[q], me) == Peer(m, me)) {
      assert msgs[q] == pre[q];
    }
  }

  /** Some message of `msgs` is the latest with `e.peer` and is the message `e` holds. */
  ghost predicate WitnessAt(msgs: seq<Message>, me: Id, e: Entry)
  {
    exists p :: LatestAt(msgs, me, e.peer, p) && msgs[p] == e.last
  }

  ghost predicate Witnessed(entries: seq<Entry>, msgs: seq<Message>, me: Id)
  {
    forall i :: 0 <= i < |entries| ==> WitnessAt(msgs, me, entries[i])
  }

  lemma KeptWitness(pre: seq<Message>, m: Message, me: Id, e: Entry)
    requires WitnessAt(pre, me, e)
    requires !(Involves(m, me) && Peer(m, me) == e.peer) || m.timestamp <= e.last.timestamp
    ensures WitnessAt(pre + [m], me, e)
  {
    var p :| LatestAt(pre, me, e.peer, p) && pre[p] == e.last;
    LatestKept(pre, m, me, e.peer, p);
    assert (pre + [m])[p] == pre[p];
  }

  lemma ReplacedWitness(pre: seq<Message>, m: Message, me: Id, e: Entry)
    requires WitnessAt(pre, me, e)
    requires Involves(m, me) && Peer(m, me) == e.peer && m.timestamp > e.last.timestamp
    ensures WitnessAt(pre + [m], me, Entry(e.peer, m))
  {
    var p :| LatestAt(pre, me, e.peer, p) && pre[p] == e.last;
    LatestReplaced(pre, m, me, e.peer, p);
    assert (pre + [m])[|pre|] == m;
  }

  /**
   * `entries` is a correct grouping of `msgs`: one entry per peer, each holding the earliest of the
   * latest messages with that peer, and every peer of a message of the session user has an entry.
   */
  ghost predicate Grouped(entries: seq<Entry>, msgs: seq<Message>, me: Id)
  {
    DistinctPeers(entries) && Witnessed(entries, msgs, me) &&
    (forall q :: 0 <= q < |msgs| && Involves(msgs[q], me) ==> HasPeer(entries, Peer(msgs[q], me)))
  }

  /** Every entry keeps a latest-message witness across one step of the loop. */
  lemma RecordKeepsWitnesses(entries: seq<Entry>, pre: seq<Message>, m: Message, me: Id)
    requires Grouped(entries, pre, me)
    ensures Witnessed(Record(entries, m, me), pre + [m], me)
  {
    var msgs := pre + [m];
    var r := Record(entries, m, me);
    if !Involves(m, me) {
      forall i | 0 <= i < |r| ensures WitnessAt(msgs, me, r[i]) {
        KeptWitness(pre, m, me, entries[i]);
      }
    } else {
      var peer := Peer(m, me);
      var k := FindFirst(entries, (e: Entry) => e.peer == peer);
      if k.None? {
        forall i | 0 <= i < |entries| ensures WitnessAt(msgs, me, r[i]) {
          KeptWitness(pre, m, me, entries[i]);
        }
        forall q | 0 <= q < |pre| && Involves(pre[q], me) ensures Peer(pre[q], me) != peer {
          assert HasPeer(entries, Peer(pre[q], me));
        }
        LatestFirst(pre, m, me);
        assert msgs[|pre|] == m;
        assert WitnessAt(msgs, me, r[|entries|]);
      } else {
        var i0 := k.value;
        forall i | 0 <= i < |entries| && i != i0 ensures WitnessAt(msgs, me, r[i]) {
          assert entries[i].peer != entries[i0].peer;
          KeptWitness(pre, m, me, entries[i]);
        }
        if m.timestamp > entries[i0].last.timestamp {
          ReplacedWitness(pre, m, me, entries[i0]);
        } else {
          KeptWitness(pre, m, me, entries[i0]);
        }
      }
    }
  }

  /** One step keeps every existing entry's peer in place and keeps the peers distinct. */
  lemma RecordKeepsPositions(entries: seq<Entry>, m: Message, me: Id)
    requires DistinctPeers(entries)
    ensures var r := Record(entries, m, me);
      |entries| <= |r| && (forall i :: 0 <= i < |entries| ==> r[i].peer == entries[i].peer) && DistinctPeers(r)
  {
  }

  /** After one step the peer of a message of the session user has an entry. */
  lemma RecordHasPeer(entries: seq<Entry>, m: Message, me: Id)
    requires Involves(m, me)
    ensures HasPeer(Record(entries, m, me), Peer(m, me))
  {
    var r := Record(entries, m, me);
    var k := FindFirst(entries, (e: Entry) => e.peer == Peer(m, me));
    if k.None? {
      assert r[|entries|].peer == Peer(m, me);
    } else {
      assert r[k.value].peer == Peer(m, me);
    }
  }

  /** Every message of the session user still has an entry for its peer after one step. */
  lemma RecordKeepsPeers(entries: seq<Entry>, pre: seq<Message>, m: Message, me: Id)
    requires Grouped(entries, pre, me)
    ensures var r := Record(entries, m, me);
      DistinctPeers(r) &&
      forall q :: 0 <= q < |pre + [m]| && Involves((pre + [m])[q], me) ==> HasPeer(r, Peer((pre + [m])[q], me))
  {
    var msgs := pre + [m];
    var r := Record(entries, m, me);
    RecordKeepsPositions(entries, m, me);
    forall q | 0 <= q < |msgs| && Involves(msgs[q], me) ensures HasPeer(r, Peer(msgs[q], me)) {
      if q < |pre| {
        assert msgs[q] == pre[q];
        assert HasPeer(entries, Peer(pre[q], me));
        var i :| 0 <= i < |entries| && entries[i].peer == Peer(pre[q], me);
        assert r[i].peer == entries[i].peer;
      } else {
        RecordHasPeer(entries, m, me);
      }
    }
  }

  /** One step of the loop keeps the grouping correct. */
  lemma RecordKeepsGrouped(entries: seq<Entry>, pre: seq<Message>, m: Message, me: Id)
    requires Grouped(entries, pre, me)
    ensures Grouped(Record(entries, m, me), pre + [m], me)
  {
    RecordKeepsWitnesses(entries, pre, m, me);
    RecordKeepsPeers(entries, pre, m, me);
  }

  /** The grouping is correct for every prefix of the log, hence for the whole log. */
  lemma {:induction false} GroupLatestCorrect(msgs: seq<Message>, me: Id)
    ensures Grouped(GroupLatest(msgs, me), msgs, me)
  {
    if msgs != [] {
      var pre := msgs[..|msgs| - 1];
      GroupLatestCorrect(pre, me);
      RecordKeepsGrouped(GroupLatest(pre, me), pre, msgs[|msgs| - 1], me);
      assert pre + [msgs[|msgs| - 1]] == msgs;
    }
  }

  /** The grouping loop of `loadConversations`, over the message log in stored order. */
  method GroupConversations(msgs: seq<Message>, me: Id) returns (entries: seq<Entry>)
    ensures entries == GroupLatest(msgs, me)
    ensures Grouped(entries, msgs, me)
  {
    entries := [];
    for n := 0 to |msgs|
      invariant entries == GroupLatest(msgs[..n], me)
    {
      assert msgs[..n + 1][..n] == msgs[..n];
      var m := msgs[n];
      if Involves(m, me) {
        var other := if m.senderId == me then m.receiverId else m.senderId;
        var current := FindFirst(entries, (e: Entry) => e.peer == other);
        if current.None? {
          entries := entries + [Entry(other, m)];
        } else if m.timestamp > entries[current.value].last.timestamp {
          entries := entries[current.value := Entry(other, m)];
        }
      }
    }
    assert msgs[..|msgs|] == msgs;
    GroupLatestCorrect(msgs, me);
  }

  /** A conversation row: the peer's current record and the message kept for the peer. */
  datatype Conversation = Conversation(user: User, lastMessage: Message)

  function ConvPeer(c: Conversation): Id
  {
    c.user.id
  }

  function ConvKey(c: Conversation): int
  {
    c.lastMessage.timestamp
  }

  /** Entries whose peer `getUserById` resolves, as conversations; the others are dropped. */
  function Resolved(entries: seq<Entry>, users: seq<User>): (r: seq<Conversation>)
    ensures |r| <= |entries|
    ensures forall i :: 0 <= i < |r| ==>
      FindUser(users, r[i].user.id) == Some(r[i].user) && Entry(r[i].user.id, r[i].lastMessage) in entries
    ensures forall i :: 0 <= i < |entries| && FindUser(users, entries[i].peer).Some? ==>
      Conversation(FindUser(users, entries[i].peer).value, entries[i].last) in r
  {
    if entries == [] then []
    else
      (match FindUser(users, entries[0].peer)
       case Some(u) => [Conversation(u, entries[0].last)]
       case None => []) + Resolved(entries[1..], users)
  }

  lemma {:induction false} ResolvedDistinct(entries: seq<Entry>, users: seq<User>)
    requires DistinctPeers(entries)
    ensures DistinctBy(Resolved(entries, users), ConvPeer)
  {
    if entries != [] {
      ResolvedDistinct(entries[1..], users);
      var tail := Resolved(entries[1..], users);
      forall k | 0 <= k < |tail| ensures tail[k].user.id != entries[0].peer {
        var e := Entry(tail[k].user.id, tail[k].lastMessage);
        assert e in entries[1..];
        var m := TailMember(entries, e);
      }
    }
  }

  /** The conversation list of `loadConversations`, newest conversation first. */
  function ConversationsOf(msgs: seq<Message>, me: Id, users: seq<User>): seq<Conversation>
  {
    SortDesc(Resolved(GroupLatest(msgs, me), users), ConvKey)
  }

  /** The conversation list is ordered by its last message, newest first, with at most one row per peer. */
  lemma ConversationsOrdered(msgs: seq<Message>, me: Id, users: seq<User>)
    ensures SortedDesc(ConversationsOf(msgs, me, users), ConvKey)
    ensures DistinctBy(ConversationsOf(msgs, me, users), ConvPeer)
  {
    var entries := GroupLatest(msgs, me);
    GroupLatestCorrect(msgs, me);
    var resolved := Resolved(entries, users);
    SortDescSorted(resolved, ConvKey);
    ResolvedDistinct(entries, users);
    SortDescDistinct(resolved, ConvKey, ConvPeer);
  }

  /** Each row of the sorted list comes from a resolved entry. */
  lemma RowFromEntry(entries: seq<Entry>, users: seq<User>, i: int) returns (k: int)
    requires 0 <= i < |SortDesc(Resolved(entries, users), ConvKey)|
    ensures var c := SortDesc(Resolved(entries, users), ConvKey)[i];
      FindUser(users, c.user.id) == Some(c.user) && 0 <= k < |entries| && entries[k] == Entry(c.user.id, c.lastMessage)
  {
    var resolved := Resolved(entries, users);
    var c := SortDesc(resolved, ConvKey)[i];
    SortDescMembership(resolved, ConvKey, c);
    var j :| 0 <= j < |resolved| && resolved[j] == c;
    k :| 0 <= k < |entries| && entries[k] == Entry(c.user.id, c.lastMessage);
  }

  /** Each row's peer resolves to the user shown, and its message is the earliest of the latest messages with that peer. */
  lemma ConversationsSound(msgs: seq<Message>, me: Id, users: seq<User>)
    ensures var r := ConversationsOf(msgs, me, users);
      forall i :: 0 <= i < |r| ==> FindUser(users, r[i].user.id) == Some(r[i].user) && WitnessAt(msgs, me, Entry(r[i].user.id, r[i].lastMessage))
  {
    var entries := GroupLatest(msgs, me);
    GroupLatestCorrect(msgs, me);
    var r := ConversationsOf(msgs, me, users);
    assert r == SortDesc(Resolved(entries, users), ConvKey);
    forall i | 0 <= i < |r|
      ensures FindUser(users, r[i].user.id) == Some(r[i].user) && WitnessAt(msgs, me, Entry(r[i].user.id, r[i].lastMessage))
    {
      var k := RowFromEntry(entries, users, i);
      assert WitnessAt(msgs, me, entries[k]);
    }
  }

  /** An entry whose peer resolves has a row in the sorted list. */
  lemma ResolvedEntryHasRow(entries: seq<Entry>, users: seq<User>, k: int) returns (i: int)
    requires 0 <= k < |entries| && FindUser(users, entries[k].peer).Some?
    ensures 0 <= i < |SortDesc(Resolved(entries, users), ConvKey)|
    ensures SortDesc(Resolved(entries, users), ConvKey)[i].user.id == entries[k].peer
  {
    var resolved := Resolved(entries, users);
    var c := Conversation(FindUser(users, entries[k].peer).value, entries[k].last);
    assert c in resolved;
    SortDescMembership(resolved, ConvKey, c);
    var r := SortDesc(resolved, ConvKey);
    i :| 0 <= i < |r| && r[i] == c;
  }

  /** Every resolvable peer the session user has exchanged a message with has a row. */
  lemma ConversationsComplete(msgs: seq<Message>, me: Id, users: seq<User>)
    ensures var r := ConversationsOf(msgs, me, users);
      forall q :: 0 <= q < |msgs| && Involves(msgs[q], me) && FindUser(users, Peer(msgs[q], me)).Some? ==>
        exists i :: 0 <= i < |r| && r[i].user.id == Peer(msgs[q], me)
  {
    var entries := GroupLatest(msgs, me);
    GroupLatestCorrect(msgs, me);
    var r := ConversationsOf(msgs, me, users);
    assert r == SortDesc(Resolved(entries, users), ConvKey);
    forall q | 0 <= q < |msgs| && Involves(msgs[q], me) && FindUser(users, Peer(msgs[q], me)).Some?
      ensures exists i :: 0 <= i < |r| && r[i].user.id == Peer(msgs[q], me)
    {
      assert HasPeer(entries, Peer(msgs[q], me));
      var k :| 0 <= k < |entries| && entries[k].peer == Peer(msgs[q], me);
      var i := ResolvedEntryHasRow(entries, users, k);
      assert r[i].user.id == Peer(msgs[q], me);
    }
  }

  /** `loadConversations`: without a session the list is left as it was (`None`). */
  method LoadConversations(store: Store) returns (convos: Option<seq<Conversation>>)
    ensures store.session.None? ==> convos.None?
    ensures store.session.Some? ==> convos == Some(ConversationsOf(store.messages, store.session.value.id, store.users))
  {
    if store.session.None? {
      return None;
    }
    var entries := GroupConversations(store.messages, store.session.value.id);
    convos := Some(SortDesc(Resolved(entries, store.users), ConvKey));
  }

  /** The search box: a case-insensitive substring match on the peer's name. */
  predicate NameMatches(c: Conversation, query: string)
  {
    Contains(Lower(c.user.name), Lower(query))
  }

  function FilterConversations(convos: seq<Conversation>, query: string): (r: seq<Conversation>)
    ensures forall i :: 0 <= i < |r| ==> NameMatches(r[i], query) && r[i] in convos
    ensures forall i :: 0 <= i < |convos| && NameMatches(convos[i], query) ==> convos[i] in r
  {
    Filter(convos, (c: Conversation) => NameMatches(c, query))
  }

  /** The search keeps the list order, and an empty query keeps every conversation. */
  lemma FilterConversationsOrder(convos: seq<Conversation>, query: string)
    ensures IsSubsequence(FilterConversations(convos, query), convos)
    ensures query == [] ==> FilterConversations(convos, query) == convos
  {
    FilterIsSubsequence(convos, (c: Conversation) => NameMatches(c, query));
    if query == [] {
      forall i | 0 <= i < |convos| ensures NameMatches(convos[i], query) {
        ContainsEmpty(Lower(convos[i].user.name));
      }
      FilterAll(convos, (c: Conversation) => NameMatches(c, query));
    }
  }

  /** The preview line of a row: an optional prefix, the message text, and the unread dot. */
  datatype Preview = Preview(prefix: string, text: string, dot: bool)

  /** A message the session user sent reads "You: " and carries no dot; any other carries the dot. */
  function PreviewOf(c: Conversation, session: Option<User>): (r: Preview)
    ensures r.text == c.lastMessage.text
    ensures r.prefix == "You: " <==> !r.dot
    ensures r.dot <==> session.None? || c.lastMessage.senderId != session.value.id
    ensures r.dot ==> r.prefix == ""
  {
    var mine := session.Some? && c.lastMessage.senderId == session.value.id;
    Preview(if mine then "You: " else "", c.lastMessage.text, !mine)
  }

  /** The four formats of `formatChatTime`. */
  datatype DayBucket = TimeOfDay | Yesterday | Weekday | MonthDay

  const DayMs := 86400000

  /** The bucket for a message at `timestamp` seen at `now`, from `Math.floor` of the day difference. */
  function ChatTimeBucket(now: int, timestamp: int): (b: DayBucket)
    ensures b == TimeOfDay <==> 0 <= now - timestamp < DayMs
    ensures b == Yesterday <==> DayMs <= now - timestamp < 2 * DayMs
    ensures b == Weekday <==> now - timestamp < 0 || 2 * DayMs <= now - timestamp < 7 * DayMs
    ensures b == MonthDay <==> now - timestamp >= 7 * DayMs
  {
    var diffDays := (now - timestamp) / DayMs;
    if diffDays == 0 then TimeOfDay
    else if diffDays == 1 then Yesterday
    else if diffDays < 7 then Weekday
    else MonthDay
  }
}
