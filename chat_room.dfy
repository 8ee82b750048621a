/**
 * One chat thread: the message log filtered to the session user and one peer and ordered by time,
 * the send action that appends to the log and alerts the peer, the active-peer marker the room
 * sets while open, and the rule that places a time separator above a message.
 */
module ChatRoom {
  import opened Wrappers
  import opened Types
  import opened Seqs
  import opened Sorting
  import opened Text
  import opened AuthContext

  /** `m` goes from the session user to `peer` or from `peer` to the session user; nothing matches without a session. */
  predicate Between(m: Message, me: Option<Id>, peer: Id)
  {
    me.Some? &&
    ((m.senderId == me.value && m.receiverId == peer) || (m.senderId == peer && m.receiverId == me.value))
  }

  function MsgKey(m: Message): int
  {
    m.timestamp
  }

  /** `loadMessages`: the messages between the two, oldest first. */
  function Thread(msgs: seq<Message>, me: Option<Id>, peer: Id): seq<Message>
  {
    SortAsc(Filter(msgs, (m: Message) => Between(m, me, peer)), MsgKey)
  }

  /** The thread holds exactly the messages between the two, in either direction, in ascending time order. */
  lemma ThreadCorrect(msgs: seq<Message>, me: Option<Id>, peer: Id)
    ensures SortedAsc(Thread(msgs, me, peer), MsgKey)
    ensures forall m :: m in Thread(msgs, me, peer) <==> m in msgs && Between(m, me, peer)
    ensures multiset(Thread(msgs, me, peer)) == multiset(Filter(msgs, (m: Message) => Between(m, me, peer)))
  {
    var between := Filter(msgs, (m: Message) => Between(m, me, peer));
    SortAscSorted(between, MsgKey);
    forall m ensures m in Thread(msgs, me, peer) <==> m in msgs && Between(m, me, peer) {
      SortMembership(between, MsgKey, m);
    }
  }

  /** The message a send appends. */
  function Sent(me: User, recipient: User, input: string, msgId: Id, now: int): Message
  {
    Message(msgId, me.id, recipient.id, Trim(input), now)
  }

  /** `handleSendMessage`: the new state and the alerts `sendPushNotification` raises. */
  function SendStep(s: State, recipient: User, input: string, msgId: Id, now: int): (r: Outcome)
    ensures s.session.None? || IsBlank(input) ==> r == Outcome(s, [])
    ensures s.session.Some? && !IsBlank(input) ==>
      r.state == s.(messages := r.state.messages) &&
      |r.state.messages| == |s.messages| + 1 && r.state.messages[..|s.messages|] == s.messages &&
      r.state.messages[|s.messages|].senderId == s.session.value.id &&
      r.state.messages[|s.messages|].receiverId == recipient.id &&
      r.state.messages[|s.messages|].text == Trim(input) && !IsBlank(r.state.messages[|s.messages|].text)
    ensures s.session.Some? && !IsBlank(input) ==>
      r.alerts == PushAlerts(s, recipient.id, s.session.value.name, Trim(input), Some(s.session.value.profilePic), Some(s.session.value.id))
  {
    if s.session.None? || IsBlank(input) then Outcome(s, [])
    else
      var me := s.session.value;
      TrimIdempotent(input);
      Outcome(s.(messages := s.messages + [Sent(me, recipient, input, msgId, now)]),
              PushAlerts(s, recipient.id, me.name, Trim(input), Some(me.profilePic), Some(me.id)))
  }

  /** After a send the thread with the recipient gains the sent message and keeps every earlier one. */
  lemma SentJoinsThread(s: State, recipient: User, input: string, msgId: Id, now: int)
    requires s.session.Some? && !IsBlank(input)
    ensures var after := SendStep(s, recipient, input, msgId, now).state.messages;
      forall m :: m in Thread(after, Some(s.session.value.id), recipient.id) <==>
        m in Thread(s.messages, Some(s.session.value.id), recipient.id) || m == Sent(s.session.value, recipient, input, msgId, now)
  {
    var me := Some(s.session.value.id);
    var after := SendStep(s, recipient, input, msgId, now).state.messages;
    assert after == s.messages + [Sent(s.session.value, recipient, input, msgId, now)];
    ThreadCorrect(after, me, recipient.id);
    ThreadCorrect(s.messages, me, recipient.id);
  }

  /** A send to another known user, with alerts permitted, raises exactly the recipient's chat alert. */
  lemma SendAlertsRecipient(s: State, recipient: User, input: string, msgId: Id, now: int)
    requires s.session.Some? && !IsBlank(input) && recipient.id != s.session.value.id
    requires FindUser(s.users, recipient.id).Some? && s.permitted
    ensures SendStep(s, recipient, input, msgId, now).alerts ==
      [LocalAlert(s.session.value.name, Trim(input), Some(s.session.value.profilePic))]
  {
    var me := s.session.value;
    PushToOthersNotSuppressed(s, recipient.id, me.name, Trim(input), Some(me.profilePic), Some(me.id));
  }

  /** With the room open on `peer`, an alert to the session user about a message from `peer` is suppressed. */
  lemma OpenRoomSuppressesPeer(s: State, peer: Id, title: string, body: string, icon: Option<string>)
    requires s.session.Some?
    ensures PushAlerts(s.(activeChatRecipientId := Some(peer)), s.session.value.id, title, body, icon, Some(peer)) == []
  {
    assert ChatSuppressed(s.(activeChatRecipientId := Some(peer)), s.session.value.id, Some(peer));
  }

  /** Once the room is left, no alert is suppressed as a chat alert. */
  lemma ClosedRoomSuppressesNothing(s: State, targetId: Id, title: string, body: string, icon: Option<string>, senderId: Option<Id>)
    requires FindUser(s.users, targetId).Some? && s.permitted
    ensures PushAlerts(s.(activeChatRecipientId := None), targetId, title, body, icon, senderId) == [LocalAlert(title, body, icon)]
  {
    assert !ChatSuppressed(s.(activeChatRecipientId := None), targetId, senderId);
  }

  /** The room's mount effect: the recipient becomes the active chat peer. */
  method OpenRoom(store: Store, recipient: User)
    modifies store
    ensures store.Snapshot() == old(store.Snapshot()).(activeChatRecipientId := Some(recipient.id))
  {
    store.SetActiveChatRecipient(Some(recipient.id));
  }

  /** The room's cleanup: no active chat peer. */
  method CloseRoom(store: Store)
    modifies store
    ensures store.Snapshot() == old(store.Snapshot()).(activeChatRecipientId := None)
  {
    store.SetActiveChatRecipient(None);
  }

  /** `handleSendMessage` on the store. */
  method SendMessage(store: Store, recipient: User, input: string, msgId: Id, now: int) returns (alerts: seq<Alert>)
    modifies store
    ensures store.Snapshot() == SendStep(old(store.Snapshot()), recipient, input, msgId, now).state
    ensures alerts == SendStep(old(store.Snapshot()), recipient, input, msgId, now).alerts
  {
    if IsBlank(input) || store.session.None? {
      return [];
    }
    var me := store.session.value;
    var text := Trim(input);
    store.messages := store.messages + [Message(msgId, me.id, recipient.id, text, now)];
    alerts := PushAlerts(store.Snapshot(), recipient.id, me.name, text, Some(me.profilePic), Some(me.id));
  }

  /** Five minutes, in milliseconds. */
  const SeparatorGapMs := 300000

  /** A time separator goes above the first message and above any message more than five minutes after the previous one. */
  predicate ShowTime(thread: seq<Message>, idx: nat)
    requires idx < |thread|
  {
    idx == 0 || thread[idx].timestamp - thread[idx - 1].timestamp > SeparatorGapMs
  }

  /** A run of messages with no separator inside spans at most five minutes per step. */
  lemma {:induction false} UnseparatedSpan(thread: seq<Message>, i: nat, j: nat)
    requires i <= j < |thread|
    requires forall k :: i < k <= j ==> !ShowTime(thread, k)
    ensures thread[j].timestamp - thread[i].timestamp <= (j - i) * SeparatorGapMs
  {
    if i < j {
      UnseparatedSpan(thread, i, j - 1);
      assert !ShowTime(thread, j);
    }
  }
}
