/**
 * The notifications screen: the session user's notifications in stored order, the phrase for
 * each kind, the relative time label, the unread highlight, and marking everything read on open.
 */
module NotificationsScreen {
  import opened Wrappers
  import opened Types
  import opened Seqs
  import opened Text
  import opened AuthContext

  /** `getNotificationMessage`: a fixed phrase per kind, a neutral one for any other tag. */
  function MessageFor(kind: NotificationKind): (r: string)
    ensures kind.OtherKind? <==> r == "interacted with you"
  {
    match kind
    case LikeKind => "liked your post"
    case CommentKind => "commented on your post"
    case FollowKind => "started following you"
    case OtherKind(_) => "interacted with you"
  }

  /** The four kinds read differently. */
  lemma MessagesDistinct(a: NotificationKind, b: NotificationKind)
    requires !a.OtherKind? || !b.OtherKind?
    ensures MessageFor(a) == MessageFor(b) <==> a == b
  {
  }

  const MinuteMs := 60000
  const HourMs := 3600000
  const DayMs := 86400000

  /** Floor division by 60000 and then by 60 is floor division by 3600000. */
  lemma MinutesToHours(diff: int)
    requires diff >= 0
    ensures diff / MinuteMs / 60 == diff / HourMs
  {
    var m := diff / MinuteMs;
    var h := m / 60;
    assert diff == MinuteMs * m + diff % MinuteMs;
    assert m == 60 * h + m % 60;
    assert diff == HourMs * h + (MinuteMs * (m % 60) + diff % MinuteMs);
  }

  /** Floor division by 3600000 and then by 24 is floor division by 86400000. */
  lemma HoursToDays(diff: int)
    requires diff >= 0
    ensures diff / HourMs / 24 == diff / DayMs
  {
    var h := diff / HourMs;
    var d := h / 24;
    assert diff == HourMs * h + diff % HourMs;
    assert h == 24 * d + h % 24;
    assert diff == DayMs * d + (HourMs * (h % 24) + diff % HourMs);
  }

  /** A count followed by its unit letter; never the "Just now" label. */
  function Labelled(n: nat, unit: char): (r: string)
    requires unit in "mhd"
    ensures r == NatToString(n) + [unit]
    ensures r != "Just now"
  {
    var t := NatToString(n) + [unit];
    assert t[|t| - 1] == unit;
    assert "Just now"[7] == 'w';
    t
  }

  /** `formatTime(timestamp)` seen at `now`, each case stated on the raw difference. */
  function FormatTime(now: int, timestamp: int): (r: string)
    ensures r == "Just now" <==> now - timestamp < MinuteMs
    ensures MinuteMs <= now - timestamp < HourMs ==> r == NatToString((now - timestamp) / MinuteMs) + ['m']
    ensures HourMs <= now - timestamp < DayMs ==> r == NatToString((now - timestamp) / HourMs) + ['h']
    ensures DayMs <= now - timestamp ==> r == NatToString((now - timestamp) / DayMs) + ['d']
  {
    var diff := now - timestamp;
    var mins := diff / MinuteMs;
    if mins < 1 then "Just now"
    else if mins < 60 then Labelled(mins, 'm')
    else
      var hrs := mins / 60;
      MinutesToHours(diff);
      if hrs < 24 then Labelled(hrs, 'h')
      else
        HoursToDays(diff);
        Labelled(hrs / 24, 'd')
  }

  /** `r` is the decimal digits of `n` followed by the letter `unit`. */
  predicate ReadsBackAs(r: string, unit: char, n: nat)
  {
    |r| >= 2 && r[|r| - 1] == unit && (forall i :: 0 <= i < |r| - 1 ==> '0' <= r[i] <= '9') &&
    DigitsValue(r[..|r| - 1]) == n
  }

  /** A label reads back as its unit letter after the digits of its count. */
  lemma LabelledReadsBack(n: nat, unit: char)
    requires unit in "mhd"
    ensures ReadsBackAs(Labelled(n, unit), unit, n)
  {
    var r := Labelled(n, unit);
    assert r[..|r| - 1] == NatToString(n);
    NatToStringValue(n);
  }

  /** A minute label reads back as a count between 1 and 59, an hour label as one between 1 and 23, a day label as the whole days elapsed. */
  lemma FormatTimeReadsBack(now: int, timestamp: int)
    requires now - timestamp >= MinuteMs
    ensures var r := FormatTime(now, timestamp);
      (now - timestamp < HourMs ==> 1 <= (now - timestamp) / MinuteMs <= 59 && ReadsBackAs(r, 'm', (now - timestamp) / MinuteMs)) &&
      (HourMs <= now - timestamp < DayMs ==> 1 <= (now - timestamp) / HourMs <= 23 && ReadsBackAs(r, 'h', (now - timestamp) / HourMs)) &&
      (DayMs <= now - timestamp ==> (now - timestamp) / DayMs >= 1 && ReadsBackAs(r, 'd', (now - timestamp) / DayMs))
  {
    var diff := now - timestamp;
    if diff < HourMs {
      var n := diff / MinuteMs;
      assert FormatTime(now, timestamp) == Labelled(n, 'm');
      LabelledReadsBack(n, 'm');
    } else if diff < DayMs {
      var n := diff / HourMs;
      assert FormatTime(now, timestamp) == Labelled(n, 'h');
      LabelledReadsBack(n, 'h');
    } else {
      var n := diff / DayMs;
      assert FormatTime(now, timestamp) == Labelled(n, 'd');
      LabelledReadsBack(n, 'd');
    }
  }

  /** Whether `n` is addressed to the session user; nothing is without a session. */
  predicate ForMe(n: Notification, session: Option<User>)
  {
    session.Some? && n.toUserId == session.value.id
  }

  /** `myNotifications`. */
  function MyNotifications(notes: seq<Notification>, session: Option<User>): (r: seq<Notification>)
    ensures forall i :: 0 <= i < |r| ==> ForMe(r[i], session) && r[i] in notes
    ensures forall i :: 0 <= i < |notes| && ForMe(notes[i], session) ==> notes[i] in r
  {
    Filter(notes, (n: Notification) => ForMe(n, session))
  }

  /** The list keeps the stored order. */
  lemma MyNotificationsInOrder(notes: seq<Notification>, session: Option<User>)
    ensures IsSubsequence(MyNotifications(notes, session), notes)
  {
    FilterIsSubsequence(notes, (n: Notification) => ForMe(n, session));
  }

  /** One row of the list. */
  datatype Row = Row(name: string, phrase: string, time: string, highlighted: bool, dot: bool)

  function RowOf(n: Notification, now: int): (r: Row)
    ensures r.highlighted <==> !n.isRead
    ensures r.dot <==> !n.isRead
    ensures r.name == n.fromUserName && r.phrase == MessageFor(n.kind)
  {
    Row(n.fromUserName, MessageFor(n.kind), FormatTime(now, n.timestamp), !n.isRead, !n.isRead)
  }

  /** After the mark-all-read on open, no row of the list is highlighted. */
  lemma OpenedListQuiet(notes: seq<Notification>, session: Option<User>, now: int)
    ensures var mine := MyNotifications(MarkAllRead(notes), session);
      forall i :: 0 <= i < |mine| ==> !RowOf(mine[i], now).highlighted
  {
    var all := MarkAllRead(notes);
    var mine := MyNotifications(all, session);
    forall i | 0 <= i < |mine| ensures mine[i].isRead {
      var j :| 0 <= j < |all| && all[j] == mine[i];
    }
  }

  /** The screen's mount effect. */
  method OpenNotifications(store: Store)
    modifies store
    ensures store.Snapshot() == old(store.Snapshot()).(notifications := MarkAllRead(old(store.notifications)))
  {
    store.MarkNotificationsAsRead();
  }
}
