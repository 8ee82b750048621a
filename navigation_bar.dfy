/**
 * The bottom navigation bar: the unread badge count and the fixed tab table.
 */
module NavigationBar {
  import opened Wrappers
  import opened Types
  import opened Seqs
  import opened AuthContext

  /** Addressed to the session user and not yet read. */
  predicate UnreadForMe(n: Notification, session: Option<User>)
  {
    session.Some? && n.toUserId == session.value.id && !n.isRead
  }

  /** `unreadCount`. */
  function UnreadCount(notes: seq<Notification>, session: Option<User>): (c: nat)
    ensures c <= |notes|
  {
    |Filter(notes, (n: Notification) => UnreadForMe(n, session))|
  }

  /** The count is zero exactly when every notification for the session user is read. */
  lemma UnreadCountZero(notes: seq<Notification>, session: Option<User>)
    ensures UnreadCount(notes, session) == 0 <==> forall i :: 0 <= i < |notes| ==> !UnreadForMe(notes[i], session)
  {
    var r := Filter(notes, (n: Notification) => UnreadForMe(n, session));
    if |r| > 0 {
      assert UnreadForMe(r[0], session) && r[0] in notes;
    }
  }

  /** Marking everything read empties the badge. */
  lemma MarkAllReadClearsBadge(notes: seq<Notification>, session: Option<User>)
    ensures UnreadCount(MarkAllRead(notes), session) == 0
  {
    UnreadCountZero(MarkAllRead(notes), session);
  }

  datatype Tab = Tab(id: string, title: string, hasBadge: bool)

  /** The tab table, in display order. */
  function Tabs(): (t: seq<Tab>)
    ensures |t| == 5
  {
    [ Tab("home", "Home", false),
      Tab("friends", "Friends", false),
      Tab("watch", "Watch", false),
      Tab("notifications", "Alerts", true),
      Tab("menu", "Menu", false) ]
  }

  /** Only the notifications tab carries a badge, and no two tabs share an id. */
  lemma TabTable()
    ensures forall i :: 0 <= i < |Tabs()| ==> (Tabs()[i].hasBadge <==> Tabs()[i].id == "notifications")
    ensures forall i, j :: 0 <= i < j < |Tabs()| ==> Tabs()[i].id != Tabs()[j].id
  {
    var t := Tabs();
    assert t[0].id[0] == 'h' && t[1].id[0] == 'f' && t[2].id[0] == 'w' && t[3].id[0] == 'n' && t[4].id[0] == 'm';
  }

  predicate IsActive(tab: Tab, activeTab: string)
  {
    tab.id == activeTab
  }

  /** The red dot on a tab. */
  predicate BadgeShown(tab: Tab, unread: nat)
  {
    tab.hasBadge && unread > 0
  }

  /** At most one tab is active, and the dot shows only on the notifications tab when something is unread. */
  lemma OneActiveTab(activeTab: string, notes: seq<Notification>, session: Option<User>)
    ensures forall i, j :: 0 <= i < |Tabs()| && 0 <= j < |Tabs()| && IsActive(Tabs()[i], activeTab) && IsActive(Tabs()[j], activeTab) ==> i == j
    ensures forall i :: 0 <= i < |Tabs()| && BadgeShown(Tabs()[i], UnreadCount(notes, session)) ==>
      Tabs()[i].id == "notifications" && exists k :: 0 <= k < |notes| && UnreadForMe(notes[k], session)
  {
    TabTable();
    UnreadCountZero(notes, session);
  }
}
