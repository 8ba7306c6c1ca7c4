/**
 * The header bar: the notification list with its read flags and unread
 * badge, and the search box.
 */
module Header {
  import opened Seqs
  import Text

  datatype Notification = Notification(id: int, title: string, message: string, time: string, read: bool)

  /** The three notifications the header starts with; the third is already read. */
  const InitialNotifications := [
    Notification(1, "PRD Generated", "Mobile App Redesign PRD is ready", "2 hours ago", false),
    Notification(2, "User Stories Created", "5 new user stories added", "5 hours ago", false),
    Notification(3, "Roadmap Updated", "Q2 2026 milestones added", "1 day ago", true)
  ]

  predicate IsUnread(n: Notification) {
    !n.read
  }

  /** An unread notification carrying `id`. */
  predicate IsUnreadWithId(id: int, n: Notification) {
    !n.read && n.id == id
  }

  /** `unreadCount`: how many notifications are not read. */
  function UnreadCount(ns: seq<Notification>): (c: nat)
    ensures c <= |ns|
    ensures c == 0 <==> forall k :: 0 <= k < |ns| ==> ns[k].read
  {
    var unread := Filter(ns, IsUnread);
    FilterMembers(ns, IsUnread);
    assert unread == [] ==> forall k :: 0 <= k < |ns| ==> ns[k].read by {
      if unread == [] {
        forall k | 0 <= k < |ns| ensures ns[k].read {
          assert ns[k] !in unread;
        }
      }
    }
    assert unread != [] ==> unread[0] in ns && !unread[0].read;
    |unread|
  }

  lemma InitialUnreadCount()
    ensures UnreadCount(InitialNotifications) == 2
  {
    var ns := InitialNotifications;
    assert ns == [ns[0]] + ns[1..];
    assert ns[1..] == [ns[1]] + ns[2..];
    assert ns[2..] == [ns[2]] + ns[3..];
  }

  /**
   * `markAsRead(id)`: the notifications with `id` become read; the length,
   * the order, every other notification and every other field stay.
   */
  function MarkRead(ns: seq<Notification>, id: int): (r: seq<Notification>)
    ensures |r| == |ns|
    ensures forall k :: 0 <= k < |ns| && ns[k].id != id ==> r[k] == ns[k]
    ensures forall k :: 0 <= k < |ns| && ns[k].id == id ==> r[k] == ns[k].(read := true)
  {
    seq(|ns|, k requires 0 <= k < |ns| => if ns[k].id == id then ns[k].(read := true) else ns[k])
  }

  /** Marking a notification read a second time changes nothing. */
  lemma MarkReadIdempotent(ns: seq<Notification>, id: int)
    ensures MarkRead(MarkRead(ns, id), id) == MarkRead(ns, id)
  {
  }

  /**
   * Marking `id` read lowers the unread count by exactly the number of unread
   * notifications carrying `id`; in particular it never raises it.
   */
  lemma {:induction false} MarkReadCount(ns: seq<Notification>, id: int)
    ensures UnreadCount(MarkRead(ns, id)) + |Filter(ns, n => IsUnreadWithId(id, n))| == UnreadCount(ns)
    ensures UnreadCount(MarkRead(ns, id)) <= UnreadCount(ns)
  {
    if ns != [] {
      var r := MarkRead(ns, id);
      MarkReadCount(ns[1..], id);
      assert r[1..] == MarkRead(ns[1..], id);
    }
  }

  /** `markAllAsRead`: every notification becomes read, nothing else changes. */
  function MarkAllRead(ns: seq<Notification>): (r: seq<Notification>)
    ensures |r| == |ns|
    ensures forall k :: 0 <= k < |ns| ==> r[k] == ns[k].(read := true)
  {
    seq(|ns|, k requires 0 <= k < |ns| => ns[k].(read := true))
  }

  /** After marking all read, the unread badge shows nothing. */
  lemma MarkAllReadClearsBadge(ns: seq<Notification>)
    ensures UnreadCount(MarkAllRead(ns)) == 0
  {
    FilterNonePass(MarkAllRead(ns), IsUnread);
  }

  /** Marking every id read one by one ends where marking all read does. */
  lemma {:induction false} MarkEachReadIsMarkAll(ns: seq<Notification>, ids: seq<int>)
    requires forall k :: 0 <= k < |ns| ==> ns[k].id in ids
    ensures MarkEach(ns, ids) == MarkAllRead(ns)
  {
    MarkEachSpec(ns, ids);
  }

  /** `markAsRead` applied for each id of `ids` in turn. */
  function MarkEach(ns: seq<Notification>, ids: seq<int>): seq<Notification>
    decreases |ids|
  {
    if ids == [] then ns else MarkEach(MarkRead(ns, ids[0]), ids[1..])
  }

  /** After marking each of `ids`, a notification is read exactly when it was already read or its id is among them. */
  lemma {:induction false} MarkEachSpec(ns: seq<Notification>, ids: seq<int>)
    ensures var r := MarkEach(ns, ids);
      |r| == |ns| && forall k :: 0 <= k < |ns| ==> r[k] == ns[k].(read := ns[k].read || ns[k].id in ids)
    decreases |ids|
  {
    if ids != [] {
      var m := MarkRead(ns, ids[0]);
      MarkEachSpec(m, ids[1..]);
      forall k | 0 <= k < |ns|
        ensures MarkEach(ns, ids)[k] == ns[k].(read := ns[k].read || ns[k].id in ids)
      {
        assert ns[k].id in ids <==> ns[k].id == ids[0] || ns[k].id in ids[1..];
      }
    }
  }

  /** `handleSearch`: a key press searches only on Enter with a query that is not blank. */
  function SearchFires(key: string, query: string): (b: bool)
    ensures b <==> key == "Enter" && !Text.AllWhitespace(query)
  {
    key == "Enter" && Text.Trim(query) != ""
  }

  /** The header's `searchQuery` and `notifications` state. */
  class HeaderBar {
    var searchQuery: string
    var notifications: seq<Notification>

    constructor ()
      ensures searchQuery == "" && notifications == InitialNotifications
    {
      searchQuery := "";
      notifications := InitialNotifications;
    }

    /** The badge count. */
    function Unread(): (c: nat)
      reads this
      ensures c <= |notifications|
    {
      UnreadCount(notifications)
    }

    /** Typing in the search box. */
    method SetQuery(text: string)
      modifies this
      ensures searchQuery == text && notifications == old(notifications)
    {
      searchQuery := text;
    }

    /** A key press in the search box: reports whether a search is started. */
    method HandleSearch(key: string) returns (fired: bool)
      ensures fired <==> key == "Enter" && !Text.AllWhitespace(searchQuery)
    {
      fired := key == "Enter" && Text.Trim(searchQuery) != "";
    }

    /** `clearSearch`: the query becomes empty. */
    method ClearSearch()
      modifies this
      ensures searchQuery == "" && notifications == old(notifications)
    {
      searchQuery := "";
    }

    /** Clicking a notification. */
    method MarkAsRead(id: int)
      modifies this
      ensures notifications == MarkRead(old(notifications), id)
      ensures Unread() <= old(Unread())
      ensures searchQuery == old(searchQuery)
    {
      MarkReadCount(notifications, id);
      notifications := MarkRead(notifications, id);
    }

    /** The "Mark all as read" button. */
    method MarkAllAsRead()
      modifies this
      ensures notifications == MarkAllRead(old(notifications))
      ensures Unread() == 0
      ensures searchQuery == old(searchQuery)
    {
      notifications := MarkAllRead(notifications);
      MarkAllReadClearsBadge(old(notifications));
    }
  }
}
