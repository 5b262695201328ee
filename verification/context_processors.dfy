/** The unread-notification badge shown on every page. */
module Notices {
  import opened Wrappers
  import opened Models

  /** Who is looking at the page. */
  datatype Viewer = Anonymous | Authenticated(user: UserId, isStaff: bool)

  /** Unread notifications of any recipient, broadcasts included. */
  function UnreadAll(ns: seq<Notification>): (r: nat)
    ensures r <= |ns|
  {
    if |ns| == 0 then 0
    else UnreadAll(ns[..|ns| - 1]) + (if ns[|ns| - 1].read then 0 else 1)
  }

  /** Unread notifications addressed to `u` itself; broadcasts are not. */
  function UnreadOf(ns: seq<Notification>, u: UserId): nat
  {
    if |ns| == 0 then 0
    else UnreadOf(ns[..|ns| - 1], u) + (if !ns[|ns| - 1].read && ns[|ns| - 1].recipient == Some(u) then 1 else 0)
  }

  /** The badge count: staff see every unread notification, a customer sees
      only their own unread ones, and an anonymous visitor sees none. */
  function UnreadCount(ns: seq<Notification>, viewer: Viewer): (r: nat)
    ensures viewer.Anonymous? ==> r == 0
    ensures viewer.Authenticated? && viewer.isStaff ==> r == UnreadAll(ns)
    ensures viewer.Authenticated? && !viewer.isStaff ==> r == UnreadOf(ns, viewer.user)
    ensures r <= |ns|
  {
    CustomerCountBelowStaffCount(ns, if viewer.Authenticated? then viewer.user else 0);
    match viewer
    case Anonymous => 0
    case Authenticated(user, isStaff) => if isStaff then UnreadAll(ns) else UnreadOf(ns, user)
  }

  /** A customer's count never exceeds the staff count. */
  lemma {:induction false} CustomerCountBelowStaffCount(ns: seq<Notification>, u: UserId)
    ensures UnreadOf(ns, u) <= UnreadAll(ns)
    decreases |ns|
  {
    if |ns| > 0 {
      CustomerCountBelowStaffCount(ns[..|ns| - 1], u);
    }
  }

  /** Appending one notification raises the staff count by one exactly when
      it is unread, and a customer's count by one exactly when it is unread
      and addressed to them. */
  lemma AppendCounts(ns: seq<Notification>, n: Notification, u: UserId)
    ensures UnreadAll(ns + [n]) == UnreadAll(ns) + (if n.read then 0 else 1)
    ensures UnreadOf(ns + [n], u) == UnreadOf(ns, u) + (if !n.read && n.recipient == Some(u) then 1 else 0)
  {
    assert (ns + [n])[..|ns + [n]| - 1] == ns;
  }

  /** Counts over two runs of notifications add up. */
  lemma {:induction false} ConcatCounts(a: seq<Notification>, b: seq<Notification>, u: UserId)
    ensures UnreadAll(a + b) == UnreadAll(a) + UnreadAll(b)
    ensures UnreadOf(a + b, u) == UnreadOf(a, u) + UnreadOf(b, u)
    decreases |b|
  {
    if |b| == 0 {
      assert a + b == a;
    } else {
      var b' := b[..|b| - 1];
      assert (a + b)[..|a + b| - 1] == a + b';
      ConcatCounts(a, b', u);
    }
  }

  /** A customer with nothing unread addressed to them sees no badge,
      however many broadcasts or other customers' notices are unread. */
  lemma {:induction false} UnreadOfIsZeroWithoutOwnUnread(ns: seq<Notification>, u: UserId)
    requires forall k :: 0 <= k < |ns| ==> ns[k].read || ns[k].recipient != Some(u)
    ensures UnreadOf(ns, u) == 0
    decreases |ns|
  {
    if |ns| > 0 {
      UnreadOfIsZeroWithoutOwnUnread(ns[..|ns| - 1], u);
    }
  }

  /** Marking every notification read clears every badge. */
  lemma {:induction false} AllReadMeansNoBadge(ns: seq<Notification>, viewer: Viewer)
    requires forall k :: 0 <= k < |ns| ==> ns[k].read
    ensures UnreadCount(ns, viewer) == 0
    decreases |ns|
  {
    if |ns| > 0 {
      AllReadMeansNoBadge(ns[..|ns| - 1], viewer);
      AllReadMeansNoBadge(ns[..|ns| - 1], Authenticated(0, true));
      if viewer.Authenticated? {
        AllReadMeansNoBadge(ns[..|ns| - 1], Authenticated(viewer.user, false));
      }
    }
  }
}
