/** The expiry sweep that cancels stale unpaid orders and returns their
    stock, and the six-month window of the staff dashboard. */
module Utils {
  import opened Wrappers
  import opened Models
  import opened Ledger

  /** How long a pending order may wait for payment proof: two hours. */
  const EXPIRY_WINDOW: int := 2 * 60 * 60

  const EXPIRED_TITLE: string := "Pesanan Dibatalkan"

  /** The customer's notice that their order was cancelled for non-payment. */
  function ExpiryNotice(owner: UserId): Notification {
    Notification(Some(owner), Warning, EXPIRED_TITLE, false)
  }

  /** The order's payment carries an uploaded proof. */
  predicate HasProof(s: Store, id: OrderId) {
    id in s.payments && s.payments[id].hasProof
  }

  /** The sweep's selection at time `now`: pending, created strictly more
      than two hours ago, and without payment proof. */
  predicate Expired(s: Store, now: int, id: OrderId) {
    id < |s.orders| && s.orders[id].status == OrderStatus.Pending
    && s.orders[id].createdAt < now - EXPIRY_WINDOW && !HasProof(s, id)
  }

  /** The selected order ids at or above `i`. */
  function ExpiredFrom(s: Store, now: int, i: nat): set<OrderId> {
    set j | i <= j < |s.orders| && Expired(s, now, j)
  }

  /** The sweep's work on one selected order: its first detail line's
      quantity goes back to its package (when it has both), it becomes
      cancelled, and its customer is told. */
  function CancelOne(s: Store, i: OrderId): (r: Store)
    requires i < |s.orders|
    ensures r.orders == s.orders[i := s.orders[i].(status := Cancelled)]
    ensures r.payments == s.payments && r.customers == s.customers
    ensures r.notifications == s.notifications + [ExpiryNotice(s.orders[i].owner)]
    ensures r.packages == if Linked(s, s.orders[i])
                          then Restock(s.packages, s.orders[i].paket.value, s.orders[i].details[0].jumlah)
                          else s.packages
  {
    var o := s.orders[i];
    var packages := if Linked(s, o) then Restock(s.packages, o.paket.value, o.details[0].jumlah) else s.packages;
    Store(packages, s.orders[i := o.(status := Cancelled)], s.payments, s.customers,
          s.notifications + [ExpiryNotice(o.owner)])
  }

  /** Cancelling a pending order keeps every stock ceiling: whatever it
      held goes back on the shelf. */
  lemma CancelOneConserves(s: Store, i: OrderId)
    requires i < |s.orders| && s.orders[i].status.Active()
    ensures forall p :: p in s.packages ==> Ceiling(CancelOne(s, i), p) == Ceiling(s, p)
  {
    var r := CancelOne(s, i);
    var o := s.orders[i];
    forall p | p in s.packages
      ensures Ceiling(r, p) == Ceiling(s, p)
    {
      HeldUpdate(s.orders, i, o.(status := Cancelled), p);
    }
  }

  /** Cancelling order `i` does not change which other orders are selected. */
  lemma CancelOneKeepsOthers(s: Store, now: int, i: OrderId)
    requires i < |s.orders|
    ensures ExpiredFrom(CancelOne(s, i), now, i + 1) == ExpiredFrom(s, now, i + 1)
  {
  }

  /** The sweep's walk over orders from id `i` upward. Returns the store and
      the number of orders cancelled. */
  function SweepFrom(s: Store, now: int, i: nat): (out: (Store, nat))
    requires i <= |s.orders|
    ensures |out.0.orders| == |s.orders| && out.0.packages.Keys == s.packages.Keys
    ensures out.0.payments == s.payments && out.0.customers == s.customers
    ensures forall q :: q in s.packages ==> out.0.packages[q].harga == s.packages[q].harga
    ensures |out.0.notifications| == |s.notifications| + out.1
    ensures out.0.notifications[..|s.notifications|] == s.notifications
    decreases |s.orders| - i
  {
    if i == |s.orders| then (s, 0)
    else if Expired(s, now, i) then
      var out := SweepFrom(CancelOne(s, i), now, i + 1);
      (out.0, out.1 + 1)
    else
      SweepFrom(s, now, i + 1)
  }

  /** What the walk does to orders: exactly the selected ones at or above
      `i` become cancelled; nothing else changes. */
  lemma {:induction false} SweepFromEffect(s: Store, now: int, i: nat)
    requires i <= |s.orders|
    ensures forall j :: 0 <= j < |s.orders| ==>
      SweepFrom(s, now, i).0.orders[j] == if j in ExpiredFrom(s, now, i) then s.orders[j].(status := Cancelled) else s.orders[j]
    decreases |s.orders| - i
  {
    if i < |s.orders| {
      if Expired(s, now, i) {
        var s1 := CancelOne(s, i);
        SweepFromEffect(s1, now, i + 1);
        CancelOneKeepsOthers(s, now, i);
        assert ExpiredFrom(s, now, i) == ExpiredFrom(s, now, i + 1) + {i};
      } else {
        SweepFromEffect(s, now, i + 1);
        assert ExpiredFrom(s, now, i) == ExpiredFrom(s, now, i + 1);
      }
    }
  }

  /** Peeling order `i` off the selection at or above `i`. */
  lemma ExpiredFromStep(s: Store, now: int, i: nat)
    requires i < |s.orders|
    ensures i !in ExpiredFrom(s, now, i + 1)
    ensures Expired(s, now, i) ==> ExpiredFrom(s, now, i) == ExpiredFrom(s, now, i + 1) + {i}
    ensures !Expired(s, now, i) ==> ExpiredFrom(s, now, i) == ExpiredFrom(s, now, i + 1)
  {
  }

  /** The walk's count is the number of orders it selects. */
  lemma {:induction false} SweepFromCount(s: Store, now: int, i: nat)
    requires i <= |s.orders|
    ensures SweepFrom(s, now, i).1 == |ExpiredFrom(s, now, i)|
    decreases |s.orders| - i
  {
    if i < |s.orders| {
      ExpiredFromStep(s, now, i);
      if Expired(s, now, i) {
        var s1 := CancelOne(s, i);
        SweepFromCount(s1, now, i + 1);
        CancelOneKeepsOthers(s, now, i);
        assert SweepFrom(s, now, i).1 == SweepFrom(s1, now, i + 1).1 + 1;
      } else {
        SweepFromCount(s, now, i + 1);
      }
    }
  }

  /** The expiry notices for the selected orders at or above `i`, one per
      order, in order-id order: the reference the walk is checked against. */
  function ExpiryNotices(s: Store, now: int, i: nat): seq<Notification>
    requires i <= |s.orders|
    decreases |s.orders| - i
  {
    if i == |s.orders| then []
    else if Expired(s, now, i) then [ExpiryNotice(s.orders[i].owner)] + ExpiryNotices(s, now, i + 1)
    else ExpiryNotices(s, now, i + 1)
  }

  /** The reference notices depend only on the orders at or above `i` and on
      the payments. */
  lemma {:induction false} ExpiryNoticesAgree(s: Store, t: Store, now: int, i: nat)
    requires i <= |s.orders| == |t.orders| && s.payments == t.payments
    requires forall j :: i <= j < |s.orders| ==> s.orders[j] == t.orders[j]
    ensures ExpiryNotices(s, now, i) == ExpiryNotices(t, now, i)
    decreases |s.orders| - i
  {
    if i < |s.orders| {
      assert Expired(s, now, i) == Expired(t, now, i);
      ExpiryNoticesAgree(s, t, now, i + 1);
    }
  }

  /** The walk appends exactly the reference notices. */
  lemma {:induction false} SweepFromNotices(s: Store, now: int, i: nat)
    requires i <= |s.orders|
    ensures SweepFrom(s, now, i).0.notifications == s.notifications + ExpiryNotices(s, now, i)
    decreases |s.orders| - i
  {
    if i < |s.orders| {
      if Expired(s, now, i) {
        var s1 := CancelOne(s, i);
        SweepFromNotices(s1, now, i + 1);
        ExpiryNoticesAgree(s1, s, now, i + 1);
      } else {
        SweepFromNotices(s, now, i + 1);
      }
    } else {
      assert s.notifications + [] == s.notifications;
    }
  }

  /** Each reference notice is a warning titled as a cancellation and
      addressed to the customer of a selected order. */
  lemma {:induction false} ExpiryNoticesShape(s: Store, now: int, i: nat)
    requires i <= |s.orders|
    ensures forall n :: n in ExpiryNotices(s, now, i) ==>
      n.kind == Warning && n.title == EXPIRED_TITLE && !n.read
      && exists j :: j in ExpiredFrom(s, now, i) && n.recipient == Some(s.orders[j].owner)
    decreases |s.orders| - i
  {
    if i < |s.orders| {
      ExpiryNoticesShape(s, now, i + 1);
      if Expired(s, now, i) {
        assert i in ExpiredFrom(s, now, i);
      }
    }
  }

  /** The walk keeps every stock ceiling. */
  lemma {:induction false} SweepFromConserves(s: Store, now: int, i: nat)
    requires i <= |s.orders|
    ensures forall p :: p in s.packages ==> Ceiling(SweepFrom(s, now, i).0, p) == Ceiling(s, p)
    decreases |s.orders| - i
  {
    if i < |s.orders| {
      if Expired(s, now, i) {
        var s1 := CancelOne(s, i);
        CancelOneConserves(s, i);
        SweepFromConserves(s1, now, i + 1);
      } else {
        SweepFromConserves(s, now, i + 1);
      }
    }
  }

  /** The expiry sweep at time `now`: every pending order created strictly
      more than two hours earlier whose payment has no proof is cancelled,
      its stock returned and its customer told; the number cancelled is
      returned. Nothing else changes. */
  function Sweep(s: Store, now: int): (out: (Store, nat))
    ensures |out.0.orders| == |s.orders| && out.0.packages.Keys == s.packages.Keys
    ensures out.0.payments == s.payments && out.0.customers == s.customers
    ensures forall q :: q in s.packages ==> out.0.packages[q].harga == s.packages[q].harga
    ensures forall j :: 0 <= j < |s.orders| ==>
      out.0.orders[j] == if Expired(s, now, j) then s.orders[j].(status := Cancelled) else s.orders[j]
    ensures out.1 == |set j | 0 <= j < |s.orders| && Expired(s, now, j)|
    ensures forall p :: p in s.packages ==> Ceiling(out.0, p) == Ceiling(s, p)
    ensures |out.0.notifications| == |s.notifications| + out.1
    ensures out.0.notifications[..|s.notifications|] == s.notifications
    ensures out.0.notifications == s.notifications + ExpiryNotices(s, now, 0)
  {
    SweepFromEffect(s, now, 0);
    SweepFromCount(s, now, 0);
    SweepFromNotices(s, now, 0);
    SweepFromConserves(s, now, 0);
    SweepFrom(s, now, 0)
  }

  /** The units the sweep should return to package `p` from the orders at
      or above `i`: the first detail line's quantity of every selected order
      that has a detail line and a package, when that package is `p`. */
  function ReleasedFrom(s: Store, now: int, i: nat, p: PackageId): nat
    requires i <= |s.orders|
    decreases |s.orders| - i
  {
    if i == |s.orders| then 0
    else
      var o := s.orders[i];
      var here := if Expired(s, now, i) && Linked(s, o) && o.paket == Some(p) then o.details[0].jumlah else 0;
      here + ReleasedFrom(s, now, i + 1, p)
  }

  /** The units to return depend only on the orders at or above `i`, the
      payments and which packages exist. */
  lemma {:induction false} ReleasedFromAgree(s: Store, t: Store, now: int, i: nat, p: PackageId)
    requires i <= |s.orders| == |t.orders| && s.payments == t.payments && s.packages.Keys == t.packages.Keys
    requires forall j :: i <= j < |s.orders| ==> s.orders[j] == t.orders[j]
    ensures ReleasedFrom(s, now, i, p) == ReleasedFrom(t, now, i, p)
    decreases |s.orders| - i
  {
    if i < |s.orders| {
      assert Expired(s, now, i) == Expired(t, now, i);
      assert Linked(s, s.orders[i]) == Linked(t, t.orders[i]);
      ReleasedFromAgree(s, t, now, i + 1, p);
    }
  }

  /** The walk raises package `p`'s stock by exactly the units to return. */
  lemma {:induction false} SweepFromStock(s: Store, now: int, i: nat, p: PackageId)
    requires i <= |s.orders| && p in s.packages
    ensures SweepFrom(s, now, i).0.packages[p].stok == s.packages[p].stok + ReleasedFrom(s, now, i, p)
    decreases |s.orders| - i
  {
    if i < |s.orders| {
      if Expired(s, now, i) {
        var s1 := CancelOne(s, i);
        SweepFromStock(s1, now, i + 1, p);
        ReleasedFromAgree(s1, s, now, i + 1, p);
      } else {
        SweepFromStock(s, now, i + 1, p);
      }
    }
  }

  /** Each package's stock rises by exactly the first-detail quantities of
      the cancelled orders on it; a package no cancelled order points at
      keeps its stock. */
  lemma SweepReturnsStock(s: Store, now: int, p: PackageId)
    requires p in s.packages
    ensures Sweep(s, now).0.packages[p].stok == s.packages[p].stok + ReleasedFrom(s, now, 0, p)
    ensures (forall j :: 0 <= j < |s.orders| && Expired(s, now, j) ==> s.orders[j].paket != Some(p))
            ==> Sweep(s, now).0.packages[p].stok == s.packages[p].stok
  {
    SweepFromStock(s, now, 0, p);
    if forall j :: 0 <= j < |s.orders| && Expired(s, now, j) ==> s.orders[j].paket != Some(p) {
      NothingReleased(s, now, 0, p);
    }
  }

  /** With no selected order on `p` at or above `i`, nothing is returned to `p`. */
  lemma {:induction false} NothingReleased(s: Store, now: int, i: nat, p: PackageId)
    requires i <= |s.orders|
    requires forall j :: i <= j < |s.orders| && Expired(s, now, j) ==> s.orders[j].paket != Some(p)
    ensures ReleasedFrom(s, now, i, p) == 0
    decreases |s.orders| - i
  {
    if i < |s.orders| {
      NothingReleased(s, now, i + 1, p);
    }
  }

  /** An order created exactly two hours before the sweep, or later, is
      left as it is. */
  lemma SweepSparesRecentOrders(s: Store, now: int, j: OrderId)
    requires j < |s.orders| && s.orders[j].createdAt >= now - EXPIRY_WINDOW
    ensures Sweep(s, now).0.orders[j] == s.orders[j]
  {
  }

  /** The sweep never takes stock away from a package. */
  lemma SweepOnlyReturnsStock(s: Store, now: int)
    ensures var r := Sweep(s, now).0;
      forall p :: p in s.packages ==> r.packages[p].stok >= s.packages[p].stok
  {
    var r := Sweep(s, now).0;
    forall p | p in s.packages
      ensures r.packages[p].stok >= s.packages[p].stok
    {
      HeldMonotone(r.orders, s.orders, p);
    }
  }

  /** A second sweep at the same time cancels nothing and changes nothing:
      every order the first one selected is no longer pending. */
  lemma SweepIdempotent(s: Store, now: int)
    ensures var r := Sweep(s, now).0;
      Sweep(r, now) == (r, 0)
  {
    var r := Sweep(s, now).0;
    assert forall j :: 0 <= j < |r.orders| ==> !Expired(r, now, j);
    assert (set j | 0 <= j < |r.orders| && Expired(r, now, j)) == {};
    var r2 := Sweep(r, now).0;
    assert r2.orders == r.orders;
    assert r2.notifications == r.notifications;
    SweepStockFixedWhenNothingSelected(r, now);
  }

  /** With nothing selected, the sweep leaves the stock alone. */
  lemma SweepStockFixedWhenNothingSelected(s: Store, now: int)
    requires forall j :: 0 <= j < |s.orders| ==> !Expired(s, now, j)
    ensures Sweep(s, now).0.packages == s.packages
  {
    var r := Sweep(s, now).0;
    forall p | p in s.packages
      ensures r.packages[p] == s.packages[p]
    {
      assert r.orders == s.orders;
      NoExpiryKeepsPackage(s, now, 0);
    }
  }

  lemma {:induction false} NoExpiryKeepsPackage(s: Store, now: int, i: nat)
    requires i <= |s.orders|
    requires forall j :: i <= j < |s.orders| ==> !Expired(s, now, j)
    ensures SweepFrom(s, now, i).0.packages == s.packages
    decreases |s.orders| - i
  {
    if i < |s.orders| {
      NoExpiryKeepsPackage(s, now, i + 1);
    }
  }

  /** The first day of a month as a single count of months since year 0. */
  function MonthIndex(month: int, year: int): int {
    year * 12 + (month - 1)
  }

  /** The six (month, year) pairs of the dashboard chart, oldest first,
      for a current month `month` of year `year`. */
  method DashboardMonths(month: int, year: int) returns (window: seq<(int, int)>)
    requires 1 <= month <= 12
    ensures |window| == 6
    ensures forall k :: 0 <= k < 6 ==> 1 <= window[k].0 <= 12
    ensures forall k :: 0 <= k < 6 ==> MonthIndex(window[k].0, window[k].1) == MonthIndex(month, year) - (5 - k)
    ensures forall k :: 0 <= k < 5 ==> MonthIndex(window[k + 1].0, window[k + 1].1) == MonthIndex(window[k].0, window[k].1) + 1
    ensures window[5] == (month, year)
  {
    window := [];
    var i := 5;
    while i >= 0
      invariant -1 <= i <= 5
      invariant |window| == 5 - i
      invariant forall k :: 0 <= k < |window| ==> 1 <= window[k].0 <= 12
      invariant forall k :: 0 <= k < |window| ==> MonthIndex(window[k].0, window[k].1) == MonthIndex(month, year) - (5 - k)
    {
      var m := month - i;
      var y := year;
      if m <= 0 {
        m := m + 12;
        y := y - 1;
      }
      window := window + [(m, y)];
      i := i - 1;
    }
  }
}
