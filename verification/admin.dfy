/** Staff operations: editing an order's status (with the stock release or
    re-reservation it implies), the bulk payment-verification action, the
    "mark one unit broken" action, and the phone-number rewrite used to build
    WhatsApp links. */
module Admin {
  import opened Wrappers
  import opened Models
  import opened Ledger
  import opened Signals

  /** What a staff status edit reports back. */
  datatype EditReport =
    | OrderNotFound
    | StockReleased(units: nat)
    | StockReserved(units: nat)
    | ReactivationRefused
    | NoStockChange

  /** Order `id` with its status replaced. */
  function WithStatus(s: Store, id: OrderId, status: OrderStatus): (r: Store)
    requires id < |s.orders|
    ensures r.orders == s.orders[id := s.orders[id].(status := status)]
    ensures r.packages == s.packages && r.payments == s.payments
    ensures r.customers == s.customers && r.notifications == s.notifications
  {
    s.(orders := s.orders[id := s.orders[id].(status := status)])
  }

  /** Staff save of an existing order whose status is set to `newStatus`.
      Leaving the active states returns the first detail line's quantity to
      the package; entering them again takes it back, but only if the shelf
      covers it, and otherwise the old status is kept. Orders without a
      detail line or without a package change status with no stock effect. */
  function SaveOrderEdit(s: Store, id: OrderId, newStatus: OrderStatus): (out: (Store, EditReport))
    ensures id >= |s.orders| <==> out.1 == OrderNotFound
    ensures out.1 == OrderNotFound ==> out.0 == s
    ensures id < |s.orders| ==>
      var o := s.orders[id];
      var r := out.0;
      && r.payments == s.payments && r.customers == s.customers && r.notifications == s.notifications
      && r.packages.Keys == s.packages.Keys
      && |r.orders| == |s.orders|
      && (forall j :: 0 <= j < |s.orders| && j != id ==> r.orders[j] == s.orders[j])
      && (out.1 == ReactivationRefused <==>
            !o.status.Active() && newStatus.Active() && Linked(s, o)
            && s.packages[o.paket.value].stok < o.details[0].jumlah)
      && (out.1 == ReactivationRefused ==> r == s)
      && (out.1 != ReactivationRefused ==> r.orders[id] == o.(status := newStatus))
      && (o.status.Active() && !newStatus.Active() && Linked(s, o) ==>
            out.1 == StockReleased(o.details[0].jumlah)
            && r.packages[o.paket.value].stok == s.packages[o.paket.value].stok + o.details[0].jumlah)
      && (out.1.StockReserved? ==>
            !o.status.Active() && newStatus.Active() && Linked(s, o)
            && r.packages[o.paket.value].stok + o.details[0].jumlah == s.packages[o.paket.value].stok)
      && (out.1 == NoStockChange ==> r.packages == s.packages)
      && (!o.status.Active() && newStatus.Active() && Linked(s, o)
            && s.packages[o.paket.value].stok >= o.details[0].jumlah ==>
            out.1 == StockReserved(o.details[0].jumlah))
      && (out.1.StockReleased? ==>
            Linked(s, o) && r.packages == Restock(s.packages, o.paket.value, o.details[0].jumlah))
      && (out.1.StockReserved? ==>
            Linked(s, o) && s.packages[o.paket.value].stok >= o.details[0].jumlah
            && r.packages == Withdraw(s.packages, o.paket.value, o.details[0].jumlah))
      && (o.status.Active() == newStatus.Active() || !Linked(s, o) ==> out.1 == NoStockChange)
  {
    if id >= |s.orders| then (s, OrderNotFound)
    else
      var o := s.orders[id];
      var saved := WithStatus(s, id, newStatus);
      if o.status.Active() && !newStatus.Active() && Linked(s, o) then
        var n := o.details[0].jumlah;
        (saved.(packages := Restock(s.packages, o.paket.value, n)), StockReleased(n))
      else if !o.status.Active() && newStatus.Active() && Linked(s, o) then
        var n := o.details[0].jumlah;
        if s.packages[o.paket.value].stok >= n then
          (saved.(packages := Withdraw(s.packages, o.paket.value, n)), StockReserved(n))
        else
          (s, ReactivationRefused)
      else
        (saved, NoStockChange)
  }

  /** Every staff edit keeps every package's stock ceiling: the shelf stock
      plus the order's holding is the same before and after. */
  lemma EditConservesStock(s: Store, id: OrderId, newStatus: OrderStatus)
    ensures var r := SaveOrderEdit(s, id, newStatus).0;
      forall p :: p in s.packages ==> p in r.packages && Ceiling(r, p) == Ceiling(s, p)
  {
    var out := SaveOrderEdit(s, id, newStatus);
    var r := out.0;
    if id < |s.orders| && out.1 != ReactivationRefused {
      var o := s.orders[id];
      forall p | p in s.packages
        ensures Ceiling(r, p) == Ceiling(s, p)
      {
        HeldUpdate(s.orders, id, o.(status := newStatus), p);
        assert r.orders == s.orders[id := o.(status := newStatus)];
      }
    }
  }

  /** The order-level statement of conservation: for an order with a detail
      line and a package, shelf stock plus the order's own holding is fixed
      by an edit, and the stock never goes below zero. */
  lemma EditConservesOrderHolding(s: Store, id: OrderId, newStatus: OrderStatus)
    requires id < |s.orders| && Linked(s, s.orders[id])
    ensures var r := SaveOrderEdit(s, id, newStatus).0;
      var p := s.orders[id].paket.value;
      r.packages[p].stok + Contribution(r.orders[id], p) == s.packages[p].stok + Contribution(s.orders[id], p)
  {
  }

  /** An order the bulk action verifies: pending, with a paid payment. */
  predicate Verifiable(s: Store, id: OrderId) {
    id < |s.orders| && s.orders[id].status == OrderStatus.Pending
    && id in s.payments && s.payments[id].status == Paid
  }

  /** The bulk action's work on one order it verifies: the payment becomes
      verified and the order confirmed, in one step, and the customer is told. */
  function VerifyOne(s: Store, id: OrderId): (r: Store)
    requires Verifiable(s, id)
    ensures r.packages == s.packages && r.customers == s.customers
    ensures r.orders == s.orders[id := s.orders[id].(status := Confirmed)]
    ensures r.payments == s.payments[id := s.payments[id].(status := Verified)]
    ensures r.notifications == s.notifications + [PaymentVerifiedNotice(s.orders[id].owner)]
  {
    var owner := s.orders[id].owner;
    s.(orders := s.orders[id := s.orders[id].(status := Confirmed)],
       payments := s.payments[id := s.payments[id].(status := Verified)],
       notifications := s.notifications + PaymentNotifications(Some(Paid), Verified, owner))
  }

  /** The order ids at or above `i` that the bulk action selected. */
  function SelectedFrom(batch: set<OrderId>, i: nat, n: nat): set<OrderId> {
    set j | j in batch && i <= j < n
  }

  /** The selected order ids at or above `i` that are pending with a paid payment. */
  function VerifiableFrom(s: Store, batch: set<OrderId>, i: nat): set<OrderId> {
    set j | j in batch && i <= j < |s.orders| && Verifiable(s, j)
  }

  /** The bulk action's walk over the selected orders `batch`, from order id
      `i` upward: verifiable orders are verified, the others counted as
      skipped. Returns the store and the verified and skipped counts. */
  function VerifyFrom(s: Store, batch: set<OrderId>, i: nat): (out: (Store, nat, nat))
    requires i <= |s.orders|
    ensures out.0.packages == s.packages && out.0.customers == s.customers
    ensures |out.0.orders| == |s.orders| && out.0.payments.Keys == s.payments.Keys
    ensures |out.0.notifications| == |s.notifications| + out.1
    ensures out.0.notifications[..|s.notifications|] == s.notifications
    decreases |s.orders| - i
  {
    if i == |s.orders| then (s, 0, 0)
    else if i in batch && Verifiable(s, i) then
      var out := VerifyFrom(VerifyOne(s, i), batch, i + 1);
      (out.0, out.1 + 1, out.2)
    else if i in batch then
      var out := VerifyFrom(s, batch, i + 1);
      (out.0, out.1, out.2 + 1)
    else
      VerifyFrom(s, batch, i + 1)
  }

  /** Verifying order `i` leaves every other order's eligibility alone. */
  lemma VerifyOneKeepsOthers(s: Store, i: OrderId, batch: set<OrderId>)
    requires Verifiable(s, i)
    ensures VerifiableFrom(VerifyOne(s, i), batch, i + 1) == VerifiableFrom(s, batch, i + 1)
    ensures forall j :: j != i ==> Verifiable(VerifyOne(s, i), j) == Verifiable(s, j)
  {
  }

  /** Peeling order `i` off the eligible selection at or above `i`. */
  lemma VerifiableFromStep(s: Store, batch: set<OrderId>, i: nat)
    requires i < |s.orders|
    ensures i !in VerifiableFrom(s, batch, i + 1)
    ensures i in batch && Verifiable(s, i) ==> VerifiableFrom(s, batch, i) == VerifiableFrom(s, batch, i + 1) + {i}
    ensures !(i in batch && Verifiable(s, i)) ==> VerifiableFrom(s, batch, i) == VerifiableFrom(s, batch, i + 1)
  {
  }

  /** What the walk does to orders: exactly the selected orders at or above
      `i` that are pending with a paid payment become confirmed; nothing
      else changes. */
  lemma {:induction false} VerifyFromOrders(s: Store, batch: set<OrderId>, i: nat)
    requires i <= |s.orders|
    ensures forall j :: 0 <= j < |s.orders| ==>
      VerifyFrom(s, batch, i).0.orders[j] == if j in VerifiableFrom(s, batch, i) then s.orders[j].(status := Confirmed) else s.orders[j]
    decreases |s.orders| - i
  {
    if i < |s.orders| {
      VerifiableFromStep(s, batch, i);
      if i in batch && Verifiable(s, i) {
        var s1 := VerifyOne(s, i);
        VerifyFromOrders(s1, batch, i + 1);
        VerifyOneKeepsOthers(s, i, batch);
        var r := VerifyFrom(s, batch, i).0;
        assert r == VerifyFrom(s1, batch, i + 1).0;
        forall j | 0 <= j < |s.orders|
          ensures r.orders[j] == if j in VerifiableFrom(s, batch, i) then s.orders[j].(status := Confirmed) else s.orders[j]
        {
          if j == i {
            assert i !in VerifiableFrom(s1, batch, i + 1);
          }
        }
      } else {
        VerifyFromOrders(s, batch, i + 1);
      }
    }
  }

  /** What the walk does to payments: exactly those of the selected orders
      at or above `i` that are pending with a paid payment become verified;
      nothing else changes. */
  lemma {:induction false} VerifyFromPayments(s: Store, batch: set<OrderId>, i: nat)
    requires i <= |s.orders|
    ensures forall j :: j in s.payments ==>
      VerifyFrom(s, batch, i).0.payments[j] == if j in VerifiableFrom(s, batch, i) then s.payments[j].(status := Verified) else s.payments[j]
    decreases |s.orders| - i
  {
    if i < |s.orders| {
      VerifiableFromStep(s, batch, i);
      if i in batch && Verifiable(s, i) {
        var s1 := VerifyOne(s, i);
        VerifyFromPayments(s1, batch, i + 1);
        VerifyOneKeepsOthers(s, i, batch);
        var r := VerifyFrom(s, batch, i).0;
        assert r == VerifyFrom(s1, batch, i + 1).0;
        forall j | j in s.payments
          ensures r.payments[j] == if j in VerifiableFrom(s, batch, i) then s.payments[j].(status := Verified) else s.payments[j]
        {
          if j == i {
            assert i !in VerifiableFrom(s1, batch, i + 1);
          }
        }
      } else {
        VerifyFromPayments(s, batch, i + 1);
      }
    }
  }

  /** The walk's verified count is the number of selected orders that were
      pending with a paid payment. */
  lemma {:induction false} VerifyFromVerifiedCount(s: Store, batch: set<OrderId>, i: nat)
    requires i <= |s.orders|
    ensures VerifyFrom(s, batch, i).1 == |VerifiableFrom(s, batch, i)|
    decreases |s.orders| - i
  {
    if i < |s.orders| {
      VerifiableFromStep(s, batch, i);
      if i in batch && Verifiable(s, i) {
        var s1 := VerifyOne(s, i);
        VerifyFromVerifiedCount(s1, batch, i + 1);
        VerifyOneKeepsOthers(s, i, batch);
        assert VerifyFrom(s, batch, i).1 == VerifyFrom(s1, batch, i + 1).1 + 1;
      } else {
        VerifyFromVerifiedCount(s, batch, i + 1);
      }
    }
  }

  /** The walk's verified and skipped counts add up to the number of
      selected orders it visits. */
  lemma {:induction false} VerifyFromVisitCount(s: Store, batch: set<OrderId>, i: nat)
    requires i <= |s.orders|
    ensures VerifyFrom(s, batch, i).1 + VerifyFrom(s, batch, i).2 == |SelectedFrom(batch, i, |s.orders|)|
    decreases |s.orders| - i
  {
    var n := |s.orders|;
    if i < n {
      SelectedFromStep(batch, i, n);
      if i in batch && Verifiable(s, i) {
        VerifyFromVisitCount(VerifyOne(s, i), batch, i + 1);
      } else {
        VerifyFromVisitCount(s, batch, i + 1);
      }
    }
  }

  /** Peeling id `i` off the selection between `i` and `n`. */
  lemma SelectedFromStep(batch: set<OrderId>, i: nat, n: nat)
    requires i < n
    ensures i in batch ==> |SelectedFrom(batch, i, n)| == |SelectedFrom(batch, i + 1, n)| + 1
    ensures i !in batch ==> SelectedFrom(batch, i, n) == SelectedFrom(batch, i + 1, n)
  {
    if i in batch {
      assert i !in SelectedFrom(batch, i + 1, n);
      assert SelectedFrom(batch, i, n) == SelectedFrom(batch, i + 1, n) + {i};
    }
  }

  /** The acceptance notices for the selected orders at or above `i` that
      are pending with a paid payment, one per order, in order-id order:
      the reference the walk is checked against. */
  function VerifiedNotices(s: Store, batch: set<OrderId>, i: nat): seq<Notification>
    requires i <= |s.orders|
    decreases |s.orders| - i
  {
    if i == |s.orders| then []
    else if i in batch && Verifiable(s, i) then [PaymentVerifiedNotice(s.orders[i].owner)] + VerifiedNotices(s, batch, i + 1)
    else VerifiedNotices(s, batch, i + 1)
  }

  /** The reference notices depend only on the orders at or above `i` and
      on the payments of those orders. */
  lemma {:induction false} VerifiedNoticesAgree(s: Store, t: Store, batch: set<OrderId>, i: nat)
    requires i <= |s.orders| == |t.orders|
    requires forall j :: i <= j < |s.orders| ==> s.orders[j] == t.orders[j]
    requires forall j :: i <= j < |s.orders| ==> (j in s.payments <==> j in t.payments)
    requires forall j :: i <= j < |s.orders| && j in s.payments ==> s.payments[j] == t.payments[j]
    ensures VerifiedNotices(s, batch, i) == VerifiedNotices(t, batch, i)
    decreases |s.orders| - i
  {
    if i < |s.orders| {
      assert Verifiable(s, i) == Verifiable(t, i);
      VerifiedNoticesAgree(s, t, batch, i + 1);
    }
  }

  /** The walk appends exactly the reference notices. */
  lemma {:induction false} VerifyFromNotices(s: Store, batch: set<OrderId>, i: nat)
    requires i <= |s.orders|
    ensures VerifyFrom(s, batch, i).0.notifications == s.notifications + VerifiedNotices(s, batch, i)
    decreases |s.orders| - i
  {
    if i < |s.orders| {
      if i in batch && Verifiable(s, i) {
        var s1 := VerifyOne(s, i);
        VerifyFromNotices(s1, batch, i + 1);
        VerifiedNoticesAgree(s1, s, batch, i + 1);
      } else {
        VerifyFromNotices(s, batch, i + 1);
      }
    } else {
      assert s.notifications + [] == s.notifications;
    }
  }

  /** Each reference notice tells the owner of a verified order that the
      payment was accepted. */
  lemma {:induction false} VerifiedNoticesShape(s: Store, batch: set<OrderId>, i: nat)
    requires i <= |s.orders|
    ensures forall n :: n in VerifiedNotices(s, batch, i) ==>
      exists j :: j in VerifiableFrom(s, batch, i) && n == PaymentVerifiedNotice(s.orders[j].owner)
    decreases |s.orders| - i
  {
    if i < |s.orders| {
      VerifiedNoticesShape(s, batch, i + 1);
      if i in batch && Verifiable(s, i) {
        assert i in VerifiableFrom(s, batch, i);
      }
    }
  }

  /** The staff bulk payment verification over the selected orders `batch`.
      Exactly the pending orders with a paid payment are verified (payment
      verified, order confirmed, customer told); every other selected order
      is counted as skipped and left alone; stock is never touched. */
  function VerifyBatch(s: Store, batch: set<OrderId>): (out: (Store, nat, nat))
    requires forall j :: j in batch ==> j < |s.orders|
    ensures out.0.packages == s.packages && out.0.customers == s.customers
    ensures |out.0.orders| == |s.orders| && out.0.payments.Keys == s.payments.Keys
    ensures forall j :: 0 <= j < |s.orders| ==>
      out.0.orders[j] == if j in batch && Verifiable(s, j) then s.orders[j].(status := Confirmed) else s.orders[j]
    ensures forall j :: j in s.payments ==>
      out.0.payments[j] == if j in batch && Verifiable(s, j) then s.payments[j].(status := Verified) else s.payments[j]
    ensures out.1 == |set j | j in batch && Verifiable(s, j)|
    ensures out.1 + out.2 == |batch|
    ensures |out.0.notifications| == |s.notifications| + out.1
    ensures out.0.notifications == s.notifications + VerifiedNotices(s, batch, 0)
  {
    VerifyFromOrders(s, batch, 0);
    VerifyFromPayments(s, batch, 0);
    VerifyFromVerifiedCount(s, batch, 0);
    VerifyFromVisitCount(s, batch, 0);
    VerifyFromNotices(s, batch, 0);
    assert SelectedFrom(batch, 0, |s.orders|) == batch;
    assert VerifiableFrom(s, batch, 0) == set j | j in batch && Verifiable(s, j);
    VerifyFrom(s, batch, 0)
  }

  /** Bulk verification keeps every stock ceiling: it touches no stock, and
      pending and confirmed orders hold the same units. */
  lemma VerifyBatchConservesStock(s: Store, batch: set<OrderId>)
    requires forall j :: j in batch ==> j < |s.orders|
    ensures var r := VerifyBatch(s, batch).0;
      forall p :: p in s.packages ==> p in r.packages && Ceiling(r, p) == Ceiling(s, p)
  {
    var r := VerifyBatch(s, batch).0;
    forall p | p in s.packages
      ensures Ceiling(r, p) == Ceiling(s, p)
    {
      HeldPointwise(r.orders, s.orders, p);
    }
  }

  /** Running the action again on the same selection verifies nothing and
      changes nothing: every order it verified is now confirmed. */
  lemma VerifyBatchSettles(s: Store, batch: set<OrderId>)
    requires forall j :: j in batch ==> j < |s.orders|
    ensures var r := VerifyBatch(s, batch).0;
      VerifyBatch(r, batch).1 == 0 && VerifyBatch(r, batch).0 == r
  {
    var r := VerifyBatch(s, batch).0;
    assert forall j :: j in batch ==> !Verifiable(r, j);
    NothingEligibleChangesNothing(r, batch, 0);
  }

  /** With no eligible order left at or above `i`, the walk changes nothing. */
  lemma {:induction false} NothingEligibleChangesNothing(s: Store, batch: set<OrderId>, i: nat)
    requires i <= |s.orders|
    requires forall j :: i <= j < |s.orders| && j in batch ==> !Verifiable(s, j)
    ensures VerifyFrom(s, batch, i).0 == s && VerifyFrom(s, batch, i).1 == 0
    decreases |s.orders| - i
  {
    if i < |s.orders| {
      NothingEligibleChangesNothing(s, batch, i + 1);
    }
  }

  /** A package after one of its units is marked broken: one unit fewer,
      unless none is left. */
  function BreakOne(pk: Package): (r: Package)
    ensures pk.stok > 0 ==> r.stok + 1 == pk.stok
    ensures pk.stok == 0 ==> r == pk
    ensures r.harga == pk.harga
  {
    if pk.stok > 0 then pk.(stok := pk.stok - 1) else pk
  }

  /** The packages after each of `done` had one unit marked broken. */
  function Broken(packages: map<PackageId, Package>, done: set<PackageId>): map<PackageId, Package> {
    map q | q in packages :: if q in done then BreakOne(packages[q]) else packages[q]
  }

  /** The selected packages that still have a unit to mark broken. */
  function Decrementable(packages: map<PackageId, Package>, selection: set<PackageId>): set<PackageId> {
    set p | p in selection && p in packages && packages[p].stok > 0
  }

  /** Handling one more package extends both the result and the count by that package. */
  lemma BrokenGrows(packages: map<PackageId, Package>, done: set<PackageId>, p: PackageId)
    requires p in packages && p !in done
    ensures Broken(packages, done + {p}) == Broken(packages, done)[p := BreakOne(packages[p])]
    ensures packages[p].stok > 0 ==> |Decrementable(packages, done + {p})| == |Decrementable(packages, done)| + 1
    ensures packages[p].stok == 0 ==> Decrementable(packages, done + {p}) == Decrementable(packages, done)
  {
    if packages[p].stok > 0 {
      assert Decrementable(packages, done + {p}) == Decrementable(packages, done) + {p};
    }
  }

  /** The loop of the "mark one unit broken" action: every package of
      `selection` is handled once, and the packages decremented are counted. */
  method BreakUnits(packages: map<PackageId, Package>, selection: set<PackageId>)
    returns (result: map<PackageId, Package>, updated: nat)
    requires selection <= packages.Keys
    ensures result == Broken(packages, selection)
    ensures updated == |Decrementable(packages, selection)|
  {
    result := packages;
    var remaining := selection;
    updated := 0;
    while remaining != {}
      invariant remaining <= selection
      invariant result == Broken(packages, selection - remaining)
      invariant updated == |Decrementable(packages, selection - remaining)|
      decreases remaining
    {
      var p :| p in remaining;
      ghost var done := selection - remaining;
      BrokenGrows(packages, done, p);
      assert selection - (remaining - {p}) == done + {p};
      if result[p].stok > 0 {
        result := result[p := BreakOne(result[p])];
        updated := updated + 1;
      }
      remaining := remaining - {p};
    }
    assert selection - remaining == selection;
  }

  /** The "mark one unit broken" action over the selected packages: each
      selected package with stock left loses one unit, the others are
      untouched, and the number of packages changed is returned. */
  method MarkUnitsAsBroken(s: Store, selection: set<PackageId>) returns (r: Store, updated: nat)
    requires selection <= s.packages.Keys
    ensures r == s.(packages := r.packages)
    ensures r.packages.Keys == s.packages.Keys
    ensures forall p :: p in s.packages ==>
      r.packages[p] == if p in selection && s.packages[p].stok > 0
                       then s.packages[p].(stok := s.packages[p].stok - 1)
                       else s.packages[p]
    ensures updated == |Decrementable(s.packages, selection)|
    ensures forall p :: p in s.packages ==>
      Ceiling(r, p) == Ceiling(s, p) - (if p in selection && s.packages[p].stok > 0 then 1 else 0)
  {
    var packages;
    packages, updated := BreakUnits(s.packages, selection);
    r := s.(packages := packages);
  }

  /** The WhatsApp phone rewrite: a leading '0' becomes the country code "62". */
  function NormalisePhone(phone: string): (r: string)
    ensures |phone| > 0 && phone[0] == '0' ==> r == "62" + phone[1..]
    ensures !(|phone| > 0 && phone[0] == '0') ==> r == phone
    ensures |r| > 0 ==> r[0] != '0'
  {
    if |phone| > 0 && phone[0] == '0' then "62" + phone[1..] else phone
  }

  /** Rewriting an already rewritten number changes nothing. */
  lemma NormalisePhoneIdempotent(phone: string)
    ensures NormalisePhone(NormalisePhone(phone)) == NormalisePhone(phone)
  {
  }
}
