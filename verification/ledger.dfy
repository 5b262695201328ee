/** The store every operation acts on, and the stock-conservation measure:
    for each package, the units on the shelf plus the units held by active
    orders on it. Every order transition keeps that sum fixed. */
module Ledger {
  import opened Wrappers
  import opened Models

  /** The whole persistent state: packages by id, orders by id (an order's id
      is its index; orders are never deleted here), at most one payment per
      order, the users that have a customer record, and the append-only
      notification log. */
  datatype Store = Store(
    packages: map<PackageId, Package>,
    orders: seq<Order>,
    payments: map<OrderId, Payment>,
    customers: set<UserId>,
    notifications: seq<Notification>)

  /** Payments belong to existing orders and orders point at existing
      packages. Booking, status edits, bulk verification, the sweep and proof
      upload keep it; "mark unit broken" changes only stock, so it keeps it
      too. The other properties of the model hold for every store, valid or not. */
  ghost predicate Valid(s: Store) {
    && (forall id :: id in s.payments ==> id < |s.orders|)
    && (forall j :: 0 <= j < |s.orders| && s.orders[j].paket.Some? ==> s.orders[j].paket.value in s.packages)
  }

  /** The order has a first detail line and a package that still exists:
      the condition under which a status change moves stock. */
  predicate Linked(s: Store, o: Order) {
    o.paket.Some? && o.paket.value in s.packages && |o.details| > 0
  }

  /** The units an order holds on package `p`. */
  function Contribution(o: Order, p: PackageId): nat {
    if o.status.Active() && o.paket == Some(p) && |o.details| > 0 then o.details[0].jumlah else 0
  }

  /** The units held on package `p` by all active orders. */
  function Held(orders: seq<Order>, p: PackageId): nat
  {
    if |orders| == 0 then 0
    else Held(orders[..|orders| - 1], p) + Contribution(orders[|orders| - 1], p)
  }

  /** The stock ceiling of package `p`: shelf stock plus units held by active orders. */
  function Ceiling(s: Store, p: PackageId): int
    requires p in s.packages
  {
    s.packages[p].stok + Held(s.orders, p)
  }

  /** `p`'s package with `n` units added to its stock. */
  function Restock(packages: map<PackageId, Package>, p: PackageId, n: nat): (r: map<PackageId, Package>)
    requires p in packages
    ensures r.Keys == packages.Keys
    ensures r[p].stok == packages[p].stok + n && r[p].harga == packages[p].harga
    ensures forall q :: q in packages && q != p ==> r[q] == packages[q]
  {
    packages[p := packages[p].(stok := packages[p].stok + n)]
  }

  /** `p`'s package with `n` units taken from its stock, which must cover them. */
  function Withdraw(packages: map<PackageId, Package>, p: PackageId, n: nat): (r: map<PackageId, Package>)
    requires p in packages && packages[p].stok >= n
    ensures r.Keys == packages.Keys
    ensures r[p].stok + n == packages[p].stok && r[p].harga == packages[p].harga
    ensures forall q :: q in packages && q != p ==> r[q] == packages[q]
  {
    packages[p := packages[p].(stok := packages[p].stok - n)]
  }

  /** Replacing one order changes the held total by the difference of the
      two orders' holdings. */
  lemma {:induction false} HeldUpdate(orders: seq<Order>, k: nat, o: Order, p: PackageId)
    requires k < |orders|
    ensures Held(orders[k := o], p) + Contribution(orders[k], p) == Held(orders, p) + Contribution(o, p)
    decreases |orders|
  {
    var n := |orders|;
    var updated := orders[k := o];
    if k == n - 1 {
      assert updated[..n - 1] == orders[..n - 1];
    } else {
      assert updated[..n - 1] == orders[..n - 1][k := o];
      HeldUpdate(orders[..n - 1], k, o, p);
    }
  }

  /** Appending an order adds exactly its holding. */
  lemma HeldAppend(orders: seq<Order>, o: Order, p: PackageId)
    ensures Held(orders + [o], p) == Held(orders, p) + Contribution(o, p)
  {
    assert (orders + [o])[..|orders|] == orders;
  }

  /** Two order lists holding the same units order by order hold the same total. */
  lemma {:induction false} HeldPointwise(a: seq<Order>, b: seq<Order>, p: PackageId)
    requires |a| == |b|
    requires forall j :: 0 <= j < |a| ==> Contribution(a[j], p) == Contribution(b[j], p)
    ensures Held(a, p) == Held(b, p)
    decreases |a|
  {
    if |a| > 0 {
      HeldPointwise(a[..|a| - 1], b[..|b| - 1], p);
    }
  }

  /** A list whose orders each hold no more than their counterparts holds
      no more in total. */
  lemma {:induction false} HeldMonotone(a: seq<Order>, b: seq<Order>, p: PackageId)
    requires |a| == |b|
    requires forall j :: 0 <= j < |a| ==> Contribution(a[j], p) <= Contribution(b[j], p)
    ensures Held(a, p) <= Held(b, p)
    decreases |a|
  {
    if |a| > 0 {
      HeldMonotone(a[..|a| - 1], b[..|b| - 1], p);
    }
  }
}
