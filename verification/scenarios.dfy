/** Properties that span several operations: what a booking does to the
    badges, and how an uploaded proof shields an order from the sweep. */
module Scenarios {
  import opened Wrappers
  import opened Models
  import opened Ledger
  import opened Signals
  import opened Views
  import opened Admin
  import opened Utils
  import opened Notices

  /** The two order-creation notices raise the staff badge by two, the
      booking customer's badge by one, and no other customer's badge. */
  lemma OrderNoticesBadges(ns: seq<Notification>, user: UserId, other: UserId)
    requires other != user
    ensures var after := ns + OrderSavedNotifications(true, user);
      && UnreadCount(after, Authenticated(user, true)) == UnreadCount(ns, Authenticated(user, true)) + 2
      && UnreadCount(after, Authenticated(user, false)) == UnreadCount(ns, Authenticated(user, false)) + 1
      && UnreadCount(after, Authenticated(other, false)) == UnreadCount(ns, Authenticated(other, false))
  {
    var added := OrderSavedNotifications(true, user);
    AddedCounts(user, other);
    ConcatCounts(ns, added, user);
    ConcatCounts(ns, added, other);
    CustomerCountBelowStaffCount(ns + added, user);
  }

  /** The counts of the two order-creation notices on their own. */
  lemma AddedCounts(user: UserId, other: UserId)
    requires other != user
    ensures UnreadAll(OrderSavedNotifications(true, user)) == 2
    ensures UnreadOf(OrderSavedNotifications(true, user), user) == 1
    ensures UnreadOf(OrderSavedNotifications(true, user), other) == 0
  {
    var added := OrderSavedNotifications(true, user);
    assert added[..1] == [NewOrderNotice()];
    assert added[..1][..0] == [];
    assert UnreadOf(added[..1], user) == 0 && UnreadOf(added[..1], other) == 0;
    assert added[1] == OrderPlacedNotice(user);
  }

  /** A successful booking raises the staff badge by two, the booking
      customer's badge by one, and no other customer's badge. */
  lemma BookRaisesBadges(s: Store, user: UserId, paketId: PackageId, jumlah: nat, tglPasang: int, now: int, other: UserId)
    requires Book(s, user, paketId, jumlah, tglPasang, now).1.Ok?
    requires other != user
    ensures var ns := Book(s, user, paketId, jumlah, tglPasang, now).0.notifications;
      && UnreadCount(ns, Authenticated(user, true)) == UnreadCount(s.notifications, Authenticated(user, true)) + 2
      && UnreadCount(ns, Authenticated(user, false)) == UnreadCount(s.notifications, Authenticated(user, false)) + 1
      && UnreadCount(ns, Authenticated(other, false)) == UnreadCount(s.notifications, Authenticated(other, false))
  {
    var ns := Book(s, user, paketId, jumlah, tglPasang, now).0.notifications;
    assert ns == s.notifications + OrderSavedNotifications(true, user);
    OrderNoticesBadges(s.notifications, user, other);
  }

  /** Once its proof is uploaded an order is never cancelled by the sweep,
      however old it is. */
  lemma UploadedProofSurvivesSweep(s: Store, id: OrderId, requester: UserId, file: Option<ProofFile>, now: int)
    requires UploadProof(s, id, requester, file).1.Pass?
    ensures var r := UploadProof(s, id, requester, file).0;
      Sweep(r, now).0.orders[id] == s.orders[id]
  {
  }

  /** A freshly booked order is not swept within its first two hours. */
  lemma FreshBookingSurvivesSweep(s: Store, user: UserId, paketId: PackageId, jumlah: nat, tglPasang: int, now: int, later: int)
    requires Book(s, user, paketId, jumlah, tglPasang, now).1.Ok?
    requires later <= now + EXPIRY_WINDOW
    ensures var r := Book(s, user, paketId, jumlah, tglPasang, now).0;
      Sweep(r, later).0.orders[|s.orders|].status == OrderStatus.Pending
  {
  }

  /** A status edit keeps a store whose payments and package links point at
      existing rows that way. */
  lemma EditKeepsValid(s: Store, id: OrderId, newStatus: OrderStatus)
    requires Valid(s)
    ensures Valid(SaveOrderEdit(s, id, newStatus).0)
  {
  }

  /** Bulk verification keeps the store's references valid. */
  lemma VerifyBatchKeepsValid(s: Store, batch: set<OrderId>)
    requires Valid(s) && forall j :: j in batch ==> j < |s.orders|
    ensures Valid(VerifyBatch(s, batch).0)
  {
  }

  /** The expiry sweep keeps the store's references valid. */
  lemma SweepKeepsValid(s: Store, now: int)
    requires Valid(s)
    ensures Valid(Sweep(s, now).0)
  {
  }

  /** A proof upload keeps the store's references valid. */
  lemma UploadKeepsValid(s: Store, id: OrderId, requester: UserId, file: Option<ProofFile>)
    requires Valid(s)
    ensures Valid(UploadProof(s, id, requester, file).0)
  {
  }
}
