/** The two customer-facing operations of the core: placing a booking
    (check stock, take it, create the order, its detail line and its
    payment) and uploading payment proof. Each runs as one atomic step. */
module Views {
  import opened Wrappers
  import opened Models
  import opened Ledger
  import opened Signals

  /** Why a booking did not go through. */
  datatype BookingError = PackageNotFound | InsufficientStock | CustomerNotFound

  /** The order a successful booking creates: pending, no shipping cost, one
      detail line priced at the package's current price. */
  function BookedOrder(owner: UserId, paketId: PackageId, paket: Package, jumlah: nat, tglPasang: int, now: int): Order {
    var draft := Order(owner, Some(paketId), tglPasang, 0, 0, DEFAULT_ORDER_STATUS, now, []);
    var tglKembali := DefaultReturnDate(Some(tglPasang), None).value;
    var price := FilledPrice(Some(paket.harga), Some(paket.harga)).value;
    draft.(tglKembali := tglKembali, details := [Detail(jumlah, price)])
  }

  /** A booking by `user` for `jumlah` units of package `paketId`, installed
      at `tglPasang`, at time `now`. The stock check comes before the
      customer lookup, and both come before any write; on success the stock
      is taken, the order, its detail line and its payment are created, and
      the order-creation notices are appended. */
  function Book(s: Store, user: UserId, paketId: PackageId, jumlah: nat, tglPasang: int, now: int)
    : (out: (Store, Result<OrderId, BookingError>))
    ensures paketId !in s.packages ==> out == (s, Err(PackageNotFound))
    ensures paketId in s.packages && s.packages[paketId].stok < jumlah ==> out == (s, Err(InsufficientStock))
    ensures paketId in s.packages && s.packages[paketId].stok >= jumlah && user !in s.customers
            ==> out == (s, Err(CustomerNotFound))
    ensures out.1.Err? ==> out.0 == s
    ensures out.1.Ok? <==> paketId in s.packages && s.packages[paketId].stok >= jumlah && user in s.customers
    ensures out.1.Ok? ==>
      var r := out.0;
      var paket := s.packages[paketId];
      && out.1.value == |s.orders|
      && r.packages.Keys == s.packages.Keys
      && r.packages[paketId].stok + jumlah == paket.stok
      && r.packages[paketId].harga == paket.harga
      && (forall q :: q in s.packages && q != paketId ==> r.packages[q] == s.packages[q])
      && |r.orders| == |s.orders| + 1
      && r.orders[..|s.orders|] == s.orders
      && r.orders[|s.orders|].status == OrderStatus.Pending
      && r.orders[|s.orders|].owner == user
      && r.orders[|s.orders|].paket == Some(paketId)
      && r.orders[|s.orders|].ongkosKirim == 0
      && r.orders[|s.orders|].createdAt == now
      && r.orders[|s.orders|].tglPasang == tglPasang
      && r.orders[|s.orders|].tglKembali == tglPasang + DAY
      && r.orders[|s.orders|].details == [Detail(jumlah, paket.harga)]
      && r.payments.Keys == s.payments.Keys + {|s.orders|}
      && r.payments[|s.orders|] == Payment(jumlah * paket.harga, PaymentStatus.Pending, false)
      && r.payments[|s.orders|].amount == TotalHarga(r.orders[|s.orders|])
      && (forall id :: id in s.payments && id != |s.orders| ==> r.payments[id] == s.payments[id])
      && r.customers == s.customers
      && r.notifications == s.notifications + [NewOrderNotice(), OrderPlacedNotice(user)]
  {
    if paketId !in s.packages then (s, Err(PackageNotFound))
    else
      var paket := s.packages[paketId];
      if !IsAvailable(paket, jumlah) then (s, Err(InsufficientStock))
      else if user !in s.customers then (s, Err(CustomerNotFound))
      else
        var id := |s.orders|;
        var order := BookedOrder(user, paketId, paket, jumlah, tglPasang, now);
        var payment := Payment(TotalHarga(order), DEFAULT_PAYMENT_STATUS, false);
        var r := Store(
          Withdraw(s.packages, paketId, jumlah),
          s.orders + [order],
          s.payments[id := payment],
          s.customers,
          s.notifications + OrderSavedNotifications(true, user));
        (r, Ok(id))
  }

  /** For an existing package, a booking is refused for stock exactly when
      the package's availability check fails, and never otherwise. */
  lemma BookRefusedExactlyWhenUnavailable(s: Store, user: UserId, paketId: PackageId, jumlah: nat, tglPasang: int, now: int)
    requires paketId in s.packages
    ensures Book(s, user, paketId, jumlah, tglPasang, now).1 == Err(InsufficientStock)
            <==> !IsAvailable(s.packages[paketId], jumlah)
    ensures IsAvailable(s.packages[paketId], jumlah) <==> jumlah <= s.packages[paketId].stok
  {
  }

  /** A booking keeps every package's stock ceiling: the units it takes from
      the shelf are exactly the units its new active order holds. */
  lemma BookConservesStock(s: Store, user: UserId, paketId: PackageId, jumlah: nat, tglPasang: int, now: int)
    ensures var r := Book(s, user, paketId, jumlah, tglPasang, now).0;
      r.packages.Keys == s.packages.Keys && forall p :: p in s.packages ==> Ceiling(r, p) == Ceiling(s, p)
  {
    var out := Book(s, user, paketId, jumlah, tglPasang, now);
    if out.1.Ok? {
      var o := out.0.orders[|s.orders|];
      assert out.0.orders == s.orders + [o];
      forall p | p in s.packages
        ensures Ceiling(out.0, p) == Ceiling(s, p)
      {
        HeldAppend(s.orders, o, p);
      }
    }
  }

  /** In a valid store the new payment takes a fresh slot, and validity is kept. */
  lemma BookKeepsValid(s: Store, user: UserId, paketId: PackageId, jumlah: nat, tglPasang: int, now: int)
    requires Valid(s)
    ensures |s.orders| !in s.payments
    ensures Valid(Book(s, user, paketId, jumlah, tglPasang, now).0)
  {
    var r := Book(s, user, paketId, jumlah, tglPasang, now).0;
    if r != s {
      forall j | 0 <= j < |r.orders| && r.orders[j].paket.Some?
        ensures r.orders[j].paket.value in r.packages
      {
        if j < |s.orders| {
          assert r.orders[j] == s.orders[j];
        }
      }
    }
  }

  /** An uploaded proof file as the request carries it. */
  datatype ProofFile = ProofFile(contentType: string, size: nat)

  const ALLOWED_PROOF_TYPES: set<string> := {"image/jpeg", "image/png", "image/gif"}
  const MAX_PROOF_SIZE: nat := 5 * 1024 * 1024

  /** The file checks a proof upload must pass. */
  predicate AcceptableProof(f: ProofFile) {
    f.contentType in ALLOWED_PROOF_TYPES && f.size <= MAX_PROOF_SIZE
  }

  /** Why a proof upload was refused. */
  datatype UploadError = OrderNotFound | PaymentNotFound | NoFile | UnsupportedType | FileTooLarge

  /** `requester` uploads `file` as proof for order `id`. The order must be
      theirs and have a payment; the file must be present, of an image type
      and at most 5 MiB. An accepted upload stores the proof and marks the
      payment paid, whatever its status was; any refusal changes nothing. */
  function UploadProof(s: Store, id: OrderId, requester: UserId, file: Option<ProofFile>)
    : (out: (Store, Outcome<UploadError>))
    ensures out.1.Pass? <==>
      id < |s.orders| && s.orders[id].owner == requester && id in s.payments
      && file.Some? && AcceptableProof(file.value)
    ensures out.1.Pass? ==>
      out.0 == s.(payments := s.payments[id := s.payments[id].(status := Paid, hasProof := true)])
    ensures out.1.Fail? ==> out.0 == s
    ensures id >= |s.orders| || s.orders[id].owner != requester ==> out.1 == Fail(OrderNotFound)
    ensures id < |s.orders| && s.orders[id].owner == requester && id !in s.payments ==> out.1 == Fail(PaymentNotFound)
    ensures id < |s.orders| && s.orders[id].owner == requester && id in s.payments ==>
      (file.None? ==> out.1 == Fail(NoFile))
      && (file.Some? && file.value.contentType !in ALLOWED_PROOF_TYPES ==> out.1 == Fail(UnsupportedType))
      && ((file.Some? && file.value.contentType in ALLOWED_PROOF_TYPES && file.value.size > MAX_PROOF_SIZE)
          ==> out.1 == Fail(FileTooLarge))
  {
    if id >= |s.orders| || s.orders[id].owner != requester then (s, Fail(OrderNotFound))
    else if id !in s.payments then (s, Fail(PaymentNotFound))
    else if file.None? then (s, Fail(NoFile))
    else if file.value.contentType !in ALLOWED_PROOF_TYPES then (s, Fail(UnsupportedType))
    else if file.value.size > MAX_PROOF_SIZE then (s, Fail(FileTooLarge))
    else
      var after := s.payments[id].(status := Paid, hasProof := true);
      (s.(payments := s.payments[id := after]), Pass)
  }

  /** An accepted upload moves the payment to paid, which even the corrected
      payment rule does not announce: the customer hears nothing until staff
      verify or reject. */
  lemma UploadAnnouncesNothing(before: PaymentStatus, owner: UserId)
    ensures PaymentNotifications(Some(before), Paid, owner) == []
  {
  }
}
