/** The entities of the rental core (packages, orders with their detail
    lines, payments and notifications) and the small rules the model classes
    attach to them: availability, subtotal and total, the return-date default
    and the unit-price auto-fill. */
module Models {
  import opened Wrappers

  type PackageId = nat
  type OrderId = nat
  type UserId = nat

  /** Timestamps are whole seconds; one day is the return-date default offset. */
  const DAY: int := 24 * 60 * 60

  /** A rentable package (`Paket`). `harga` is the unit price in hundredths
      (the column keeps two decimal places and is not constrained to be
      non-negative); `stok` is the number of physical units on the shelf. */
  datatype Package = Package(harga: int, stok: nat)

  /** Order status (`Penyewaan.status`). */
  datatype OrderStatus = Pending | Confirmed | Cancelled | Completed {
    /** Pending and confirmed orders hold stock; cancelled and completed ones do not. */
    predicate Active() {
      Pending? || Confirmed?
    }
  }

  /** Payment status (`Transaksi.status`). `Verified` is written by the staff
      verification action although the model class does not list it among
      its choices. */
  datatype PaymentStatus = Pending | Paid | Verified | Failed

  /** Status a new order gets when none is given. */
  const DEFAULT_ORDER_STATUS: OrderStatus := OrderStatus.Pending

  /** Status a new payment gets when none is given. */
  const DEFAULT_PAYMENT_STATUS: PaymentStatus := PaymentStatus.Pending

  /** One detail line (`DetailPenyewaan`): a quantity and a unit-price snapshot. */
  datatype Detail = Detail(jumlah: nat, hargaSatuan: int)

  /** A rental order (`Penyewaan`). `paket` is None once the package is
      deleted; `details` are the order's detail lines in primary-key order,
      so `details[0]` is what `detailpenyewaan_set.first()` returns. */
  datatype Order = Order(
    owner: UserId,
    paket: Option<PackageId>,
    tglPasang: int,
    tglKembali: int,
    ongkosKirim: int,
    status: OrderStatus,
    createdAt: int,
    details: seq<Detail>)

  /** A payment (`Transaksi`); `hasProof` says whether a proof image is stored. */
  datatype Payment = Payment(amount: int, status: PaymentStatus, hasProof: bool)

  /** Notification category (`Notifikasi.jenis`). */
  datatype NotificationKind = Info | Warning | Danger | Success

  /** A notification; `recipient` None is a broadcast to staff. */
  datatype Notification = Notification(
    recipient: Option<UserId>,
    kind: NotificationKind,
    title: string,
    read: bool)

  /** Whether a package can cover a request for `diminta` units. */
  predicate IsAvailable(p: Package, diminta: int) {
    p.stok >= diminta
  }

  /** Quantity times unit price of a detail line that may not be filled in
      yet; a missing operand counts as zero. */
  function Subtotal(jumlah: Option<nat>, hargaSatuan: Option<int>): (r: int)
    ensures jumlah.None? || hargaSatuan.None? ==> r == 0
    ensures jumlah.Some? && hargaSatuan.Some? ==> r == jumlah.value * hargaSatuan.value
    ensures jumlah == Some(0) ==> r == 0
  {
    jumlah.GetOr(0) * hargaSatuan.GetOr(0)
  }

  /** Sum of the subtotals of stored detail lines. */
  function DetailTotal(details: seq<Detail>): int
  {
    if |details| == 0 then 0
    else
      var last := details[|details| - 1];
      DetailTotal(details[..|details| - 1]) + Subtotal(Some(last.jumlah), Some(last.hargaSatuan))
  }

  /** The order total: every detail line's subtotal plus shipping. */
  function TotalHarga(o: Order): (r: int)
    ensures |o.details| == 0 ==> r == o.ongkosKirim
    ensures |o.details| == 1 ==> r == o.details[0].jumlah * o.details[0].hargaSatuan + o.ongkosKirim
  {
    DetailTotalSingle(o.details);
    DetailTotal(o.details) + o.ongkosKirim
  }

  /** A single line's total is its subtotal. */
  lemma DetailTotalSingle(details: seq<Detail>)
    ensures |details| == 1 ==> DetailTotal(details) == details[0].jumlah * details[0].hargaSatuan
  {
    if |details| == 1 {
      assert details[..0] == [];
    }
  }

  /** The total over two runs of lines is the sum of the two totals, so the
      order total does not depend on how its lines are grouped. */
  lemma {:induction false} DetailTotalConcat(a: seq<Detail>, b: seq<Detail>)
    ensures DetailTotal(a + b) == DetailTotal(a) + DetailTotal(b)
    decreases |b|
  {
    if |b| == 0 {
      assert a + b == a;
    } else {
      var b' := b[..|b| - 1];
      assert (a + b)[..|a + b| - 1] == a + b';
      DetailTotalConcat(a, b');
    }
  }

  /** With non-negative prices, an order costs at least its shipping. */
  lemma {:induction false} TotalCoversShipping(o: Order)
    requires forall k :: 0 <= k < |o.details| ==> o.details[k].hargaSatuan >= 0
    ensures TotalHarga(o) >= o.ongkosKirim
  {
    DetailTotalNonNegative(o.details);
  }

  lemma {:induction false} DetailTotalNonNegative(details: seq<Detail>)
    requires forall k :: 0 <= k < |details| ==> details[k].hargaSatuan >= 0
    ensures DetailTotal(details) >= 0
    decreases |details|
  {
    if |details| > 0 {
      DetailTotalNonNegative(details[..|details| - 1]);
    }
  }

  /** The return date an order is saved with: an unset return date becomes
      the install date plus one day; a set one is kept. */
  function DefaultReturnDate(tglPasang: Option<int>, tglKembali: Option<int>): (r: Option<int>)
    ensures tglKembali.Some? ==> r == tglKembali
    ensures tglKembali.None? && tglPasang.Some? ==> r == Some(tglPasang.value + DAY)
    ensures tglKembali.None? && tglPasang.None? ==> r.None?
  {
    if tglKembali.None? && tglPasang.Some? then Some(tglPasang.value + DAY) else tglKembali
  }

  /** Saving an order twice moves the return date no further than saving it once. */
  lemma ReturnDateSettles(tglPasang: Option<int>, tglKembali: Option<int>)
    ensures DefaultReturnDate(tglPasang, DefaultReturnDate(tglPasang, tglKembali))
         == DefaultReturnDate(tglPasang, tglKembali)
  {
  }

  /** Python truthiness of a decimal price: unset and zero are both false. */
  predicate PriceIsSet(harga: Option<int>) {
    harga.Some? && harga.value != 0
  }

  /** The unit price a detail line is saved with: a falsy price is filled
      from the order's package when there is one. */
  function FilledPrice(hargaSatuan: Option<int>, paketHarga: Option<int>): (r: Option<int>)
    ensures PriceIsSet(hargaSatuan) ==> r == hargaSatuan
    ensures !PriceIsSet(hargaSatuan) && paketHarga.Some? ==> r == paketHarga
    ensures !PriceIsSet(hargaSatuan) && paketHarga.None? ==> r == hargaSatuan
  {
    if !PriceIsSet(hargaSatuan) && paketHarga.Some? then paketHarga else hargaSatuan
  }

  /** Saving a detail line twice fills its price no differently than once. */
  lemma FilledPriceSettles(hargaSatuan: Option<int>, paketHarga: Option<int>)
    ensures FilledPrice(FilledPrice(hargaSatuan, paketHarga), paketHarga)
         == FilledPrice(hargaSatuan, paketHarga)
  {
  }
}
