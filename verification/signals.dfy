/** The notification rules that fire when an order or a payment is saved,
    written as pure "transition to notifications" functions. */
module Signals {
  import opened Wrappers
  import opened Models

  const NEW_ORDER_TITLE: string := "Pesanan Baru"
  const ORDER_PLACED_TITLE: string := "Pesanan Berhasil"
  const PAYMENT_VERIFIED_TITLE: string := "Pembayaran Diterima"
  const PROOF_REJECTED_TITLE: string := "Bukti Bayar Ditolak"

  /** The staff broadcast announcing a new order. */
  function NewOrderNotice(): Notification {
    Notification(None, Info, NEW_ORDER_TITLE, false)
  }

  /** The customer's confirmation that their order was placed. */
  function OrderPlacedNotice(owner: UserId): Notification {
    Notification(Some(owner), Success, ORDER_PLACED_TITLE, false)
  }

  /** The customer's notice that their payment was accepted. */
  function PaymentVerifiedNotice(owner: UserId): Notification {
    Notification(Some(owner), Success, PAYMENT_VERIFIED_TITLE, false)
  }

  /** The customer's notice that their payment proof was rejected. */
  function ProofRejectedNotice(owner: UserId): Notification {
    Notification(Some(owner), Danger, PROOF_REJECTED_TITLE, false)
  }

  /** What saving an order emits: a staff broadcast and a customer notice
      when the row was just created, nothing on a re-save. The order is
      assumed to have a package: the broadcast's text names it, and a
      package-less order makes the save fail before any notice exists. */
  function OrderSavedNotifications(created: bool, owner: UserId): (r: seq<Notification>)
    ensures !created ==> r == []
    ensures created ==> |r| == 2
    ensures created ==> r[0].recipient.None? && r[0].kind == Info && r[0].title == NEW_ORDER_TITLE
    ensures created ==> r[1].recipient == Some(owner) && r[1].kind == Success && r[1].title == ORDER_PLACED_TITLE
    ensures forall k :: 0 <= k < |r| ==> !r[k].read
  {
    if created then [NewOrderNotice(), OrderPlacedNotice(owner)] else []
  }

  /** What a payment status change emits, given the status before the save
      (None when there was no stored row) and the status after it: one
      notice to the order's customer when the status actually changed to
      verified or failed, nothing otherwise. */
  function PaymentNotifications(before: Option<PaymentStatus>, after: PaymentStatus, owner: UserId): (r: seq<Notification>)
    ensures |r| <= 1
    ensures |r| == 1 <==> before.Some? && before.value != after && (after == Verified || after == Failed)
    ensures |r| == 1 && after == Verified ==> r[0] == PaymentVerifiedNotice(owner)
    ensures |r| == 1 && after == Failed ==> r[0] == ProofRejectedNotice(owner)
  {
    match before
    case None => []
    case Some(stored) =>
      if stored == after then []
      else if after == Verified then [PaymentVerifiedNotice(owner)]
      else if after == Failed then [ProofRejectedNotice(owner)]
      else []
  }

  /** The payment handler as the repository wires it: it runs after the row
      is written and reads the "previous" status back from storage, so it
      compares the saved status with itself. */
  function PaymentSignalAsWritten(saved: Payment, owner: UserId): (r: seq<Notification>)
    ensures r == []
  {
    var reread := saved;
    PaymentNotifications(Some(reread.status), saved.status, owner)
  }

  /** The discrepancy: a payment moving from paid to verified should tell the
      customer, but the handler as written emits nothing for it. */
  lemma VerificationNoticeLostAsWritten(p: Payment, owner: UserId)
    requires p.status == Paid
    ensures PaymentNotifications(Some(p.status), Verified, owner) == [PaymentVerifiedNotice(owner)]
    ensures PaymentSignalAsWritten(p.(status := Verified), owner) == []
  {
  }
}
