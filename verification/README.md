# DSlighting27 rental core in Dafny

This is a model of the stock-and-order core of the DSlighting27 lighting-rental
site. Customers book packages (`Paket`). A booking takes physical units off
the shelf at once. It creates a pending order (`Penyewaan`) with one detail
line (`DetailPenyewaan`) and a pending payment (`Transaksi`).

The customer uploads a proof image, which marks the payment paid. Staff then
confirm paid orders in bulk. They can edit an order's status, which returns
or re-takes its units. They can also mark units of a package as broken.

A periodic sweep cancels pending orders that are older than two hours and
have no proof, and puts their units back on the shelf. Booking and the sweep
emit notifications (`Notifikasi`). Payment verification is meant to emit one
too, but as written it does not (see Findings). Proof upload, the staff
status edit and "mark unit broken" emit none. The site shows an
unread-notification badge on every page.

The whole database is one immutable `Ledger.Store`:
- a map of packages;
- a sequence of orders, where an order's id is its index;
- a map from order id to its payment;
- the set of users that have a customer record;
- an append-only sequence of notifications.

Every operation is a pure function from a store to a new store plus a
result. Each operation is one atomic step.

The invariant that ties the operations together is the per-package
**stock ceiling**, `Ledger.Ceiling`. It is the shelf stock plus the
first-detail quantity held by every active (pending or confirmed) order on
that package. The following keep every ceiling unchanged:
- booking;
- every staff status edit, including a refused reactivation;
- bulk verification;
- the expiry sweep.

Only "mark unit broken" lowers it, by one unit for each selected package that still has stock.

Modules. Each source file of the core has one module; three more hold
shared types, the store and the properties that span several operations:
- `Wrappers` holds `Option`, `Result` and `Outcome`.
- `Models` holds the entities and the model-class rules (`core/models.py`).
- `Ledger` holds the store and the stock ceiling.
- `Signals` holds the notification rules (`core/signals.py`).
- `Views` holds booking and proof upload (`core/views.py`).
- `Admin` holds the staff actions and the phone rewrite (`core/admin.py`).
- `Utils` holds the expiry sweep and the dashboard month window (`core/utils.py`).
- `Notices` holds the unread badge (`core/context_processors.py`).
- `Scenarios` holds properties that span several operations.

Money is an unbounded `int` in hundredths, because the columns have two
decimal places (their 15-digit bound is not modelled; see Left out).
Timestamps are `int` seconds, and one day is 86400 seconds.

## Model

| member | source | states |
|---|---|---|
| Views.BookRefusedExactlyWhenUnavailable | core/views.py:124-127 | for an existing package, a booking is refused for insufficient stock exactly when the availability check `Models.IsAvailable` (core/models.py:35-40) fails, and that check holds exactly when `jumlah <= stok` |
| Models.DetailTotalSingle | core/models.py:73-75 | the detail sum of a single line is that line's quantity × unit price |
| Models.Subtotal | core/models.py:97-100 | a detail's subtotal is quantity times unit price, and is 0 when either operand is missing |
| Models.TotalHarga | core/models.py:70-76 | an order with no detail lines costs its shipping; an order with one line costs quantity × unit price + shipping |
| Models.DetailTotalConcat | core/models.py:73-75 | the detail sum over two runs of lines is the sum of the two sums, so the total does not depend on grouping |
| Models.TotalCoversShipping | core/models.py:71-76 | with non-negative unit prices an order's total is at least its shipping cost |
| Models.DetailTotalNonNegative | core/models.py:73-75 | with non-negative unit prices the sum of subtotals is non-negative |
| Models.DefaultReturnDate | core/models.py:64-68 | an unset return date becomes install date + 1 day; a set one is kept; with neither date set nothing is filled |
| Models.ReturnDateSettles | core/models.py:64-68 | saving an order a second time does not move the return date again |
| Models.FilledPrice | core/models.py:102-106 | a falsy unit price (unset or 0) is taken from the package when there is one; a set price, or a missing package, leaves it alone |
| Models.FilledPriceSettles | core/models.py:102-106 | saving a detail a second time does not change its filled price |
| Ledger.HeldUpdate | core/admin.py:153-191 | replacing one order changes the units held on a package by exactly the difference of the two orders' holdings |
| Ledger.HeldMonotone | core/utils.py:27-36 | if no order holds more than its counterpart, the whole list holds no more |
| Signals.OrderSavedNotifications | core/signals.py:7-27 | creating an order emits exactly two unread notices: an `info` "Pesanan Baru" broadcast and a `success` "Pesanan Berhasil" to the customer; a re-save emits none |
| Signals.PaymentNotifications | core/signals.py:36-59 | at most one notice; one exactly when a stored status existed, differs from the new one, and the new one is verified or failed; verified gives `success` "Pembayaran Diterima" and failed gives `danger` "Bukti Bayar Ditolak", both to the customer |
| Signals.PaymentSignalAsWritten | core/signals.py:36-41 | the handler as written re-reads the saved row, so it never emits anything |
| Signals.VerificationNoticeLostAsWritten | core/signals.py:36-49 | for a paid → verified change the intended rule emits the acceptance notice, but the handler as written emits nothing |
| Views.Book | core/views.py:118-163 | checks run in order: package exists, then stock (`is_available`), then customer record; any failure changes nothing; success takes `jumlah` off the stock (which stays ≥ 0), appends one pending order for the customer and package with the given install date, creation time `now`, shipping 0, return date = install date + 1 day and one detail priced at the package price, a pending payment of `jumlah × harga` equal to the order total, and the two creation notices; nothing else changes |
| Views.BookConservesStock | core/views.py:137-163 | a booking keeps every package's stock ceiling: the units taken are the units the new active order holds |
| Views.BookKeepsValid | core/views.py:141-163 | in a store whose payments and package links point at existing rows, a booking uses a fresh payment slot and keeps that property |
| Scenarios.EditKeepsValid | core/admin.py:148-191 | a staff status edit keeps payments and package links pointing at existing rows |
| Scenarios.VerifyBatchKeepsValid | core/admin.py:264-301 | bulk verification keeps payments and package links pointing at existing rows |
| Scenarios.SweepKeepsValid | core/utils.py:9-48 | the expiry sweep keeps payments and package links pointing at existing rows |
| Scenarios.UploadKeepsValid | core/views.py:222-256 | a proof upload keeps payments and package links pointing at existing rows |
| Views.UploadProof | core/views.py:222-256 | an upload succeeds exactly when the order belongs to the requester, has a payment, and the file is present, a JPEG/PNG/GIF and at most 5·1024·1024 bytes; a refusal reports the first failed check in the order owner, payment, file present, type, size; success stores the proof and sets the payment to paid; every refusal changes nothing |
| Views.UploadAnnouncesNothing | core/signals.py:31-49 | moving a payment to paid from any status emits no notice, even under the corrected payment rule, so an accepted upload adds no notification |
| Admin.SaveOrderEdit | core/admin.py:148-191 | active → inactive returns exactly the first detail's quantity to the package; inactive → active takes it back only if the stock covers it, and otherwise keeps the old status and the store unchanged; the stock is taken whenever it covers the quantity; each branch states the resulting package map exactly (restocked, withdrawn or unchanged), so prices and other packages are kept; edits within one side, or on an order with no detail or no package, change only the status; no other order, payment or notice changes |
| Admin.EditConservesStock | core/admin.py:153-191 | every staff edit keeps every package's stock ceiling |
| Admin.EditConservesOrderHolding | core/admin.py:158-189 | for an order with a detail and a package, `stok + (jumlah if active)` is the same before and after the edit |
| Admin.VerifyOne | core/admin.py:283-289 | verifying one order sets its payment to verified and the order to confirmed; stock is untouched; under the corrected payment rule (core/signals.py:42-49) it appends the acceptance notice to its customer, whereas as written nothing is appended |
| Admin.VerifyFromOrders | core/admin.py:274-301 | the walk confirms exactly the selected, pending orders with a paid payment; every other order stays the same |
| Admin.VerifyFromPayments | core/admin.py:274-301 | the walk verifies exactly the payments of the selected, pending orders with a paid payment; every other payment stays the same |
| Admin.VerifyFromVerifiedCount | core/admin.py:271-291 | the walk's verified count is the number of selected, pending orders with a paid payment |
| Admin.VerifyFromVisitCount | core/admin.py:271-301 | verified + skipped equals the number of selected orders visited |
| Admin.VerifyFromNotices | core/admin.py:283-289 | under the corrected payment rule (core/signals.py:42-49), the walk appends exactly one acceptance notice per verified order, in order-id order; as written nothing is appended |
| Admin.VerifiedNoticesShape | core/admin.py:283-289 | under the corrected payment rule (core/signals.py:42-49), every appended notice is the acceptance notice for the customer of a verified order; as written nothing is appended |
| Admin.VerifyBatch | core/admin.py:264-301 | only selected orders that are pending with a paid payment change: payment → verified, order → confirmed; every other order and payment is unchanged; stock is never touched; the verified count is the number of such orders; verified + skipped = batch size; under the corrected payment rule (core/signals.py:42-49) one acceptance notice per verified order, as written none |
| Admin.VerifyBatchConservesStock | core/admin.py:271-301 | bulk verification keeps every package's stock ceiling |
| Admin.VerifyBatchSettles | core/admin.py:276-280 | running the action again on the same selection verifies nothing and changes nothing |
| Admin.BreakUnits | core/admin.py:119-124 | the loop handles every selected package once: each one with stock left loses one unit, and the count is the number of such packages |
| Admin.MarkUnitsAsBroken | core/admin.py:115-124 | each selected package with stock > 0 loses exactly one unit; packages with stock 0 and unselected packages are untouched; the count returned is the number of packages decremented; nothing but stock changes, and each selected package with stock left has its stock ceiling lowered by exactly one |
| Admin.NormalisePhone | core/admin.py:239-241 | a number with a leading '0' becomes "62" followed by the rest; any other string is unchanged; the result never starts with '0' |
| Admin.NormalisePhoneIdempotent | core/admin.py:366-368 | rewriting twice is the same as rewriting once |
| Utils.CancelOne | core/utils.py:27-44 | cancelling one order returns its first-detail quantity to its package exactly when it has a detail line and an existing package (the package map is otherwise unchanged), sets it to cancelled and appends one `warning` "Pesanan Dibatalkan" notice to its customer; payments and other orders are unchanged |
| Utils.CancelOneConserves | core/utils.py:29-36 | cancelling an active order keeps every stock ceiling: its first-detail quantity goes back to its package |
| Utils.SweepFromEffect | core/utils.py:17-36 | the walk cancels exactly the selected orders and leaves the others unchanged |
| Utils.SweepFromCount | core/utils.py:26-48 | the walk's count is the number of orders selected |
| Utils.SweepFromNotices | core/utils.py:38-44 | the walk appends exactly one expiry notice per cancelled order, in order-id order |
| Utils.ExpiryNoticesShape | core/utils.py:38-44 | each expiry notice is an unread `warning` titled "Pesanan Dibatalkan", addressed to the customer of a cancelled order |
| Utils.Sweep | core/utils.py:9-48 | the sweep selects exactly the pending orders created strictly before now − 2 h whose payment carries no proof; each becomes cancelled; every other order is unchanged; the count is the number selected; stock ceilings, package prices and payments are kept; the notices appended are exactly one warning per cancelled order |
| Utils.SweepFromStock | core/utils.py:27-32 | the walk raises each package's stock by exactly the first-detail quantities of the selected orders on it that have a detail line |
| Utils.SweepReturnsStock | core/utils.py:27-32 | each package's stock rises by exactly the first-detail quantities of the cancelled orders that have a detail line and point at it; a package that no cancelled order points at keeps its stock |
| Utils.SweepSparesRecentOrders | core/utils.py:17-21 | an order created exactly 2 h before the sweep, or later, is not cancelled |
| Utils.SweepOnlyReturnsStock | core/utils.py:29-32 | the sweep never lowers any package's stock |
| Utils.SweepIdempotent | core/utils.py:19-24 | a second sweep at the same moment cancels nothing and returns the store unchanged |
| Utils.DashboardMonths | core/utils.py:77-92 | six (month, year) pairs, each month in 1..12, consecutive calendar months, the last one being the current month |
| Notices.UnreadAll | core/context_processors.py:11-13 | the staff count never exceeds the number of notifications |
| Notices.UnreadCount | core/context_processors.py:4-27 | an anonymous visitor's count is 0; staff count every unread notice, broadcasts included; a customer counts only unread notices addressed to them; the count never exceeds the number of notifications |
| Notices.CustomerCountBelowStaffCount | core/context_processors.py:11-19 | any customer's count is at most the staff count |
| Notices.AppendCounts | core/context_processors.py:13-19 | one appended notice raises the staff count exactly when it is unread, and a customer's count exactly when it is unread and addressed to them |
| Notices.ConcatCounts | core/context_processors.py:13-19 | counts over two runs of notices add up |
| Notices.UnreadOfIsZeroWithoutOwnUnread | core/context_processors.py:14-19 | a customer with no unread notice of their own sees 0, whatever broadcasts exist |
| Notices.AllReadMeansNoBadge | core/context_processors.py:13-19 | when every notice is read, every viewer's count is 0 |
| Scenarios.BookRaisesBadges | core/signals.py:12-27 | a successful booking raises the staff count by 2, the booking customer's count by 1, and no other customer's count |
| Scenarios.UploadedProofSurvivesSweep | core/utils.py:19-24 | once a proof is accepted, the sweep never cancels that order, however old it is |
| Scenarios.FreshBookingSurvivesSweep | core/utils.py:17-21 | a newly booked order stays pending through any sweep within its first two hours |

## Left out

- Django ORM, HTTP requests, redirects, templates, `message_user` text and HTML presentation are not modelled. Operations work on an abstract store.
- Row locking (`select_for_update`) and `transaction.atomic` are not modelled. Each operation is one sequential atomic step. In the source, `save_model`, the sweep and "mark unit broken" take no lock at all.
- Date-string parsing in the booking view is left out. The install date reaches `Views.Book` as an already parsed timestamp.
- The current time is left out. `now` is a parameter of the booking and of the sweep, and the current month and year are parameters of the dashboard window.
- Free-text fields (`catatan`, `metode_pembayaran`, message bodies) and the GET paths of the views are not modelled.
- The staff edit is modelled for a change of status only. Other form fields, such as a different package or detail lines edited in the inline, are not. The `change=False` path (staff creating an order) is not modelled either, since it has no stock effect in `save_model`.
- Each order has at most one payment. The source allows several `Transaksi` rows per order: the bulk action takes the first paid one, and the upload view's `get` would fail with several.
- `jumlah` is modelled as a non-negative integer (`nat`). The booking view parses it from the form without checking that it is positive.
- Stock is an unbounded `nat`. `PositiveIntegerField` also bounds it above by the database's integer range, which the model does not. No operation of the model can drive it below zero.
- Money columns are `DecimalField(max_digits=15, decimal_places=2)`; the model's money is unbounded. A booking whose `jumlah × harga` does not fit `jumlah_bayar` fails in the source inside the generic `except` of the booking view (core/views.py:171-174), with the stock write rolled back; the model books it.
- A proof is a present/absent flag, and the sweep skips exactly the orders whose payment has a proof. The source tests `bukti_bayar__isnull=False` (core/utils.py:22-24). If Django stores the unset image of a newly created payment (core/views.py:158-163) as an empty file name rather than NULL, that filter excludes every booked order and the sweep cancels nothing at all. The model follows the evident intent (not executed; the storage behaviour is outside this model).
- `Verified` is included in the payment-status type. The bulk action writes `'verified'`, but `Transaksi.STATUS_CHOICES` does not list it.
- Admin.VerifyBatch: the exception branch of the bulk action is not modelled. In the source, a failed save counts the order as neither verified nor skipped. Without exceptions, verified + skipped always equals the batch size.
- Admin.VerifyBatch: in the model, each verification appends the acceptance notice that the corrected payment rule `Signals.PaymentNotifications` emits. As written, the source emits no such notice (see Findings).
- Admin.VerifyOne: appends the acceptance notice of the corrected payment rule; as written the source appends nothing (see Findings).
- Admin.VerifyFromNotices: states the notices of the corrected payment rule; as written the walk appends none (see Findings).
- Admin.VerifiedNoticesShape: describes notices that only the corrected payment rule emits; as written there are none (see Findings).
- Signals.OrderSavedNotifications: assumes the created order has a package. The broadcast text at core/signals.py:18 reads the package's name, so creating an order without a package (possible from the admin, since the field is nullable at core/models.py:56) raises there, the save fails and no notice is created. `Views.Book` always sets a package.
- Models.TotalHarga: its contract states the total explicitly only for zero or one detail line, which covers every order a booking creates. For more lines it is the sum of subtotals plus shipping, characterised through `Models.DetailTotalConcat`.
- The walk order is the model's choice. The sweep iterates a queryset with no `order_by`, `Penyewaan.Meta` has no `ordering`, and the bulk action iterates whatever queryset it is given; the model visits orders in ascending id. The final orders, payments, stock and counts do not depend on that order; only the order of the appended notices does ("in order-id order" in the rows above).
- The sweep selects orders by the state at the start of the sweep and does not re-check an order before changing it, which matches the code.
- Dashboard revenue and count aggregates, including the `float` conversion and the month-name labels, are left out.
- The notification endpoints and the XHR branch of the profile view are left out. The view module uses `Notifikasi` and `JsonResponse` without importing them.
- Registration, login, profile editing, file storage and WhatsApp URL building are left out.
- The management command, the URL configuration, the template filter and the `check_expired_orders` endpoint are left out. They are thin wrappers around the modelled operations.

## Findings

| source | as written | input that shows it | evidently intended | confidence | as-written member | corrected member |
|---|---|---|---|---|---|---|
| core/signals.py:39-41 | the `post_save` handler reads the "previous" payment from the database after the row has been written, so it compares the new status with itself | the bulk action saving a payment that moves from `paid` to `verified` (core/admin.py:284-285) | compare the status stored before the save with the new one, and notify the customer on a change to verified or failed | high; not executed | Signals.PaymentSignalAsWritten, Signals.VerificationNoticeLostAsWritten | Signals.PaymentNotifications |
