# Home-services marketplace: a verified model of its core rules

The system is a marketplace where customers book home services (cleaning,
plumbing, electrical work and the like) from providers, chat about a booking,
pay for it, receive an invoice and leave a review, while administrators verify
providers and moderate reviews. It has an Express/Mongoose backend and a React
frontend. This Dafny project models the parts of both that hold exact rules,
and proves what those rules promise.

**Backend.** Each HTTP handler is an operation on an in-memory database
(`Store.Db`). The database has one map from record id to record per
collection: bookings, messages, reviews, invoices, users, provider profiles,
provider applications and services. It also holds an id counter, so ids follow
creation order. A handler takes the caller as an `(id, role)` value and
answers `Ok(record)` or `Err(code)`, with the HTTP status the source sends:
400, 403, 404 or 409. Handlers that write are methods that state the whole new
database. Their guards, queries and derivations are functions, and lemmas
relate them. Examples of proved properties:

- a review or an invoice is unique per key;
- marking an invoice paid is a no-op the second time;
- the profile self-update never changes the verification flag;
- a forbidden charge changes nothing;
- approving an application makes the applicant a provider, while rejecting it
  keeps their role.

The schemas (`BookingModel`, `ReviewModel`, `InvoiceModel`, `UserModel`,
`ProfileModel` and the record modules) are datatypes with validity predicates
and enum parsers that round-trip.

**Frontend.** Most client logic is pure, and the model keeps it pure:

- the CSV export, proved to read back through an RFC 4180 field reader when no cell holds a carriage return, and always in its corrected form;
- the table sort and its header toggle;
- provider-row normalisation and the provider filters;
- the service catalogue filter and its orders;
- normalising and filtering live booking events;
- the endpoint fallback loops (`firstOk` and the checkout payment loop);
- the label and number helpers of the checkout page;
- the admin dashboard counters.

The stateful parts are classes whose fields the methods reassign:

- the favourites store;
- the toast list with its id counter;
- the provider's assigned bookings, with an optimistic status change and
  rollback;
- the admin bookings table, with live merges and the optimistic provider
  assignment.

JavaScript's dynamic values are modelled by `Js.Value`. It covers
truthiness, `||`, `??`, optional member access, `Number(x)` and `String(x)`.

Module layout: one module per source file, plus the helper modules `Wrappers`,
`Strings`, `Js`, `Casts` (the casts and the `trim` setter Mongoose applies to
a value written to a `String` or `Number` path), `Sorting` (a stable insertion
sort and filters, standing for `Array.prototype.sort`/`filter` and for Mongo's
`sort`) and `Store`.

Where verifying the model showed the source wrong (see "## Findings"), the
handler is modelled as written, and a separate member marked "corrected"
models the evidently intended behaviour, with the intended property proved.

## Model

| member | source | states |
|---|---|---|
| BookingModel.ParseStatus | backend/models/booking.js:17-21 | only the five enum spellings are accepted, each read back as the status it names |
| BookingModel.ParseStatusName | backend/models/booking.js:17-21 | every status round-trips through its stored spelling |
| BookingModel.ParseMethod | backend/models/booking.js:13 | the payment method is `cash` or `online`, nothing else |
| BookingModel.ParsePaymentStatus | backend/models/booking.js:14 | the payment status is `unpaid`, `paid` or `refunded`, nothing else |
| BookingModel.ParsePaymentName | backend/models/booking.js:13-14 | payment methods and payment statuses round-trip through their spellings |
| BookingModel.NewBooking | backend/models/booking.js:6-21 | a new booking is valid, has no provider, pays cash and unpaid with no transaction id, and is pending |
| BookingController.NewBookingFor | backend/controllers/bookingController.js:4-25 | 400 exactly when service, scheduledAt or address is missing or empty; otherwise a pending booking of the caller with the request's fields copied |
| BookingController.CreateBooking | backend/controllers/bookingController.js:4-25 | on 400 nothing is stored; on success exactly one booking is added under a fresh id |
| BookingController.MyBookings | backend/controllers/bookingController.js:27-35 | exactly the bookings whose user is the caller, in insertion order |
| BookingController.AllowedStatus | backend/controllers/bookingController.js:40-43 | accepted exactly for pending, confirmed, completed and cancelled, never for on_the_way |
| BookingController.StatusUpdate | backend/controllers/bookingController.js:37-56 | 400 for a status outside the list, 404 for an unknown id, otherwise the same booking with only its status changed |
| BookingController.OnTheWayRefused | backend/controllers/bookingController.js:40-43 | writing on_the_way always answers 400 |
| BookingController.NoTransitionOrder | backend/controllers/bookingController.js:37-56 | any allowed status can be written over any current one, completed and cancelled included |
| BookingController.UpdateStatus | backend/controllers/bookingController.js:37-56 | the answer is StatusUpdate's and only that booking is replaced |
| MessageController.CanChatParties | backend/controllers/messageController.js:9-15 | only the customer or the assigned provider may chat; a pending or cancelled booking lets no one chat; in the other statuses the customer always may |
| MessageController.SendDecision | backend/controllers/messageController.js:47-74 | 400 when booking, content or receiver is missing; then 404 for an unknown booking; then 403 when the caller may not chat; then 400 exactly when the receiver is not a party or the trimmed content is empty; a request passing every check is accepted, as a message from the caller with trimmed content |
| MessageController.NoMessageWithoutChat | backend/controllers/messageController.js:57-59 | a caller who may not chat on an existing booking never gets a message |
| MessageController.SendMessage | backend/controllers/messageController.js:47-85 | the answer is SendDecision's; one message is added on success and nothing otherwise |
| MessageController.ListByBooking | backend/controllers/messageController.js:21-40 | 404 for an unknown booking, 403 when the caller may not chat, and Ok exactly when the caller may chat: that booking's messages in creation order |
| ReviewModel.ParseReviewStatus | backend/models/review.js:11 | only pending, approved and rejected are review statuses |
| ReviewModel.ParseReviewStatusName | backend/models/review.js:11 | every review status round-trips through its spelling |
| ReviewController.FirstCompleted | backend/controllers/reviewController.js:9-16 | some booking is found iff the user has a completed booking of that service; the one found is the earliest such booking |
| ReviewController.ReviewOf | backend/models/review.js:17 | finds the review of a (user, service) pair when there is one, and none only when no review has that pair |
| ReviewController.RewriteKeepsValid | backend/models/review.js:17 | rewriting a review in place under the same pair keeps the pairs unique |
| ReviewController.UpsertAsWritten | backend/controllers/reviewController.js:104-144 | as written: 400 without a service, for a falsy rating, for an ineligible caller or a non-finite `Number(rating)`, and every error is 400; an eligible caller with a truthy finite rating is always answered Ok, with a pending review carrying `Number(rating)`, the comment (`''` when absent) trimmed, and the earliest completed booking, with no range check |
| ReviewController.UpsertStoresRatingSeven | backend/controllers/reviewController.js:125-136 | an eligible customer's rating of 7 is stored, although the schema allows only 1 to 5 |
| ReviewController.Upsert | backend/controllers/reviewController.js:104-144 | with the schema validators applied: every stored review is valid, and it agrees with the as-written upsert whenever that one is valid |
| ReviewController.UpsertAccepts | backend/controllers/reviewController.js:104-136 | an eligible caller with a rating from 1 to 5 and a short enough comment always gets a pending review with that rating and the trimmed comment |
| ReviewController.CreateOrUpsertReview | backend/controllers/reviewController.js:104-144 | as written: the answer is the as-written upsert's; on error nothing changes; on success the review of (caller, service) is overwritten in place when it existed, else added, and it is the only review of that pair |
| ReviewController.CreateOrUpsertReviewCorrected | backend/controllers/reviewController.js:104-144 | corrected: the same with the validated upsert, so the stored review is valid |
| ReviewController.PutReview | backend/controllers/reviewController.js:125-136 | the upsert's write: it reuses the pair's id when there is one and leaves the pair with exactly one review |
| ReviewController.AddKeepsValid | backend/models/review.js:17 | adding a review for a pair that has none keeps the pairs unique |
| ReviewController.OnlyReview | backend/models/review.js:17 | with unique pairs, a stored review is the only one of its pair |
| ReviewController.Edited | backend/controllers/reviewController.js:160-168 | the edit of the author's review: Ok exactly when the rating is omitted or finite and the edited rating lies in 1 to 5 and the edited comment within its length; otherwise 400; an Ok result is valid, pending and keeps user, service and booking |
| ReviewController.EditReview | backend/controllers/reviewController.js:151-172 | 404 for an unknown review, 403 for anyone but its author; the author's request is answered as Edited says, so a valid edit is accepted and keeps user, service and booking, valid and pending |
| ReviewController.EditFields | backend/controllers/reviewController.js:162-163 | an omitted field keeps its value; a supplied rating is its number and a supplied comment its trimmed string |
| ReviewController.EmptyEditResetsStatus | backend/controllers/reviewController.js:164-165 | an edit that supplies nothing still sends the review back to pending |
| ReviewController.EditKeepsValid | backend/controllers/reviewController.js:151-172 | an accepted edit keeps the review collection's pairs unique and its ids below the counter |
| ReviewController.UpdateMyReview | backend/controllers/reviewController.js:151-172 | the answer is EditReview's and only that review is replaced |
| ReviewController.RemoveCheck | backend/controllers/reviewController.js:178-193 | allowed exactly for the author or an admin; 404 for an unknown review, otherwise 403 |
| ReviewController.RemoveReview | backend/controllers/reviewController.js:178-193 | the answer is RemoveCheck's; on success exactly that review is deleted |
| ReviewController.ListReviews | backend/controllers/reviewController.js:39-63 | `includeAll=1` without an admin is 403 and no other error occurs; otherwise exactly the reviews of the service asked for, of every status for an admin with `includeAll=1` and approved only otherwise, newest first |
| ReviewController.PublicListApprovedOnly | backend/controllers/reviewController.js:50-52 | the public listing never shows a pending or rejected review |
| ReviewController.GetMyReview | backend/controllers/reviewController.js:82-95 | 400 without a service; otherwise the caller's review of it, or 404 exactly when there is none |
| ReviewController.ListForModeration | backend/controllers/reviewController.js:199-211 | exactly the reviews in the status asked for (pending by default), oldest first |
| ReviewController.Moderate | backend/controllers/reviewController.js:218-237 | 400 for anything but approved or rejected, 404 for an unknown review, and Ok for approved or rejected on an existing review; then only the status changes |
| ReviewController.ModerateReview | backend/controllers/reviewController.js:218-237 | the answer is Moderate's and only that review is replaced |
| InvoiceModel.ParseInvoiceStatus | backend/models/invoice.js:25 | only unpaid, paid and void are invoice statuses |
| InvoiceModel.ParseInvoiceStatusName | backend/models/invoice.js:25 | every invoice status round-trips through its spelling |
| InvoiceModel.Redraft | backend/models/invoice.js:35-40 | a stored invoice seen again by the hook has its number, tax and total present |
| InvoiceModel.Create | backend/models/invoice.js:11-40 | what is stored is exactly the hook's output, stored exactly when that output passes the validators (else 400); it keeps booking, subtotal and rate; a negative subtotal or a rate outside 0 to 100 is refused |
| InvoiceModel.NumberKept | backend/models/invoice.js:36 | a present invoice number is never overwritten; only an absent or empty one is generated |
| InvoiceModel.DerivedAmounts | backend/models/invoice.js:37-38 | with nothing preset, the derived tax lies between 0 and the subtotal and the total is subtotal plus tax |
| InvoiceModel.HookIdempotent | backend/models/invoice.js:35-40 | saving a stored invoice again leaves it as it is |
| InvoiceController.InvoiceFor | backend/controllers/invoiceController.js:25-29 | finds an invoice of the booking when there is one, and none only when no invoice has that booking |
| InvoiceController.InvoiceForUnique | backend/models/invoice.js:14 | with one invoice per booking, looking up a stored invoice's booking finds that invoice |
| InvoiceController.Price | backend/controllers/invoiceController.js:31 | a missing service gives 0; otherwise the price's numeric value, refused when it is not finite |
| InvoiceController.NewInvoice | backend/controllers/invoiceController.js:31-41 | a new invoice is valid, unpaid and unstamped, copies customer, provider and service from the booking, has the price as subtotal, the currency given and the notes trimmed by the setter; it is created exactly when the price is a finite non-negative number, the rate lies in 0 to 100 and the trimmed notes fit, and every error is 400 |
| InvoiceController.TaxRate | backend/controllers/invoiceController.js:39 | `Number(taxPct) \|\| 0`: NaN and 0 give 0, an infinite rate is refused |
| InvoiceController.TextOr | backend/controllers/invoiceController.js:14 | the destructuring default, then the String cast: the default when the field is undefined, null kept as null, a string, number or boolean as its text, an array refused with 400 |
| InvoiceController.TextOrKeepsNull | backend/controllers/invoiceController.js:14 | a given text is stored as it is, an explicit null as null, an absent field as the default |
| InvoiceController.Generate | backend/controllers/invoiceController.js:12-53 | 400 without a booking id, 404 for an unknown booking, the booking's existing invoice unchanged; otherwise 400 when the currency, the notes or the rate fail their casts; with those cast, a new invoice exactly when NewInvoice accepts the booking, and then it is NewInvoice's invoice: customer, provider and service copied from the booking, subtotal the service price (0 without a service), the currency (null kept), the trimmed notes and the rate asked for |
| InvoiceController.GenerateInvoice | backend/controllers/invoiceController.js:12-53 | the answer is Generate's; at most one invoice is added, and only for a booking that has none |
| InvoiceController.InsertInvoice | backend/controllers/invoiceController.js:32-41 | `Invoice.create`: one invoice added under the next id |
| InvoiceController.GenerateIdempotent | backend/controllers/invoiceController.js:24-29 | generating again for the same booking returns the invoice the first call created |
| InvoiceController.GetInvoice | backend/controllers/invoiceController.js:90-110 | 404 for an unknown invoice; the invoice exactly for an admin, its customer or its provider; 403 for anyone else |
| InvoiceController.UnassignedInvoiceHidden | backend/controllers/invoiceController.js:101 | an invoice without a provider is hidden from everyone but its customer and admins |
| InvoiceController.TrxOr | backend/controllers/invoiceController.js:129 | a truthy transaction id is recorded as a string; otherwise the old one stays |
| InvoiceController.MarkPaidInvoice | backend/controllers/invoiceController.js:125-130 | a paid invoice is unchanged; any other, void included, becomes paid, stamped now, with the transaction id when one is given |
| InvoiceController.MarkPaidTwice | backend/controllers/invoiceController.js:125 | marking paid twice is marking paid once: the first stamp and transaction id stay |
| InvoiceController.MarkPaidKeepsInvoice | backend/controllers/invoiceController.js:127-130 | marking paid keeps the invoice valid, its booking and its total |
| InvoiceController.BookingMarkedPaid | backend/controllers/invoiceController.js:133-138 | the booking's payment becomes paid, the method is kept, and the transaction id is set only when given |
| InvoiceController.MarkPaid | backend/controllers/invoiceController.js:118-149 | 404 for an unknown invoice; nothing changes for a paid one; otherwise the invoice and its booking are both marked paid |
| InvoiceController.KeepInvoices | backend/models/invoice.js:14-28 | rewriting an invoice with a valid one for the same booking keeps the collection valid |
| InvoiceController.UniqueReplace | backend/models/invoice.js:14 | replacing an invoice by one for the same booking keeps one invoice per booking |
| InvoiceController.UniqueAdd | backend/models/invoice.js:14 | adding an invoice for a booking that has none keeps one invoice per booking |
| InvoiceController.AddInvoice | backend/models/invoice.js:14-28 | adding a valid invoice for a booking that has none keeps the collection valid |
| InvoiceController.Voided | backend/controllers/invoiceController.js:155-167 | 404 exactly when absent, Ok exactly when present; then only the status changes, to void, even from paid |
| InvoiceController.VoidInvoice | backend/controllers/invoiceController.js:155-167 | the answer is Voided's and only that invoice is replaced |
| InvoiceController.MyInvoices | backend/controllers/invoiceController.js:58-68 | exactly the caller's invoices as customer, newest first |
| InvoiceController.MyProviderInvoices | backend/controllers/invoiceController.js:74-84 | exactly the caller's invoices as provider, newest first |
| InvoiceController.ListAll | backend/controllers/invoiceController.js:173-191 | exactly the invoices matching each filter that is given, newest first |
| InvoiceController.ListAllUnknownStatus | backend/controllers/invoiceController.js:177 | a status outside the enum matches no invoice |
| PaymentRoutes.ChargeGuard | backend/routes/paymentRoutes.js:18-45 | 400 without a booking id, 404 for an unknown booking, 403 unless owner, assigned provider or admin; for a permitted caller on an existing booking, Ok exactly when the method (`online` by default) is in the enum, the method being the one given; no other error |
| PaymentRoutes.ChargedBooking | backend/routes/paymentRoutes.js:40-45 | the booking's payment becomes the method, paid, and the given transaction id or the old one; nothing else changes |
| PaymentRoutes.PaidNow | backend/routes/paymentRoutes.js:63-67 | the invoice becomes paid and is stamped now, whatever its status was |
| PaymentRoutes.EnsurePaid | backend/routes/paymentRoutes.js:47-67 | the booking's existing invoice is replaced by itself marked paid, stamped now, with the given trxId or its old one, and nothing else changes; without one, the answer is Ok exactly when NewInvoice (price as subtotal, no tax, USD, empty notes) succeeds, and then exactly that invoice, marked paid, is added under the next id; a failure changes nothing |
| PaymentRoutes.EnsurePaidKeepsOnePerBooking | backend/routes/paymentRoutes.js:47-61 | ensuring the invoice keeps one invoice per booking |
| PaymentRoutes.Charge | backend/routes/paymentRoutes.js:18-78 | a refused charge changes nothing; otherwise the booking is paid first, then the booking's invoice is paid with the transaction id, or a new invoice for it is created under the next id and paid |
| PaymentRoutes.ForbiddenChangesNothing | backend/routes/paymentRoutes.js:30-38 | a caller who may not pay gets 403 and no record changes |
| PaymentRoutes.ChargeTwiceRestamps | backend/routes/paymentRoutes.js:63-66 | charging again finds the same invoice, creates none, and re-stamps its paid time |
| PaymentRoutes.PayInvoice | backend/routes/paymentRoutes.js:47-67 | the answer, the invoices and the id counter are EnsurePaid's, so an existing invoice is paid in place and a missing one is created and paid |
| PaymentRoutes.PayExisting | backend/routes/paymentRoutes.js:63-67 | only that invoice changes, as PaidNow says |
| PaymentRoutes.ChargeBooking | backend/routes/paymentRoutes.js:18-78 | the answer and the database are left as Charge says |
| UserModel.ParseRole | backend/models/user.js:10 | only user, provider and admin are roles |
| UserModel.ParseRoleName | backend/models/user.js:10 | every role round-trips through its spelling |
| UserModel.CreateUser | backend/models/user.js:5-13 | a user is stored exactly when name and email are non-empty and the password has at least 6 characters, with the given name, password, role and status and the email lower-case; a refusal is 400 |
| ProfileModel.KindOf | backend/models/providerProfile.js:7-14 | a path is undeclared exactly when the schema does not list it |
| Casts.CastString | backend/models/providerProfile.js:7-9 | the String cast: null and undefined stay, a string, number or boolean becomes its `String` form, a document its string `_id`, an array 400 |
| Casts.CastTrimmed | backend/models/providerProfile.js:7-9 | the String cast, then the `trim` setter on the text it gives; it fails exactly when the cast does |
| Casts.CastTrimmedIdempotent | backend/models/providerProfile.js:7-9 | a trimmed value casts to itself again |
| Casts.CastItems | backend/models/providerProfile.js:10-12 | every element cast and trimmed, in order, or 400 exactly when one element's cast fails |
| Casts.CastTrimmedList | backend/models/providerProfile.js:10-12 | an array path: null stays, a lone value is wrapped, every element is cast and trimmed |
| Casts.CastTrimmedListIdempotent | backend/models/providerProfile.js:10-12 | a stored list casts to itself again |
| Casts.CastNumber | backend/models/providerProfile.js:13-14 | the Number cast: null stays, "" becomes null, a numeric text or a boolean becomes its number, NaN, arrays and objects give 400 |
| Casts.CastNumberIdempotent | backend/models/providerProfile.js:13-14 | a stored number casts to itself again |
| Casts.CastNumberOfText | backend/models/providerProfile.js:13-14 | the decimal text of an integer casts to that integer |
| Js.ZeroFractionNumber | backend/controllers/serviceController.js:84-86 | `Number` of digits, a point and only zeros ("10.0", "7.") is the whole part |
| Js.ExponentNumber | backend/controllers/serviceController.js:84-86 | `Number` of digits with an exponent `e` or `E+` ("1e2") is the digits' value times that power of ten |
| Js.RadixLiteral | backend/controllers/serviceController.js:84-86 | `Number` of a 0x, 0o or 0b prefix followed by digits of that base ("0x1F") is their value |
| Js.DigitsNumberNegative | backend/controllers/serviceController.js:84-86 | `Number` of a minus sign and digits is the negated value of the digits |
| ProfileModel.CastPathTyped | backend/models/providerProfile.js:7-14 | whatever a declared path's cast accepts is a trimmed text, a list of trimmed texts, an integer or null, as the path declares |
| ProfileModel.CastPathIdempotent | backend/models/providerProfile.js:7-14 | a value a path's cast produced casts to itself again |
| ProfileModel.CastContent | backend/models/providerProfile.js:4-24 | strict mode and the casts: undeclared paths are dropped; 400 exactly when a declared path's cast fails; otherwise each declared path holds its cast value |
| ProfileModel.CastOne | backend/models/providerProfile.js:4-24 | a document with one declared path whose value casts is stored as that path with its cast value |
| ProfileModel.CastOneFails | backend/models/providerProfile.js:4-24 | a document with one declared path whose value fails its cast is refused with 400 |
| ProfileModel.CastContentTyped | backend/models/providerProfile.js:4-24 | cast content holds only values of their paths' types |
| ProfileModel.CastContentIdempotent | backend/models/providerProfile.js:4-24 | cast content casts to itself again |
| ProfileModel.CreateProfile | backend/models/providerProfile.js:4-24 | a profile is stored exactly when the casts succeed and the cast values pass the validators; it holds the cast values, zero rating aggregates and the verification flag given |
| ProfileModel.PaddedNameTrimmed | backend/models/providerProfile.js:7 | a display name " Bob " is stored as "Bob" |
| ProfileModel.TrimBeforeMaxlength | backend/models/providerProfile.js:7 | 120 characters and a trailing space pass `maxlength: 120`, because the setter trims first |
| ProfileModel.TextRateRefused | backend/models/providerProfile.js:13 | an hourly rate "abc" fails the Number cast: 400 |
| ProfileModel.NegativeTextRateRefused | backend/models/providerProfile.js:13 | an hourly rate "-5" is cast to -5 and refused by `min: 0`: 400 |
| ProviderController.EnsureProvider | backend/controllers/providerController.js:6-12 | passes exactly a caller whose role is provider; anyone else gets 403 |
| ProviderController.EnsureAdmin | backend/controllers/providerController.js:13-19 | passes exactly an admin caller; anyone else gets 403 |
| ProviderController.ProfileOf | backend/controllers/providerController.js:66 | finds the user's profile when there is one, and none only when no profile has that user |
| ProviderController.ProfileOfUnique | backend/models/providerProfile.js:6 | with one profile per user, looking up a profile's user finds that profile |
| ProviderController.Listing | backend/controllers/providerController.js:49-51 | `find(query).sort(key)`: every matching profile exactly once, in descending key order |
| ProviderController.PublicVerified | backend/controllers/providerController.js:33-35 | anything but `verified=0`, an absent value included, keeps verified profiles only |
| ProviderController.ListProviders | backend/controllers/providerController.js:31-57 | exactly the profiles matching the filters, verified only unless `verified=0`, once each, sorted by verification, rating and update time, all descending |
| ProviderController.AdminVerified | backend/controllers/providerController.js:160-163 | `1` selects verified profiles, `0` unverified ones, anything else keeps all |
| ProviderController.AdminList | backend/controllers/providerController.js:157-184 | 403 for non-admins; otherwise exactly the selected profiles, each once, sorted verified first, then newest first |
| ProviderController.GetProvider | backend/controllers/providerController.js:64-81 | 404 exactly when the user has no profile; a profile is shown only when it is verified, or the caller is its user or an admin; an existing profile is always shown to its own user and to an admin, when the user document is there or there is no caller |
| ProviderController.VerifiedVisible | backend/controllers/providerController.js:73-77 | a verified profile is shown to every caller |
| ProviderController.UnverifiedHidden | backend/controllers/providerController.js:73-75 | an unverified profile is refused to everyone but its own user and admins |
| ProviderController.MyProfile | backend/controllers/providerController.js:87-99 | 403 for non-providers; a provider's existing profile is always the one found; without one, a new unverified one named after the caller, trimmed (`'Provider'` when the name is empty), Ok exactly when that name is at most 120 long and 400 otherwise |
| ProviderController.NameProfile | backend/controllers/providerController.js:92 | the lazily created profile holds the trimmed name, and is refused exactly when that is longer than 120 |
| ProviderController.KeepProfiles | backend/models/providerProfile.js:6 | writing a well-formed profile back for the same user keeps the collection valid and one profile per user |
| ProviderController.AddProfile | backend/models/providerProfile.js:6 | adding a well-formed profile for a user without one keeps the collection valid |
| ProviderController.ApplyUpsert | backend/controllers/providerController.js:117-121 | an upsert's write replaces the matched profile; its insert takes the next id |
| ProviderController.GetMyProfile | backend/controllers/providerController.js:87-99 | the answer is MyProfile's; afterwards the provider has a profile |
| ProviderController.Whitelisted | backend/controllers/providerController.js:109-115 | exactly the eight allowed keys the body supplies with a defined value, each with its value |
| ProviderController.CollectUpdates | backend/controllers/providerController.js:112-115 | the loop over the allowed keys builds exactly the whitelisted updates |
| ProviderController.UpdateAsWritten | backend/controllers/providerController.js:117-121 | as written: 400 exactly when a cast fails; otherwise the caller's profile with the cast updates merged in, or a new unverified one holding them, with no validators applied |
| ProviderController.UpdateKeepsWellFormed | backend/controllers/providerController.js:117-121 | the as-written update still stores only declared, cast paths |
| ProviderController.NegativeRateStored | backend/controllers/providerController.js:117-121 | a negative hourly rate is inserted as it is, and the stored profile fails the validators (`min: 0`) |
| ProviderController.UpdateProfile | backend/controllers/providerController.js:106-127 | corrected, with the validators applied: it succeeds exactly when the casts succeed and the cast updates pass the validators, and then agrees with the as-written update |
| ProviderController.UpdateKeepsValid | backend/controllers/providerController.js:106-127 | the corrected update keeps a valid profile valid, and what it inserts is valid |
| ProviderController.NegativeRateRefused | backend/controllers/providerController.js:117-121 | corrected, a rate of -5, as a number or as the text "-5", is refused with 400 |
| ProviderController.UpdateKeepsVerification | backend/controllers/providerController.js:101-111 | an update never touches the verification flag, its date or the rating aggregates |
| ProviderController.ValidUpdateAccepted | backend/controllers/providerController.js:106-127 | an update whose values cast and pass the validators always succeeds under the corrected update, with the content keys the cast keeps |
| ProviderController.UpdateMyProfile | backend/controllers/providerController.js:106-127 | as written: 403 for non-providers, 400 when a cast fails and nothing changes; on success the as-written update is stored, only whitelisted content changes and the verification flag stays |
| ProviderController.UpdateMyProfileCorrected | backend/controllers/providerController.js:106-127 | corrected: the same with the validators applied, so a valid profile stays valid |
| ProviderController.VerifyDecision | backend/controllers/providerController.js:133-151 | 403 for non-admins, 400 unless `verified` is a boolean; otherwise the user's profile gets the flag, with the date set when true and cleared when false, created when missing |
| ProviderController.VerifyThenUnverify | backend/controllers/providerController.js:141-145 | verifying then unverifying writes both times to one profile and keeps its content |
| ProviderController.SetVerified | backend/controllers/providerController.js:133-151 | the answer and the stored profile are VerifyDecision's; on error nothing changes |
| ProviderRoutes.TrimAll | backend/routes/providerRoutes.js:12 | `.map(s => s.trim())`: one trimmed piece per piece |
| ProviderRoutes.NormalizeList | backend/routes/providerRoutes.js:10-14 | an array keeps exactly its truthy elements; a string gives exactly its non-empty trimmed comma-separated pieces, each trimmed and comma-free; anything else gives [] |
| ProviderRoutes.SplitList | backend/routes/providerRoutes.js:12 | the pieces kept are exactly the non-empty texts among the trimmed pieces of the split on ','; each is trimmed and has no comma |
| ProviderRoutes.Pieces | backend/routes/providerRoutes.js:12 | the trimmed, non-empty pieces of a split are clean |
| ProviderRoutes.TrimKeepsOut | backend/routes/providerRoutes.js:12 | trimming cannot bring a comma in |
| ProviderRoutes.NormalizeListIdempotent | backend/routes/providerRoutes.js:10-14 | normalising a normalised list changes nothing |
| ProviderRoutes.BuildQuery | backend/routes/providerRoutes.js:16-31 | a condition exactly for each non-empty category, area, skill and search text, holding that value |
| ProviderRoutes.BuildQueryAgrees | backend/routes/providerRoutes.js:16-31 | the built query selects exactly what the controller's inline query selects (backend/controllers/providerController.js:36-47) |
| ProviderRoutes.VerifiedRule | backend/routes/providerRoutes.js:44-49 | `0` selects unverified profiles, only an admin asking for `all` gets no condition, every other request selects verified ones |
| ProviderRoutes.ListPublic | backend/routes/providerRoutes.js:42-55 | exactly the profiles matching the filters and the verified rule, once each, sorted by verification, rating and update time |
| ProviderRoutes.MixedListOnlyForAdmins | backend/routes/providerRoutes.js:48-49 | a list holding both a verified and an unverified profile was asked for by an admin with `all` |
| ProviderRoutes.AdminListRoute | backend/routes/providerRoutes.js:33-65 | 403 for non-admins; otherwise every profile matching the filters, verified or not, each once, sorted by (isVerified, rating, updatedAt) descending |
| ProviderRoutes.Default | backend/routes/providerRoutes.js:81-94 | a destructuring default applies only to an undefined field |
| ProviderRoutes.DisplayName | backend/routes/providerRoutes.js:96 | the first truthy of fullName and name, trimmed; a truthy non-string fails; neither gives "" |
| ProviderRoutes.YearsExperience | backend/routes/providerRoutes.js:126 | the first non-nullish of experienceYears and experience as a number, 0 when not numeric; never NaN |
| ProviderRoutes.Fields | backend/routes/providerRoutes.js:117-128 | every defined field is in the document with its value, and nothing else is |
| ProviderRoutes.ApplyContentName | backend/routes/providerRoutes.js:117-128 | the trimmed display name survives strict mode and the casts into the stored profile |
| ProviderRoutes.ApplyDecision | backend/routes/providerRoutes.js:79-141 | 400 without a truthy display name, email and password, or when the String cast of email or password fails; otherwise exactly Register's outcome on the cast texts, so a request whose texts pass and whose email is free is accepted; an accepted profile is unverified, valid and holds the cast content |
| ProviderRoutes.FieldText | backend/routes/providerRoutes.js:101-111 | a request field after the String cast of `findOne` and `create`: a text stays itself; otherwise its cast text, or nothing when the cast fails |
| ProviderRoutes.Register | backend/routes/providerRoutes.js:101-128 | 409 exactly when the email (lower-cased) is taken; otherwise Ok exactly when the user validates, with the provider user pending and holding the name, lower-cased email and password, and the profile from CreateProfile; every other error is 400 |
| ProviderRoutes.NumericPasswordStored | backend/routes/providerRoutes.js:97-115 | a truthy number sent as the password is accepted and stored as its decimal text |
| ProviderRoutes.TakenEmailRefused | backend/routes/providerRoutes.js:101-105 | an email already registered, in any letter case, answers 409 |
| ProviderRoutes.AddUser | backend/models/user.js:8 | adding a valid user with an unused email keeps the collection valid |
| ProviderRoutes.AddApplicant | backend/routes/providerRoutes.js:107-114 | `User.create`: one user added under the next id |
| ProviderRoutes.StoreApplied | backend/routes/providerRoutes.js:107-128 | the user is stored first; the profile follows when it validates, else 400 with the user left in place |
| ProviderRoutes.Apply | backend/routes/providerRoutes.js:79-141 | on a refusal nothing changes; otherwise what ApplyDecision made is stored, user then profile |
| ProviderRoutes.StringFalseVerifies | backend/routes/providerRoutes.js:150 | `Boolean("false")` is true, so the string "false" verifies |
| ProviderRoutes.VerifyRoute | backend/routes/providerRoutes.js:146-158 | 403 for non-admins, 404 when the user has no profile, Ok for an admin when a profile exists; then only the profile's flag changes, to the truthiness of `verified` |
| ProviderRoutes.VerifiedUser | backend/routes/providerRoutes.js:160-162 | the user becomes a provider, approved when verified and pending otherwise; name, email and password stay |
| ProviderRoutes.KeepUsers | backend/models/user.js:8 | rewriting a user without touching the email keeps the collection valid |
| ProviderRoutes.UpdateUser | backend/routes/providerRoutes.js:160-162 | `findByIdAndUpdate` changes that user when it exists and nothing otherwise |
| ProviderRoutes.Verify | backend/routes/providerRoutes.js:146-168 | a refusal changes nothing; otherwise the profile and then the user are updated |
| ProviderRoutes.LegacyAliasNotFound | backend/routes/providerRoutes.js:170-174 | as written: a request through the legacy path falls out of the router and is not handled |
| ProviderRoutes.AdminPathVerifies | backend/routes/providerRoutes.js:146 | the admin path reaches the verify handler with its user id |
| ProviderRoutes.LegacyAliasFixed | backend/routes/providerRoutes.js:170-174 | with the rewritten url dispatched again, the legacy path reaches the verify handler with the same user id |
| AdminProviderRoutes.ListApplications | backend/routes/adminProviderRoutes.js:10-13 | every application exactly once, newest first |
| AdminProviderRoutes.Approved | backend/routes/adminProviderRoutes.js:22-27 | the user becomes an approved provider; name, email and password stay |
| AdminProviderRoutes.Rejected | backend/routes/adminProviderRoutes.js:38-42 | the user becomes rejected and keeps its role, name, email and password |
| AdminProviderRoutes.Decided | backend/routes/adminProviderRoutes.js:16-44 | a decision keeps the email and keeps a valid user valid |
| AdminProviderRoutes.DecideIdempotent | backend/routes/adminProviderRoutes.js:16-44 | deciding twice the same way changes nothing the second time |
| AdminProviderRoutes.Decide | backend/routes/adminProviderRoutes.js:16-44 | 404 for an unknown application; otherwise its status is set, then its user is updated when it exists |
| ServiceController.Pick | backend/controllers/serviceController.js:5-10 | exactly the listed keys the body has, with their values |
| ServiceController.PickIdempotent | backend/controllers/serviceController.js:5-10 | picking twice with the same keys is picking once |
| ServiceController.ListServices | backend/controllers/serviceController.js:16-25 | every service when `includeInactive=1`, else exactly the active ones; newest first |
| ServiceController.GetService | backend/controllers/serviceController.js:30-38 | the service, or 404 exactly when it is absent |
| ServiceController.PriceValue | backend/controllers/serviceController.js:84-86 | a string price becomes its number and is refused when not finite; any other price is kept |
| ServiceController.NewService | backend/controllers/serviceController.js:45-69 | 400 when the name is falsy or the price undefined or null; otherwise an active service of the caller with the body's fields |
| ServiceController.CreateService | backend/controllers/serviceController.js:45-69 | the answer is NewService's; on success the service takes the next id, otherwise nothing changes |
| ServiceController.Updated | backend/controllers/serviceController.js:88-92 | each picked path replaces its field; the others and the provider stay |
| ServiceController.UpdateDecision | backend/controllers/serviceController.js:75-99 | a price that does not cast is 400, an unknown id 404; otherwise exactly the picked fields change, a string price as its number |
| ServiceController.UpdateIgnoresOtherKeys | backend/controllers/serviceController.js:77-83 | a body without any accepted key leaves the service as it was |
| ServiceController.UpdateService | backend/controllers/serviceController.js:75-99 | the answer is UpdateDecision's and only that service is replaced |
| ServiceController.RemoveService | backend/controllers/serviceController.js:105-113 | 404 when absent; otherwise exactly that service is removed |
| CsvButton.Escape | frontend/src/components/admin/CsvButton.jsx:25 | doubling quotes adds no new character, and a text without quotes is unchanged |
| CsvButton.SafeCsvAsWritten | frontend/src/components/admin/CsvButton.jsx:23-28 | as written: null and undefined give ""; a text with ',', '"' or '\n' is quoted with its quotes doubled; any other text, one with '\r' included, is left bare |
| CsvButton.SafeCsv | frontend/src/components/admin/CsvButton.jsx:23-28 | corrected: the same, except that '\r' causes quoting too (section 2, rule 6 of RFC 4180) |
| CsvButton.ReadQuotedEscape | frontend/src/components/admin/CsvButton.jsx:25-26 | the escaped text followed by a closing quote reads back as the text |
| CsvButton.SafeCsvQuote | frontend/src/components/admin/CsvButton.jsx:23-28 | `safeCsv` quotes exactly the texts that need quotes |
| CsvButton.ReadFieldQuote | frontend/src/components/admin/CsvButton.jsx:25-27 | a text quoted as needed, followed by ',', '\n' or the end, reads back as the text |
| CsvButton.ReadFieldSafe | frontend/src/components/admin/CsvButton.jsx:23-28 | an escaped cell before ',', '\n' or the end reads back as the cell's text |
| CsvButton.EscapedQuoted | frontend/src/components/admin/CsvButton.jsx:6 | escaping the cells is quoting their texts |
| CsvButton.ReadRecordLine | frontend/src/components/admin/CsvButton.jsx:6 | a row of escaped cells joined by ',' reads back as one record of the cells' texts |
| CsvButton.ReadRecordQuoted | frontend/src/components/admin/CsvButton.jsx:6 | quoted texts joined by ',' read back as the texts |
| CsvButton.ReadTableLines | frontend/src/components/admin/CsvButton.jsx:6 | rows joined by '\n' read back as the table of the cells' texts |
| CsvButton.Cells | frontend/src/components/admin/CsvButton.jsx:5-6 | one cell per column, picked by the accessor or by the key |
| CsvButton.Records | frontend/src/components/admin/CsvButton.jsx:6 | one record per row, each with one cell per column |
| CsvButton.Heads | frontend/src/components/admin/CsvButton.jsx:4 | one header per column |
| CsvButton.Export | frontend/src/components/admin/CsvButton.jsx:2-7 | as written: no document exactly when there are no rows |
| CsvButton.ExportCorrected | frontend/src/components/admin/CsvButton.jsx:2-7 | corrected: no document exactly when there are no rows |
| CsvButton.PlainHeadCells | frontend/src/components/admin/CsvButton.jsx:4-7 | headers without special characters are their own escaping, which is why the unescaped header line still reads back |
| CsvButton.ExportCorrectedRoundTrip | frontend/src/components/admin/CsvButton.jsx:2-7 | corrected: with at least one column and plain headers, the document reads back as the header row followed by one record per row of the cells' texts |
| CsvButton.SafeCsvAgrees | frontend/src/components/admin/CsvButton.jsx:23-28 | on a text without '\r' the as-written and corrected escapings agree |
| CsvButton.EscapedAgrees | frontend/src/components/admin/CsvButton.jsx:6 | the same for a whole row of cells |
| CsvButton.LinesAgree | frontend/src/components/admin/CsvButton.jsx:6 | the same for every row |
| CsvButton.ExportRoundTrip | frontend/src/components/admin/CsvButton.jsx:2-7 | as written: with at least one column, plain headers and no '\r' in any cell's text, the document reads back as the header row followed by one record per row of the cells' texts |
| CsvButton.CarriageReturnUnquoted | frontend/src/components/admin/CsvButton.jsx:26 | as written, "a\rb" is emitted bare and does not read back as a record |
| CsvButton.CarriageReturnQuoted | frontend/src/components/admin/CsvButton.jsx:26 | corrected, "a\rb" is quoted and reads back as itself |
| Favorites.IndexOf | frontend/src/lib/favorites.js:10 | `indexOf`: -1 exactly when the id is absent, else the position of its first occurrence |
| Favorites.IndexOfAppend | frontend/src/lib/favorites.js:10-11 | appending an id keeps the positions of the ids already present |
| Favorites.Dedup | frontend/src/lib/favorites.js:6 | `Array.from(new Set(ids))`: no duplicates, the same ids, in order of first occurrence |
| Favorites.DedupDistinct | frontend/src/lib/favorites.js:6 | a list without duplicates is stored as it is |
| Favorites.OthersAppend | frontend/src/lib/favorites.js:11 | pushing an id leaves the other ids as they were |
| Favorites.SplitAtFirst | frontend/src/lib/favorites.js:10-11 | `splice(idx, 1)` removes exactly the first occurrence |
| Favorites.DistinctParts | frontend/src/lib/favorites.js:11 | removing one id from a duplicate-free list leaves no copy of it |
| Favorites.ToggleKeepsOthers | frontend/src/lib/favorites.js:8-14 | a toggle changes no other id |
| Favorites.ToggleFlips | frontend/src/lib/favorites.js:8-15 | after a toggle the id is a favourite exactly when it was not before |
| Favorites.ToggleTwice | frontend/src/lib/favorites.js:8-14 | on a duplicate-free list, toggling twice restores every id's membership, and the very list when the id was absent |
| Favorites.ToggleStored | frontend/src/lib/favorites.js:8-14 | for a duplicate-free list, the list stored after a toggle is the toggled list itself |
| Favorites.FavoriteStore.FavIds | frontend/src/lib/favorites.js:2-4 | `getFavIds`: [] when nothing, or something unparsable, is stored |
| Favorites.FavoriteStore.SetFavIds | frontend/src/lib/favorites.js:5-7 | the store holds the ids without duplicates, in first-occurrence order, and `isFav` holds exactly for the ids given |
| Favorites.FavoriteStore.ToggleFav | frontend/src/lib/favorites.js:8-14 | returns the old list with the id's first copy removed, or the id appended; stores it without duplicates, which on a duplicate-free list is the returned list itself |
| DataTable.Normalize | frontend/src/components/admin/DataTable.jsx:138-145 | the sort key of a cell: '' for null and undefined, the number itself, a string in lower case, booleans as 1 and 0; every string key is already in lower case |
| DataTable.LexAsymmetric | frontend/src/components/admin/DataTable.jsx:39-40 | string `<` never holds both ways |
| DataTable.LexTrichotomy | frontend/src/components/admin/DataTable.jsx:39-41 | two strings are equal or one is `<` the other |
| DataTable.LexTransitive | frontend/src/components/admin/DataTable.jsx:39-40 | string `<` is transitive |
| DataTable.InitialSort | frontend/src/components/admin/DataTable.jsx:27 | the table starts ascending on the first column's key, or on no key when there are no columns |
| DataTable.Click | frontend/src/components/admin/DataTable.jsx:82 | a header click sorts on that column, descending exactly when it was already sorted ascending on it |
| DataTable.ClickAlternates | frontend/src/components/admin/DataTable.jsx:82 | repeated clicks on one header alternate the direction; the first click on a new column sorts ascending |
| DataTable.FindColumn | frontend/src/components/admin/DataTable.jsx:33 | the column found has the sort key; none is found only when no column has it |
| DataTable.SortedRows | frontend/src/components/admin/DataTable.jsx:29-43 | the sorted rows are a permutation of the rows (`[...rows]` leaves the input alone) |
| DataTable.LessOrder | frontend/src/components/admin/DataTable.jsx:37-42 | on keys that are all numbers or all strings, `<` is asymmetric, trichotomous and transitive |
| DataTable.CompareOrder | frontend/src/components/admin/DataTable.jsx:37-42 | on such keys the comparator is a total preorder in either direction |
| DataTable.SortedRowsOrdered | frontend/src/components/admin/DataTable.jsx:29-43 | with keys of one kind, the sorted rows never put a larger key before a smaller one ascending, nor the reverse descending |
| DataTable.EqualKeysKeepOrder | frontend/src/components/admin/DataTable.jsx:37-42 | rows whose keys are all equal keep their order |
| DataTable.AllChecked | frontend/src/components/admin/DataTable.jsx:45-49 | the select-all box is off when the table is not selectable or has no rows, else on exactly when every row's id is selected |
| DataTable.AllCheckedAnyOrder | frontend/src/components/admin/DataTable.jsx:45-49 | the select-all state of the sorted rows equals that of the rows in their given order |
| ProviderAdmin.NormalizeRow | frontend/src/pages/admin/ProviderAdmin.jsx:152-175 | a normalised row is an object that keeps every property it does not set, has `isVerified` equal to the unified flag (explicit flags, or role 'provider' with status 'approved'), always holds a `categories` array, and a `displayName` that is truthy or '' |
| ProviderAdmin.LowerOrOfLowered | frontend/src/pages/admin/ProviderAdmin.jsx:157-158 | reading back a lower-cased text field stored as `s \|\| undefined` gives the same text |
| ProviderAdmin.LowerOrEmpty | frontend/src/pages/admin/ProviderAdmin.jsx:157-158 | a text field reads as '' exactly when it is missing or empty |
| ProviderAdmin.UserOfNormalized | frontend/src/pages/admin/ProviderAdmin.jsx:153-155 | a normalised row has the user of the row it came from |
| ProviderAdmin.RoleOfNormalized | frontend/src/pages/admin/ProviderAdmin.jsx:157 | for text roles, a normalised row has the same role |
| ProviderAdmin.StatusOfNormalized | frontend/src/pages/admin/ProviderAdmin.jsx:158 | for text statuses, a normalised row has the same provider status |
| ProviderAdmin.FlagOfNormalized | frontend/src/pages/admin/ProviderAdmin.jsx:161-164 | for text roles and statuses, a normalised row has the same verification flag |
| ProviderAdmin.NormalFieldsOfNormalized | frontend/src/pages/admin/ProviderAdmin.jsx:166-175 | the fields set on a normalised row, computed again, are the same |
| ProviderAdmin.NormalizeIdempotent | frontend/src/pages/admin/ProviderAdmin.jsx:151-175 | normalising a normalised row changes nothing |
| ProviderAdmin.NormalizeRows | frontend/src/pages/admin/ProviderAdmin.jsx:151-152 | the rows fail (reading `x.user` throws) exactly when an element is null or undefined; otherwise each element is normalised in place |
| ProviderAdmin.RowsSource | frontend/src/pages/admin/ProviderAdmin.jsx:142-149 | the list is the answer itself when it is an array, else its first array among `items`, `providers` and `data`, else empty |
| ProviderAdmin.RowsShapes | frontend/src/pages/admin/ProviderAdmin.jsx:142-149 | the same list sent bare or wrapped as `items`, `providers` or `data` gives the same rows |
| ProviderAdmin.MixedRowFlag | frontend/src/pages/admin/ProviderAdmin.jsx:157-164 | a row with its own role 'user' whose user is an approved provider is normalised as unverified |
| ProviderAdmin.MixedRowUnflagged | frontend/src/pages/admin/ProviderAdmin.jsx:157-164 | that row's unified flag is false, because the row's own role comes first |
| ProviderAdmin.MixedRowUser | frontend/src/pages/admin/ProviderAdmin.jsx:153 | that row keeps its user after normalisation |
| ProviderAdmin.ApprovedByUser | frontend/src/pages/admin/ProviderAdmin.jsx:110-113 | any row whose user is an approved provider passes the filter's `approvedNow`, which reads the user's role first |
| ProviderAdmin.FilterDisagreesWithFlag | frontend/src/pages/admin/ProviderAdmin.jsx:103-116 | as written: the 'Verified' filter keeps a row the table shows as unverified, and the 'Unverified' filter drops it |
| ProviderAdmin.ByVerified | frontend/src/pages/admin/ProviderAdmin.jsx:103-116 | corrected, on the flag the table shows: 'all' keeps every row, '1' exactly the verified rows, any other value exactly the rest, all taken from the rows |
| ProviderAdmin.ByVerifiedPartition | frontend/src/pages/admin/ProviderAdmin.jsx:103-116 | 'Verified' and 'Unverified' together hold every row once |
| ProviderAdmin.MapNormalize | frontend/src/pages/admin/ProviderAdmin.jsx:152 | each row is the normalised row at the same position |
| ProviderAdmin.ApprovedNowIsFlag | frontend/src/pages/admin/ProviderAdmin.jsx:110-113 | on a row with no role or status of its own, `approvedNow` of its normalised form is the flag the table shows |
| ProviderAdmin.UserFirst | frontend/src/pages/admin/ProviderAdmin.jsx:110-111 | the user's field read first, or the row's copy of it, give the same text |
| ProviderAdmin.KeepAgrees | frontend/src/pages/admin/ProviderAdmin.jsx:103-116 | on such a row the filter as written and the corrected one decide alike |
| ProviderAdmin.FixAgrees | frontend/src/pages/admin/ProviderAdmin.jsx:103-116 | on lists of such rows the filter as written and the corrected one keep the same rows |
| ProviderAdmin.SplitFilters | frontend/src/pages/admin/ProviderAdmin.jsx:103-116 | agreement on the first row and on the rest gives agreement on the list |
| ProviderAdmin.ElementTexts | frontend/src/pages/admin/ProviderAdmin.jsx:125 | `join` writes one text per element |
| ProviderAdmin.Search | frontend/src/pages/admin/ProviderAdmin.jsx:119-127 | a blank query (after trimming) keeps every row; otherwise exactly the rows whose name, e-mail or categories contain the lower-cased query, taken from the rows |
| ProviderAdmin.SearchIdempotent | frontend/src/pages/admin/ProviderAdmin.jsx:119-127 | searching the result again changes nothing |
| ProviderAdmin.FiltersCommute | frontend/src/pages/admin/ProviderAdmin.jsx:103-127 | the verified filter and the search can be applied in either order |
| ProviderAdmin.ByVerifiedAsWritten | frontend/src/pages/admin/ProviderAdmin.jsx:103-116 | as written: 'all' keeps every row, '1' exactly the rows `approvedNow` accepts, any other value exactly the rest, all taken from the rows |
| ProviderAdmin.ToProviderRows | frontend/src/pages/admin/ProviderAdmin.jsx:142-177 | the answer's rows are normalised one by one; a null or undefined row makes the page fail |
| ProviderAdmin.FilterRowsAsWritten | frontend/src/pages/admin/ProviderAdmin.jsx:103-127 | as written: the rows kept pass the as-written verified filter and the search and are taken from the input, and every input row that passes both ('1' approved, another choice not approved, 'all' any; a blank query or a match) is kept |
| ProviderAdmin.FilterRows | frontend/src/pages/admin/ProviderAdmin.jsx:103-127 | corrected: the same with the verified filter on the shown flag, keeping exactly the rows that pass both |
| ProviderAdmin.FetchProviders | frontend/src/pages/admin/ProviderAdmin.jsx:90-130 | as written: fails exactly when the answer holds a null row; every row returned is a normalised row of the answer that passes the as-written verified filter and the search, and every normalised row that passes both is returned |
| ProviderAdmin.FetchProvidersCorrected | frontend/src/pages/admin/ProviderAdmin.jsx:90-130 | corrected: the same with the verified filter on the flag the table shows, and every normalised row that passes both filters is returned |
| ProviderAdmin.FetchAgrees | frontend/src/pages/admin/ProviderAdmin.jsx:90-130 | when no row carries its own role or provider status, the two agree |
| ServicesPage.ServicesOf | frontend/src/pages/Services.jsx:21-26 | no services for a falsy answer; the answer itself when it is a list; its `services` list when it has one |
| ServicesPage.Values | frontend/src/pages/Services.jsx:31-32 | one chip value per service, in order |
| ServicesPage.Chips | frontend/src/pages/Services.jsx:29-39 | the chips start with 'All', followed by the distinct derived chips whenever there is one |
| ServicesPage.CategoriesDefault | frontend/src/pages/Services.jsx:36-38 | when no service has a category the chips are 'All' and the six defaults |
| ServicesPage.CategoriesDerived | frontend/src/pages/Services.jsx:29-39 | otherwise every non-empty trimmed category is a chip exactly once, no other chip appears, and the chips keep the order in which services first show them |
| ServicesPage.DerivedCategories | frontend/src/pages/Services.jsx:29-39 | the loop that adds each trimmed category to a `Set` yields the chips above |
| ServicesPage.AddChip | frontend/src/pages/Services.jsx:33 | adding a chip to the set appends it when it is new and not empty, and otherwise changes nothing |
| ServicesPage.FilterServices | frontend/src/pages/Services.jsx:43-51 | corrected: exactly the services whose lower-cased name contains the query and whose trimmed category equals the chosen chip ignoring case ('All' matches any), taken from the services |
| ServicesPage.FilterAll | frontend/src/pages/Services.jsx:43-51 | a blank query with 'All' shows every service |
| ServicesPage.ChipShowsItsServices | frontend/src/pages/Services.jsx:29-51 | corrected: choosing a chip shows every service that contributed it |
| ServicesPage.OneService | frontend/src/pages/Services.jsx:29-39 | a single service with a category gives the chips 'All' and that category |
| ServicesPage.PaddedValue | frontend/src/pages/Services.jsx:32 | a category with one leading space gives the chip without the space |
| ServicesPage.PaddedChip | frontend/src/pages/Services.jsx:29-39 | such a service contributes that chip |
| ServicesPage.PaddedCategoryHidden | frontend/src/pages/Services.jsx:47-49 | as written: choosing that chip hides the very service that contributed it, because the category is compared untrimmed |
| ServicesPage.PaddedCategoryShown | frontend/src/pages/Services.jsx:47-49 | corrected: comparing the trimmed category, the same chip shows it |
| ServicesPage.PaddedCleaning | frontend/src/pages/Services.jsx:32 | the category " Cleaning" is such a padded category |
| ServicesPage.Price | frontend/src/pages/Services.jsx:54-57 | the price read for sorting is never NaN |
| ServicesPage.Rating | frontend/src/pages/Services.jsx:58 | the rating read for sorting is never NaN |
| ServicesPage.Reviews | frontend/src/pages/Services.jsx:59 | the review count read for sorting is never NaN |
| ServicesPage.SortServices | frontend/src/pages/Services.jsx:62-83 | sorting is a permutation of the list |
| ServicesPage.FilterAsWritten | frontend/src/pages/Services.jsx:43-51 | as written: exactly the services whose name matches the query and whose untrimmed category equals the chosen chip ignoring case, taken from the services |
| ServicesPage.Visible | frontend/src/pages/Services.jsx:42-85 | as written: the services shown are the as-written filter's, each as often as there, and each matches the query and the untrimmed category test |
| ServicesPage.VisibleCorrected | frontend/src/pages/Services.jsx:42-85 | corrected: the corrected filter's services, each as often as there, each matching the query and the trimmed category |
| ServicesPage.VisibleAgrees | frontend/src/pages/Services.jsx:42-85 | when every category is stored trimmed, the page as written shows what the corrected one does |
| ServicesPage.ComparatorByKey | frontend/src/pages/Services.jsx:62-83 | on finite numbers, each comparator lets a service go before another exactly when its key is not below the other's |
| ServicesPage.SortedByKey | frontend/src/pages/Services.jsx:62-83 | each order lists services by non-increasing key |
| ServicesPage.PriceAscOrdered | frontend/src/pages/Services.jsx:66-67 | 'price_asc' lists prices from low to high |
| ServicesPage.PriceDescOrdered | frontend/src/pages/Services.jsx:69-70 | 'price_desc' lists prices from high to low |
| ServicesPage.RatingOrdered | frontend/src/pages/Services.jsx:63-64 | 'rating' lists the best rated first |
| ServicesPage.NewestOrdered | frontend/src/pages/Services.jsx:72-73 | 'newest' lists the most recently created first |
| ServicesPage.PopularOrdered | frontend/src/pages/Services.jsx:75-81 | 'popular', and any unknown choice, lists the most reviewed first and, among equals, the best rated first |
| Checkout.Dashless | frontend/src/pages/Checkout.jsx:339 | same length; each '-' and '_' becomes a space and every other character stays |
| Checkout.LabelText | frontend/src/pages/Checkout.jsx:339 | the text a label is built from has no dashes or underscores and no white space at either end |
| Checkout.TrimUndashed | frontend/src/pages/Checkout.jsx:339 | trimming keeps a text free of dashes and underscores |
| Checkout.Capitalized | frontend/src/pages/Checkout.jsx:340 | an empty text gives '—'; otherwise the same text with its first character upper-cased |
| Checkout.UpperIdempotent | frontend/src/pages/Checkout.jsx:340 | upper-casing an upper-cased character changes nothing |
| Checkout.Labelize | frontend/src/pages/Checkout.jsx:338-341 | a label is never empty, never has white space at either end and never holds a dash or underscore |
| Checkout.DashlessOfClean | frontend/src/pages/Checkout.jsx:339 | a text without dashes or underscores is left alone |
| Checkout.LabelizeIdempotent | frontend/src/pages/Checkout.jsx:338-341 | a label labels as itself |
| Checkout.LabelizeSeparators | frontend/src/pages/Checkout.jsx:338-341 | words that differ only in their separators, like `on_the_way` and `on-the-way`, get the same label |
| Checkout.LabelizeBlank | frontend/src/pages/Checkout.jsx:338-341 | falsy values, and words made only of separators and white space, show '—' |
| Checkout.FirstFinite | frontend/src/pages/Checkout.jsx:319-325 | the first argument that converts to a finite number, or 0 when none does |
| Checkout.NumberOr | frontend/src/pages/Checkout.jsx:319-325 | the loop returns that first finite number, or 0 |
| Checkout.NumberOrNull | frontend/src/pages/Checkout.jsx:48-54 | a missing price field is skipped but a `null` one reads as 0 and ends the search |
| Checkout.FindById | frontend/src/pages/Checkout.jsx:35 | the index of the first booking whose id text equals the requested one; none only when no booking has it |
| Checkout.BookingOf | frontend/src/pages/Checkout.jsx:33-37 | null without data; a truthy booking when the answer is not a list; undefined for an empty list |
| Checkout.BookingShapes | frontend/src/pages/Checkout.jsx:33-37 | the same booking sent bare, as `{ booking }` or as `{ data: { booking } }` is found the same |
| Checkout.BookingInList | frontend/src/pages/Checkout.jsx:35 | in a list, the booking with the requested (unique) id is found wherever it stands |
| Checkout.BookingListFallback | frontend/src/pages/Checkout.jsx:35 | a list without the requested id falls back to its first booking |
| Checkout.IsPaidIff | frontend/src/pages/Checkout.jsx:59 | a booking shows as paid exactly when its payment status reads "paid" in any case |
| Checkout.IsPaidExamples | frontend/src/pages/Checkout.jsx:59 | "PAID" is paid; "unpaid" and a missing booking are not |
| Checkout.Stop | frontend/src/pages/Checkout.jsx:74-85 | the loop stops at the first attempt that resolves or fails with a status outside 400, 401, 403, 404 and 405, or else at the last attempt |
| Checkout.Pay | frontend/src/pages/Checkout.jsx:66-86 | the payment gives the outcome of the attempt where the loop stops (success returned, other errors rethrown at once, the last error when all ask to go on), after sending exactly the attempts up to it |
| Checkout.PayAsFirstOk | frontend/src/pages/Checkout.jsx:74-85 | when every error asks to go on, paying settles exactly as `firstOk` does |
| Checkout.PayNetworkError | frontend/src/pages/Checkout.jsx:80-82 | an error without a response fails the payment at once |
| Attempts.FirstOkFrom | frontend/src/pages/admin/ProviderAdmin.jsx:180-190 | from a given attempt on: the first that resolves; when all throw, the last error; with none left, the previous error or 'No working endpoint' |
| Attempts.FirstOkOf | frontend/src/pages/admin/ProviderAdmin.jsx:180-190 | 'No working endpoint' for no attempts; the first attempt that resolves; the last error when all throw |
| Attempts.RunsFrom | frontend/src/pages/admin/ProviderAdmin.jsx:182-188 | from a given attempt on, the attempts started stop just after the first that resolves, or run to the end |
| Attempts.Runs | frontend/src/pages/admin/ProviderAdmin.jsx:182-188 | `firstOk` starts every attempt up to the first that resolves and no later one, and all of them when none resolves |
| Attempts.FirstOk | frontend/src/pages/admin/ProviderAdmin.jsx:180-190 | the loop settles as described and starts just those attempts |
| AdminHome.CountAny | frontend/src/pages/admin/AdminHome.jsx:84 | 0 for a falsy answer; the length of a bare list; a negative count only when it is the answer's numeric `total` |
| AdminHome.ItemsCount | frontend/src/pages/admin/AdminHome.jsx:84 | any object answer with a list under `items` counts that list, whatever else it holds |
| AdminHome.DataCount | frontend/src/pages/admin/AdminHome.jsx:84 | without a list under `items`, a list under `data` is counted, whatever `total` says |
| AdminHome.TotalCount | frontend/src/pages/admin/AdminHome.jsx:84 | without either list, the numeric `total`, or 0 when `total` is missing or not a number |
| AdminHome.CountShapes | frontend/src/pages/admin/AdminHome.jsx:84 | the same list counts the same bare, under `items` or under `data` beside any other fields |
| RealtimeBookings.SubscribeMessage | frontend/src/hooks/useRealTimeBookings.js:56-61 | with ids, a subscription to exactly those ids; without ids, a subscription to everything unless `subscribeAll` is `false`, and then no message |
| RealtimeBookings.SubscribeAllByDefault | frontend/src/hooks/useRealTimeBookings.js:56-61 | without ids, leaving `subscribeAll` out subscribes to everything; only `false` sends nothing |
| RealtimeBookings.Normalize | frontend/src/hooks/useRealTimeBookings.js:8-30 | no event exactly for a falsy message; otherwise an event that keeps the raw message, always has a type, and has booking, id and status each truthy or null |
| RealtimeBookings.TypeDefault | frontend/src/hooks/useRealTimeBookings.js:8-30 | a message that names no type or event is an update |
| RealtimeBookings.BookingIdSources | frontend/src/hooks/useRealTimeBookings.js:8-30 | the event's id is the message's `bookingId`, else the carried booking's `_id`, else its `id`, and it is missing exactly when none of them is there |
| RealtimeBookings.StatusSources | frontend/src/hooks/useRealTimeBookings.js:8-30 | the event's status is the message's own, else the booking's, else null |
| RealtimeBookings.CarrierShapes | frontend/src/hooks/useRealTimeBookings.js:8-30 | a booking sent under `booking`, `data` or `payload` gives the same id, status and booking |
| RealtimeBookings.Accepted | frontend/src/hooks/useRealTimeBookings.js:73-86 | an event passes only for a booking message whose event has an id the id list lets through, and every such message passes |
| RealtimeBookings.Handle | frontend/src/hooks/useRealTimeBookings.js:68-98 | the handler's effects: nothing for unparsable or filtered messages; else each query key invalidated in order, then the callback |
| RealtimeBookings.InvalidateThenDeliver | frontend/src/hooks/useRealTimeBookings.js:89-96 | every key is invalidated, in order, before the callback; the callback runs at most once, last, with an event whose id the list lets through |
| RealtimeBookings.NoIdNoEffect | frontend/src/hooks/useRealTimeBookings.js:82-83 | a message without a booking id reaches neither the cache nor the callback |
| RealtimeBookings.OtherBookingIgnored | frontend/src/hooks/useRealTimeBookings.js:86 | with an id list, an event for another booking does nothing |
| RealtimeBookings.KnownWithIdDelivered | frontend/src/hooks/useRealTimeBookings.js:73-96 | a message of a known type with its own id is delivered, with that id, after every invalidation |
| Assigned.ItemsOf | frontend/src/pages/provider/Assigned.jsx:28-30 | the answer itself when it is a list; else its truthy `items`, else its truthy `bookings`, else an empty list |
| Assigned.ItemsShapes | frontend/src/pages/provider/Assigned.jsx:28-30 | the same list comes out sent bare, under `items` or under `bookings` |
| Assigned.WithStatus | frontend/src/pages/provider/Assigned.jsx:66 | the copied row has the new status and every other field of the row |
| Assigned.Updated | frontend/src/pages/provider/Assigned.jsx:66 | the same number of rows; the rows with the id get the new status and keep their other fields, and every other row is unchanged |
| Assigned.UpdatedIdempotent | frontend/src/pages/provider/Assigned.jsx:66 | setting a status twice is setting it once |
| Assigned.UpdatedElsewhere | frontend/src/pages/provider/Assigned.jsx:66 | rows whose ids all differ from the given one are left as they are |
| Assigned.WatchedIds | frontend/src/pages/provider/Assigned.jsx:45 | one watched id per row: the text of that row's `_id` |
| Assigned.RowUpdatesPass | frontend/src/pages/provider/Assigned.jsx:45-60 | a live update about any row on the page passes the hook's id filter |
| Assigned.Page.Loaded | frontend/src/pages/provider/Assigned.jsx:21-37 | after a successful load the rows are the items of the answer |
| Assigned.Page.Begin | frontend/src/pages/provider/Assigned.jsx:62-66 | a status not offered changes nothing; otherwise the old rows are kept as the snapshot, the row is marked as updating and its new status is shown |
| Assigned.Page.Settle | frontend/src/pages/provider/Assigned.jsx:67-78 | a failed request puts the snapshot back; the mark is cleared either way |
| Assigned.Page.SetStatus | frontend/src/pages/provider/Assigned.jsx:62-79 | a status not offered changes nothing; when the request succeeds the row shows the new status, and when it fails the rows are as before; no row is left marked |
| BookingsAdmin.Lookup | frontend/src/pages/admin/BookingsAdmin.jsx:53-57 | a key is found exactly when some entry has it |
| BookingsAdmin.LookupConcat | frontend/src/pages/admin/BookingsAdmin.jsx:53-57 | looking a key up in two lists of entries, the first list wins |
| BookingsAdmin.Optional | frontend/src/pages/admin/BookingsAdmin.jsx:54-57 | a filter sets its key to its value when the value is not empty, and sets no key otherwise |
| BookingsAdmin.QueryLookups | frontend/src/pages/admin/BookingsAdmin.jsx:53-57 | `page` and `limit` (10) come first and always; `status`, `from`, `to` and `q` each appear only when not empty, with their values |
| BookingsAdmin.QueryNothingElse | frontend/src/pages/admin/BookingsAdmin.jsx:53-57 | no key other than those six is in the query |
| BookingsAdmin.FiltersLookup | frontend/src/pages/admin/BookingsAdmin.jsx:54-57 | each filter key reads its own value when it is set, and nothing else is set |
| BookingsAdmin.Search | frontend/src/pages/admin/BookingsAdmin.jsx:53-57 | setting the entries one by one builds that query |
| BookingsAdmin.ItemsOf | frontend/src/pages/admin/BookingsAdmin.jsx:60 | the answer itself when it is a list, else its truthy `items`, else an empty list |
| BookingsAdmin.AnswerDefaults | frontend/src/pages/admin/BookingsAdmin.jsx:62-63 | without a total the number of rows stands for it; without a page number, the page asked for |
| BookingsAdmin.AnswerNumbers | frontend/src/pages/admin/BookingsAdmin.jsx:60-63 | a non-zero numeric total and page are taken as they are |
| BookingsAdmin.MergeRow | frontend/src/pages/admin/BookingsAdmin.jsx:84 | the merged row has the event's status, or the row's own when the event's is null or undefined; the booking's fields win over the row's, and the row's other fields stay |
| BookingsAdmin.Merged | frontend/src/pages/admin/BookingsAdmin.jsx:81-87 | the same number of rows; the rows whose id text is the event's are merged with it, and the others are unchanged |
| BookingsAdmin.EventStatus | frontend/src/pages/admin/BookingsAdmin.jsx:80-84 | an event from the hook without a status keeps the row's status, and one with a status sets it |
| BookingsAdmin.AssignRow | frontend/src/pages/admin/BookingsAdmin.jsx:120 | the row's provider has the new id and keeps its other fields; the row's other fields stay |
| BookingsAdmin.Assigned | frontend/src/pages/admin/BookingsAdmin.jsx:118-122 | the same number of rows; the rows with the id get the provider, and the others are unchanged |
| BookingsAdmin.AssignIdempotent | frontend/src/pages/admin/BookingsAdmin.jsx:120 | assigning the same provider again changes nothing more |
| BookingsAdmin.Page.Loaded | frontend/src/pages/admin/BookingsAdmin.jsx:49-69 | with an answer the rows, total and page come from it; without one they stay; loading ends either way |
| BookingsAdmin.Page.OnEvent | frontend/src/pages/admin/BookingsAdmin.jsx:78-89 | a live event merges into the rows and changes nothing else |
| BookingsAdmin.Page.AssignProvider | frontend/src/pages/admin/BookingsAdmin.jsx:112-132 | nothing at all without an id or a provider; otherwise the rows show the provider when the request succeeded, the mark is cleared, and the page is fetched again |
| BookingsAdmin.PagerAfterLoad | frontend/src/pages/admin/BookingsAdmin.jsx:258-262 | after an answer that names no page, 'Prev' is off exactly on the first page asked for, and 'Next' is on exactly when the page came back full |
| BookingsAdmin.PagerWhileLoading | frontend/src/pages/admin/BookingsAdmin.jsx:258-262 | nothing can be pressed while a request is running |
| BookingsAdmin.PrevAfterNaN | frontend/src/pages/admin/BookingsAdmin.jsx:258 | a page number that is NaN leaves 'Prev' enabled unless a request is running |
| ToastStore.Removed | frontend/src/components/ui/Toast.jsx:8 | exactly the toasts without that id remain, all of them from the list |
| ToastStore.RemovedOrdered | frontend/src/components/ui/Toast.jsx:8 | removal keeps the ids increasing and within the counter |
| ToastStore.RemoveAbsent | frontend/src/components/ui/Toast.jsx:8 | removing an id that no toast carries changes nothing |
| ToastStore.KindOf | frontend/src/components/ui/Toast.jsx:9 | the kind defaults to 'info' only when the argument is undefined |
| ToastStore.PushThenRemove | frontend/src/components/ui/Toast.jsx:8-13 | a push followed by the removal of its new id gives back the list as it was before the push |
| ToastStore.ToastProvider.Push | frontend/src/components/ui/Toast.jsx:9-13 | the new id is the incremented counter and above every id already shown; exactly one toast is appended; a removal is scheduled exactly when the timeout is left out or truthy |
| ToastStore.ToastProvider.Remove | frontend/src/components/ui/Toast.jsx:8 | exactly the toasts with that id go, the rest keep their order, and ids stay increasing |

## Left out

- Authentication: JWT verification (backend/middleware/authMiddleware.js) and password hashing (backend/models/user.js:15-27) are library calls; the caller arrives as an `(id, role)` value, or none where `protect` would reject.
- Express wiring: app.js, index.js and the route tables are not part of this model, and neither is roleMiddleware.js; `requireRole` gates appear as the role parameters of the handlers. Only the order in which the provider router tries its routes is modelled (`ProviderRoutes.Dispatch`), because it decides where the legacy alias goes.
- backend/controllers/userController.js and the booking handlers that backend/routes/bookingRoutes.js imports but bookingController.js does not define are not part of this model.
- Mongo query semantics: `$regex` search is an abstract `search` predicate, `populate` is left out (records hold ids), and the review average aggregate (backend/controllers/reviewController.js:21-31) is floating-point arithmetic over an aggregate pipeline.
- Sort orders Mongo applies (`createdAt`, `-createdAt`) follow ids, which the store hands out in creation order.
- Clocks and randomness: `paidAt`, `verifiedAt` and `createdAt` stamps are a `now` parameter, and `genInvoiceNumber` is a `generated` parameter.
- Floating point: numbers are integers. Invoice money is in integer cents, with `toFixed(2)` as half-up rounding to a cent. `clampMoney` and `formatPrice` (frontend/src/pages/Checkout.jsx:326-337) are left out.
- Dates: `Js.Value` has no Date objects, so the `getTime` branch of the table's `normalize` is not modelled; the catalogue's creation time is left as a `created` reader.
- Service schema: backend/models/service.js declares `title`, `isActive` and `providerId`, but serviceController.js reads and writes `name`, `active` and `provider`; the model follows the controller.
- User.providerStatus: backend/models/user.js:5-12 declares no such path, yet the provider routes write it; it is modelled as a User field, so Mongoose's strict mode, which would drop the write, is not modelled.
- Concurrency: requests run one at a time; races between requests and a partial failure between the invoice and booking writes are out.
- Realtime transport: the socket, the query cache and the `onEvent` callback are outside the model; the handler's effect on them is a log (`RealtimeBookings.Effects`), and the socket server (backend/realtime/socket.js) is not part of this model.
- Network requests on the client: each is given by its answer or by whether it succeeded; toast texts, `alert`s, navigation and cache invalidations after a success are left out.
- Attempts.FirstOk: a rejection whose value is falsy (where `lastErr \|\| new Error(...)` would throw the fallback error) is not modelled; every failure is a value.
- Checkout.Pay: requires at least one attempt, which the page always meets with its four.
- Assigned.Page.Loaded: requires the extracted items to be a list; a truthy non-array `items` would become the rows in the source.
- BookingsAdmin.Page.Loaded: requires the extracted items to be a list, for the same reason.
- BookingsAdmin: `updateStatus` (a `prompt`), `openAssign` (the provider picker) and the `paramsQS` memo are not modelled; the memo is built like `Search` and used only by the CSV export request (frontend/src/pages/admin/BookingsAdmin.jsx:151, 182), which is itself a network call left out.
- BookingsAdmin.MergeRow: spreading a booking that is not an object adds no fields, where spreading a string or an array adds its characters or elements under the keys "0", "1", ….
- BookingsAdmin.AssignRow: a provider that is a string, such as an id the list did not populate, spreads nothing here, where `{ ...(r.provider || {}), _id }` (BookingsAdmin.jsx:120) copies its characters under the keys "0", "1", … beside the new `_id`.
- DataTable.SortedRowsOrdered: proved only when every sort key is a number or every one is a string, because mixed keys make `<` inconsistent and the order of `Array.prototype.sort` unspecified.
- ServicesPage.SortedByKey: proved only where the numbers a comparator reads are finite, for the same reason (NaN differences count as 0).
- ProviderAdmin.NormalizeIdempotent: proved for rows whose role and provider status are strings or absent; for another truthy value the source's `toLowerCase` throws, and the model lower-cases its `String` form instead.
- ServicesPage.RawCategory: a category or type that is not a string is read as none, where the source's `trim` would throw.
- ProviderRoutes.ApplyDecision: an array email or password fails the modelled String cast with 400, where the `findOne` query would cast an array to a match on any of its elements (and so could answer 409) before `create` refuses it; likewise an object email holding a query operator, such as `{"$gt": ""}`, is refused with 400 here, where `User.findOne({ email })` (providerRoutes.js:101) runs it as an operator that matches any user, so the source answers 409 once any user exists.
- ServicesPage.NameText: a truthy `name` or `title` that is not a string is matched by its text, and a null or undefined service reads as having no name, where `toLowerCase` or the property read at Services.jsx:45 throws and the page fails to render, even for an empty query; `FilterServices`, `FilterAsWritten`, `Visible` and `VisibleCorrected` inherit this.
- Favorites: `localStorage` is a field of the store; `JSON.parse` failing stands as a stored value that is not a list.
- CsvButton.Export: the Blob download is left out.
- CsvButton.ExportRoundTrip: as written, the round trip holds only when no cell's text holds a carriage return; the corrected export (`ExportCorrectedRoundTrip`) reads back always.
- Strings.Lower: lower-cases ASCII letters only, where JavaScript's `toLowerCase` also maps letters such as "É" to "é"; the case-insensitive comparisons of the model are therefore ASCII-only. `Checkout.Capitalized` likewise upper-cases an ASCII first letter only, where `toUpperCase` (Checkout.jsx:340) also maps "é" to "É" and "ß" to "SS", which makes the label one character longer.
- String lengths: the model counts a string's length in Unicode code points, while Mongoose's `minlength`/`maxlength` and JavaScript's `length` count UTF-16 code units, so a text with characters outside the Basic Multilingual Plane is shorter here than there.
- Casts.CastNumber: `Infinity` and `-Infinity` (from a number or the text "Infinity") are refused, where Mongoose's Number cast keeps them; `Js.Value` numbers are integers, so a text such as "2.5" is refused too (see `Js.StrToNumber`).
- Js.StrToNumber: follows the string grammar of `Number`, but a literal whose value is not an integer ("2.5", "1e-1") gives NaN, because numbers are integers here; a literal beyond the range of a double ("1e400") gives its exact integer where JavaScript gives Infinity, and digits beyond 2^53 are not rounded. Casts.CastNumber, ServiceController.PriceValue, InvoiceController.TaxRate, ProviderRoutes.YearsExperience, ReviewController.UpsertAsWritten and ReviewController.Edited inherit this; integral spellings such as "5.0", "1e2" and "0x10" are read as the source reads them.
- ServiceController.PriceValue: a price text with a non-zero fraction, such as "10.5", is refused, where `Number` gives 10.5 and the update stores it (see `Js.StrToNumber`).
- InvoiceController.TaxRate: a rate text with a non-zero fraction, such as "8.5", reads as 0, where `Number(taxPct) || 0` gives 8.5 (see `Js.StrToNumber`).
- ProviderRoutes.YearsExperience: a text with a non-zero fraction, such as "2.5", gives 0, where the source stores 2.5 (see `Js.StrToNumber`).
- ReviewController.Edited: a rating with a non-zero fraction, such as "4.5" or 4.5, is refused, where `Number` gives 4.5 and the `min: 1, max: 5` validators accept it (see `Js.StrToNumber`).
- Request ids and dates: ids are `Id` values (natural numbers) and `scheduledAt` an optional timestamp, so every id or date a request carries is taken as well-formed. In the source a malformed ObjectId makes `findOne`/`findById` throw a cast error that the handler answers with 400: `GET /api/providers/abc` (providerController.js:64-79, where `GetProvider` can only answer 404), and likewise invoiceController.js:108 and reviewController.js:170; an unparsable `scheduledAt` fails `Booking.create` with 400 (bookingController.js:22-24).
- PaymentRoutes.ChargeGuard: the payment method is a text or absent, so a body with `method: null` is not modelled; the default `method = 'online'` (paymentRoutes.js:20) applies only when the field is undefined, so the source goes on with a null method.
- Casts.CastString: an object with its own `toString` is converted by calling it in Mongoose; the model accepts only a document with a string `_id` and refuses every other object.
- ReviewController.UpsertAsWritten: refuses `Number(rating)` when it is infinite or not an integer (see `Js.StrToNumber`), which the Mongoose cast would store; the comment is a text or absent, so a non-string comment, which the String cast would convert or refuse, is not modelled.
- Checkout.FindById: a null or undefined element of the list reads as having no id, where the source's `b._id` throws.
- ToastStore.ToastProvider: the source's `idSeq` is one counter for the whole module; the model gives it to the provider, which is the same while a single provider is mounted. The removal timer is the `scheduled` flag.
- Presentational components, forms and fetch-and-render pages are out: they hold no rules.

## Findings

| source | as written | input that shows it | evidently intended | confidence | as-written member | corrected member |
|---|---|---|---|---|---|---|
| backend/controllers/reviewController.js:125-136 | `findOneAndUpdate` upserts the review without `runValidators`, so the `min: 1, max: 5` rating bounds are not applied | an eligible customer posts rating 7 | a rating outside 1..5 is refused with 400 | medium, not executed | ReviewController.UpsertStoresRatingSeven | ReviewController.Upsert |
| backend/controllers/providerController.js:117-121 | the profile self-update `findOneAndUpdate` runs without validators | a provider sends `hourlyRate: -5` | a negative rate or fee is refused, as the schema's `min: 0` says | medium, not executed | ProviderController.NegativeRateStored | ProviderController.UpdateProfile |
| backend/routes/providerRoutes.js:170-174 | the legacy alias rewrites `req.url` and calls `next()`, but the router only tries the routes after the alias, and the admin route comes before it | `PUT /api/providers/u1/verify` as an admin | the request reaches the verify handler for `u1` | medium, not executed | ProviderRoutes.LegacyAliasNotFound | ProviderRoutes.LegacyAliasFixed |
| frontend/src/components/admin/CsvButton.jsx:26 | only ',', '"' and '\n' cause quoting | a cell holding "a\rb" | a cell with '\r' is quoted too, as section 2 (rule 6) of RFC 4180 requires | high, not executed | CsvButton.CarriageReturnUnquoted | CsvButton.CarriageReturnQuoted |
| frontend/src/pages/Services.jsx:47-49 | the filter compares the untrimmed category, while the chips are trimmed (line 32) | a service with category " Cleaning", then the chip "Cleaning" | choosing a chip shows the services that contributed it | high, not executed | ServicesPage.PaddedCategoryHidden | ServicesPage.PaddedCategoryShown |
| frontend/src/pages/admin/ProviderAdmin.jsx:110-113 | the verified filter reads the user's role before the row's own, while the shown flag (lines 157-164) reads the row's first | a row with role 'user' whose user is an approved provider | the 'Verified' filter keeps exactly the rows shown as verified | medium, not executed | ProviderAdmin.FilterDisagreesWithFlag | ProviderAdmin.ByVerified |
