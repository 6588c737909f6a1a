# Payment-request controller — a Dafny model

This project models the decision logic of BTCPay Server's payment-request
controller. A merchant publishes a payment request: a title, an amount, a
currency, an optional expiry, and optionally permission for the payer to choose
the amount. A payer settles it through invoices created on the request's
behalf. The controller decides:

- whether a request can be paid right now;
- whether an invoice that is still open should be reused or a new one created, and for what amount;
- which pending invoice a cancel invalidates;
- how the edit form, the archive toggle and cloning change the stored request.

All actions are pure transitions over one abstract state (`Records.State`):

- the stored requests, keyed by id. Each has an owner store, an archived flag, a creation time and a payload (`Blob`).
- the invoice subsystem's invoices. An invoice is linked to a request only through an internal tag, and it carries an order id derived from the request id.
- the log of published events.

Each action returns a `Step(outcome, state)`. The outcome collapses the
controller's HTTP responses into one variant per decision.

Files:

- `seqs.dfy`: order-preserving selection (`Filter`), used for LINQ's `Where`, `FirstOrDefault` and `SingleOrDefault`.
- `records.dfy`: the data model, the repository lookup, and the tag / order-id linkage with its injectivity.
- `pay.dfy`: `PayPaymentRequest`.
- `cancel.dfy`: `CancelUnpaidPendingInvoice`.
- `edit.dfy`: the edit form (GET), saving it (POST), the archive toggle and cloning.
- `lifecycle.dfy`: properties that span several actions: retrying pay, cancelling then paying again, archiving then paying.

Collaborators whose code is not part of this model become parameters:

- the amount due: a function `(Request, seq<Invoice>) -> real` computed by the payment-request service;
- the invoice subsystem's answer to an invoice-creation call: `Created(id)` or `CreationFailed(message)`;
- the currency table: a predicate on currency codes;
- the clock: `now`, an integer;
- a new request's repository-assigned id: `freshId`;
- the calling user's stores: `stores`. A lookup with a scope sees only the records of those stores.
- whether the posted edit form bound and passed its field validation: `formBound`. The framework records those errors before the action runs, and line 135 refuses the save when there are any.

Amounts are `real`. The source uses C# `decimal`, an exact decimal type, so a `real` represents every value it can hold.

Three behaviours of the code worth noting, each modelled as written:

- Pay reuses only invoices whose status is exactly `New` (lines 239-242). It does not reuse every "open" status.
- When more than one invoice is pending, Cancel does not return a plain rejection. `SingleOrDefault` throws (302-304), and the model gives this case its own outcome, `SeveralPendingInvoices`.
- The archive toggle is not guaranteed to succeed. It re-submits the stored form, so it fails with `InvalidCurrency` when the stored currency no longer resolves (120-122, 354).

## Model

| member | source | states |
|---|---|---|
| PayAction.Pay | BTCPayServer/Controllers/PaymentRequestController.cs:194-290 | The rejections are checked in a fixed order, and the first one that applies wins. A supplied amount ≤ 0 is refused before any lookup, even for an unknown id. Then come NotFound, Archived, AlreadySettled (amount due ≤ 0) and Expired (expiry set and `now` ≥ expiry). Each is stated as an if-and-only-if over the inputs. Past the checks, a linked `New` invoice is returned without creating anything. Otherwise exactly one invoice is appended. It carries the request's order id, exactly the request's internal tag, its currency, e-mail and store. Its price is `TargetAmount` of the amount due (the smaller of the amount due and the supplied amount when custom amounts are allowed, else the amount due), which lies in (0, amount due]. A creation failure passes its message through. Request records and events never change. |
| PayAction.FirstNewIndex | BTCPayServer/Controllers/PaymentRequestController.cs:239-242 | Returns the index of the first linked invoice whose status is `New`. It returns none exactly when no invoice is `New`. |
| PayAction.TargetAmount | BTCPayServer/Controllers/PaymentRequestController.cs:254-257 | When custom amounts are allowed and an amount was supplied, the result is the smaller of the amount due and that amount. Otherwise it is the amount due. The result never exceeds the amount due, and it is positive whenever the amount due is positive and the supplied amount passed the check at line 197. |
| PayAction.ArchivedRefusedRegardlessOfDue | BTCPayServer/Controllers/PaymentRequestController.cs:208-216 | An archived request is refused as `Archived` for any accepted amount, whatever it owes and whether or not it has expired. The state is left unchanged. |
| PayAction.FirstNewAfterAppend | BTCPayServer/Controllers/PaymentRequestController.cs:240-242 | A `New` invoice appended behind invoices that contain no `New` one is the first `New` invoice. |
| PayAction.CreatedInvoiceIsFirstNew | BTCPayServer/Controllers/PaymentRequestController.cs:260-277 | The invoice Pay creates joins the request's linked invoices at the end and becomes their first `New` invoice. |
| PayAction.CheckoutIsNewLinkedOrCreated | BTCPayServer/Controllers/PaymentRequestController.cs:239-284 | Pay sends the payer either to a `New` invoice that was already linked to the request, or to the invoice it just had created. |
| PayAction.PayKeepsInvoiceIdsUnique | BTCPayServer/Controllers/PaymentRequestController.cs:266-277 | If the invoice subsystem assigns an unused id, invoice ids stay unique after Pay. |
| PayAction.PayLeavesOtherRequestsAlone | BTCPayServer/Controllers/PaymentRequestController.cs:266-275 | Pay on one request leaves every other request's linked invoices exactly as they were, and the invoice it creates carries no other request's order id. |
| Records.LinkageInjective | BTCPayServer/Controllers/PaymentRequestController.cs:268-275 | Different request ids never share an internal tag or an order id, so each invoice links back to a single request. |
| CancelAction.Cancel | BTCPayServer/Controllers/PaymentRequestController.cs:294-322 | Cancel returns NotFound exactly when the request is unknown. It reports several pending invoices exactly when more than one linked invoice is `New` with no payment. On success, every invoice with the chosen id becomes `Invalid`. All other invoices and all requests are unchanged, and one event with code 1008 is appended. When Cancel fails, the state is untouched. |
| CancelAction.Pending | BTCPayServer/Controllers/PaymentRequestController.cs:302-304 | Selects exactly the linked invoices that are `New` and have no payment. |
| CancelAction.CancelSelectsSolePending | BTCPayServer/Controllers/PaymentRequestController.cs:302-309 | On a known request, Cancel rejects with "nothing to cancel" exactly when no linked invoice is `New` with zero payments. When Cancel succeeds, the cancelled invoice is such an invoice, and no other linked invoice qualifies. |
| CancelAction.CancelledInvoiceLeavesNew | BTCPayServer/Controllers/PaymentRequestController.cs:311-313 | After a cancel, no invoice with the cancelled id is `New`. |
| CancelAction.CancelTwiceFindsNothing | BTCPayServer/Controllers/PaymentRequestController.cs:302-309 | A second cancel right after a successful one finds nothing to cancel and changes nothing. |
| EditAction.FormOf | BTCPayServer/Controllers/PaymentRequestController.cs:113 | The edit form shows the request's id, store, archived flag and every payload field. Storing the form gives back the same payload. |
| EditAction.EditForm | BTCPayServer/Controllers/PaymentRequestController.cs:91-114 | With a non-empty id that the user cannot see, the result is NotFound. With no id, a user who has no store is sent away. Otherwise the form shows the stored request, or is blank for a new request. |
| EditAction.Save | BTCPayServer/Controllers/PaymentRequestController.cs:118-174 | Save returns NotFound for a non-empty id the user cannot see, and this wins over validation. It rejects, with the state unchanged, exactly when the posted form failed to bind or validate, when the currency is empty or unknown, or when the stored record and the submission are both archived. Each error is reported if and only if its condition holds. On success, only the saved key changes. The stored record shows exactly the submitted form (store, archived flag, every payload field). `created` is `now` when there is no id and is kept otherwise. A new record gets the fresh id. Invoices are untouched, and one update event carries the saved record. |
| EditAction.Toggle | BTCPayServer/Controllers/PaymentRequestController.cs:347-362 | The toggle never trips the archived-edit guard. It fails as NotFound exactly when the edit form cannot be shown, and then changes nothing. |
| EditAction.Clone | BTCPayServer/Controllers/PaymentRequestController.cs:331-344 | Cloning succeeds exactly when the edit form can be shown. The result has no id, is not archived, and has the title "Clone of " + the original title. Store and all other payload fields equal the original's. |
| EditAction.UnchangedFormSavesSameRecord | BTCPayServer/Controllers/PaymentRequestController.cs:113-169 | For a request that is not archived and whose currency resolves, loading the edit form and saving it unchanged succeeds under the same id and stores exactly the same record. |
| EditAction.SaveKeepsRecordsWellKeyed | BTCPayServer/Controllers/PaymentRequestController.cs:144-169 | When the repository's fresh id is non-empty, saving keeps every record stored under its own non-empty id. |
| EditAction.SaveUpdatesInPlace | BTCPayServer/Controllers/PaymentRequestController.cs:124-169 | Saving an existing request updates it under its own id and adds no key. |
| EditAction.ToggleFlipsOnlyArchived | BTCPayServer/Controllers/PaymentRequestController.cs:347-354 | On an existing request, the toggle succeeds exactly when the stored currency resolves. On success, the only change to the record is its archived flag. On failure, the error is `InvalidCurrency` alone and the state is unchanged. |
| EditAction.ToggleTwiceRestores | BTCPayServer/Controllers/PaymentRequestController.cs:347-358 | Toggling twice restores every stored request exactly. |
| EditAction.ArchivedEditRefusedToggleAccepted | BTCPayServer/Controllers/PaymentRequestController.cs:130-133 | Re-submitting an archived request's form unchanged is refused with `CannotEditArchived` alone. The toggle on the same request succeeds and unarchives it. |
| EditAction.SavedCloneIsNewCopy | BTCPayServer/Controllers/PaymentRequestController.cs:331-340 | Saving a clone's form creates a new request under the fresh id. It has the original's store and payload, the copied title, is not archived, and is created at `now`. Every existing request is unchanged. |
| Lifecycle.PayTwiceReusesInvoice | BTCPayServer/Controllers/PaymentRequestController.cs:239-252 | After a Pay that returned an invoice, a second Pay with no change in between creates nothing. If the second Pay returns an invoice, it is the same one. It always does so when its own checks pass. |
| Lifecycle.PayAfterCancelAvoidsCancelled | BTCPayServer/Controllers/PaymentRequestController.cs:302-313 | After a successful cancel, Pay never returns the cancelled invoice, provided any invoice it creates gets an unused id. |
| Lifecycle.PayCancelPayIssuesNewInvoice | BTCPayServer/Controllers/PaymentRequestController.cs:239-313 | Start from a request with no open invoice. Pay creates invoice x, and Cancel then invalidates exactly x. A later Pay whose checks pass creates a new invoice y, which is different from x. |
| Lifecycle.ArchivedByToggleRefusesPay | BTCPayServer/Controllers/PaymentRequestController.cs:208-216 | Once the toggle has archived a request, every Pay with an accepted amount refuses it as `Archived`. |

## Left out

- Listing (`GetPaymentRequests`, lines 73-87) and the public view (`ViewPaymentRequest`, 179-189): each is one repository or service query plus view rendering. The repository and the service are not part of this model.
- The amount-due computation and the view built by the payment-request service: the amount due is the abstract parameter `amountDue`.
- Response shaping: redirect versus `Ok`/`BadRequest` (`redirectToInvoice`, `redirect`), `TempData` messages, `SelectList`, hub paths and link generation. The checkout redirect target is kept only as the request id on the invoice.
- Authentication and `GetUserId`: the user's stores are the `stores` parameter. The pay and cancel lookups go through the service and are modelled unscoped.
- Currency resolution (`GetCurrencyData`): an abstract predicate.
- Internal tag and order-id formats: `GetInternalTag` and `GetOrderIdForPaymentRequest` are not part of this model. Fixed prefixes stand in for them. The proofs use only their injectivity (`Records.LinkageInjective`, used by `PayAction.PayLeavesOtherRequestsAlone`).
- `CreateInvoiceCore`: its internals and every exception except the payment-processing error (`CreationFailed`). The stored invoice is taken to carry exactly the internal tag Pay passes, with no tags of its own added.
- `FindPaymentRequest`: its code is not part of this model. It is taken to find nothing for an empty id. The second lookup in Pay (line 260) is taken to see the same record as the first, so the null dereference it would raise after a concurrent change is not modelled.
- Concurrency: the race between two Pay calls that both find no open invoice and both create one is not modelled. Every action is one atomic transition.
- Invoice status strings: they are collapsed into an enumeration. Pay parses the status case-insensitively and Cancel compares it exactly with `"new"`; both agree on strings produced from the enumeration.
- Time zones: `now` and stored expiry dates are read on one integer clock, and `ToUniversalTime` is the identity. The source compares local `DateTime.Now` with an expiry stored in UTC, so on a server outside UTC, expiry is off by the zone offset. The view model's date conversion is not part of this model.
- Decimal precision and rounding: `real` is exact and unbounded.
- Cancellation tokens.
- Event delivery: events are an appended log. The invalidation event carries the invoice id and code 1008, not the full invoice.
- `UpdatePaymentRequestViewModel` constructors: taken to copy every field of the record, or to be blank (empty strings, zero amount, no expiry, flags false) when there is no record.
- `BTCPayServer.Client/BTCPayServerClient.Lightning.Store.cs`: an HTTP client for Lightning-node endpoints, with no decision logic.
- Seqs.Filter: its own contract states membership in both directions but not order. Order is stated separately by `Seqs.FilterAppend`: the selection of `s + [x]` is the selection of `s` followed by `x` when `x` qualifies. Pay's reuse of the *first* `New` invoice (line 240) and `PayAction.CreatedInvoiceIsFirstNew` depend on it.
- `UpdatePaidInvoiceToInvalid` (line 311): its code is not part of this model. It is taken to turn every invoice with the given id `Invalid`, whatever the invoice's status; the name suggests it may be meant for paid invoices, and if it leaves a `New` invoice untouched then `CancelAction.CancelTwiceFindsNothing`, `Lifecycle.PayAfterCancelAvoidsCancelled` and `Lifecycle.PayCancelPayIssuesNewInvoice` do not carry over.
- The posted edit form's binding and attribute validation (`UpdatePaymentRequestViewModel`): the outcome is the boolean `formBound`; which fields fail and why is not modelled.
