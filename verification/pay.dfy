/**
 The pay action (`PayPaymentRequest`): a fixed chain of rejections, then reuse
 of an invoice that is still `New`, then creation of an invoice for the target
 amount, tagged so that it links back to the request.
 */
module PayAction {
  import opened Records

  datatype PayOutcome =
    | InvalidAmount
    | NotFound
    | Archived
    | AlreadySettled
    | RequestExpired
    | Checkout(invoiceId: string)   // the invoice the payer is sent to, reused or new
    | PaymentFailed(message: string)

  /** What the invoice subsystem answers when asked to create an invoice. */
  datatype Creation = Created(invoiceId: string) | CreationFailed(message: string)

  /** The amount still owed on a request, given the request and its linked invoices.
      Its computation belongs to the payment-request service and is left abstract. */
  type AmountDueFn = (Request, seq<Invoice>) -> real

  /** A supplied amount must be strictly positive; leaving it out is always accepted. */
  predicate AmountAccepted(amount: Option<real>) {
    amount.None? || amount.value > 0.0
  }

  /** A request with an expiry date is expired from that instant on. */
  predicate IsExpired(blob: Blob, now: int) {
    blob.expiryDate.Some? && now >= blob.expiryDate.value
  }

  /** Index of the first invoice whose status is `New`, if any. */
  function FirstNewIndex(invoices: seq<Invoice>): (r: Option<nat>)
    ensures r.Some? ==> r.value < |invoices| && invoices[r.value].status == New
    ensures r.Some? ==> forall j :: 0 <= j < r.value ==> invoices[j].status != New
    ensures r.None? ==> forall j :: 0 <= j < |invoices| ==> invoices[j].status != New
  {
    if |invoices| == 0 then None
    else if invoices[0].status == New then Some(0)
    else match FirstNewIndex(invoices[1..]) {
      case None => None
      case Some(k) => Some(k + 1)
    }
  }

  /** The price of a new invoice: the payer's amount capped at the amount due when
      the request allows custom amounts and an amount was given, else the amount due. */
  function TargetAmount(allowCustom: bool, amount: Option<real>, due: real): (t: real)
    ensures t <= due
    ensures allowCustom && amount.Some? ==> t <= amount.value && (t == due || t == amount.value)
    ensures !(allowCustom && amount.Some?) ==> t == due
    ensures AmountAccepted(amount) && due > 0.0 ==> t > 0.0
  {
    if allowCustom && amount.Some? then
      (if due <= amount.value then due else amount.value)
    else due
  }

  /** The invoice Pay asks the invoice subsystem to create for request `id`. */
  function NewInvoice(id: string, req: Request, price: real, invoiceId: string): Invoice {
    Invoice(invoiceId, req.storeId, OrderIdFor(id), [InternalTag(id)], req.blob.currency,
            price, req.blob.email, id, true, New, 0)
  }

  /** Every rejection is passed: the request exists, is live, owes money and has not expired. */
  ghost predicate Open(s: State, id: string, amount: Option<real>, now: int, amountDue: AmountDueFn) {
    && AmountAccepted(amount)
    && Find(s, id, None).Some?
    && !Find(s, id, None).value.archived
    && amountDue(Find(s, id, None).value, Linked(s.invoices, id)) > 0.0
    && !IsExpired(Find(s, id, None).value.blob, now)
  }

  /** What a freshly issued invoice for request `id` carries: its links back to the
      request (and to no other), the request's currency, e-mail and store, and the
      target price, which lies in (0, due]. */
  ghost predicate IssuedFor(inv: Invoice, id: string, req: Request, amount: Option<real>, due: real) {
    && inv.orderId == OrderIdFor(id)
    && inv.tags == [InternalTag(id)]
    && inv.currency == req.blob.currency
    && inv.buyerEmail == req.blob.email
    && inv.storeId == req.storeId
    && inv.redirectTo == id
    && inv.status == New
    && inv.payments == 0
    && inv.price == TargetAmount(req.blob.allowCustomPaymentAmounts, amount, due)
    && 0.0 < inv.price <= due
    && (req.blob.allowCustomPaymentAmounts && amount.Some? ==> inv.price <= amount.value)
    && (!(req.blob.allowCustomPaymentAmounts && amount.Some?) ==> inv.price == due)
  }

  function Pay(s: State, id: string, amount: Option<real>, now: int, amountDue: AmountDueFn,
               creation: Creation): (r: Step<PayOutcome>)
    // the rejections, each winning over every later one
    ensures r.outcome == InvalidAmount <==> !AmountAccepted(amount)
    ensures r.outcome == NotFound <==> AmountAccepted(amount) && Find(s, id, None).None?
    ensures r.outcome == Archived <==>
              AmountAccepted(amount) && Find(s, id, None).Some? && Find(s, id, None).value.archived
    ensures r.outcome == AlreadySettled <==>
              && AmountAccepted(amount) && Find(s, id, None).Some? && !Find(s, id, None).value.archived
              && amountDue(Find(s, id, None).value, Linked(s.invoices, id)) <= 0.0
    ensures r.outcome == RequestExpired <==>
              && AmountAccepted(amount) && Find(s, id, None).Some? && !Find(s, id, None).value.archived
              && amountDue(Find(s, id, None).value, Linked(s.invoices, id)) > 0.0
              && IsExpired(Find(s, id, None).value.blob, now)
    ensures r.outcome.Checkout? || r.outcome.PaymentFailed? <==> Open(s, id, amount, now, amountDue)
    // an open invoice is reused and nothing is created
    ensures Open(s, id, amount, now, amountDue) && FirstNewIndex(Linked(s.invoices, id)).Some? ==>
              var invs := Linked(s.invoices, id);
              r.state == s && r.outcome == Checkout(invs[FirstNewIndex(invs).value].id)
    // otherwise the invoice subsystem is asked for one invoice
    ensures Open(s, id, amount, now, amountDue) && FirstNewIndex(Linked(s.invoices, id)).None? ==>
              match creation {
                case CreationFailed(msg) => r == Step(PaymentFailed(msg), s)
                case Created(newId) =>
                  && r.outcome == Checkout(newId)
                  && |r.state.invoices| == |s.invoices| + 1
                  && r.state.invoices[..|s.invoices|] == s.invoices
                  && r.state.invoices[|s.invoices|].id == newId
                  && IssuedFor(r.state.invoices[|s.invoices|], id, Find(s, id, None).value, amount,
                               amountDue(Find(s, id, None).value, Linked(s.invoices, id)))
              }
    // the payment-request records and the event log are never touched
    ensures r.state.requests == s.requests && r.state.events == s.events
    ensures r.state == s || (Open(s, id, amount, now, amountDue) && creation.Created?
                             && FirstNewIndex(Linked(s.invoices, id)).None?)
  {
    if !AmountAccepted(amount) then Step(InvalidAmount, s)
    else match Find(s, id, None) {
      case None => Step(NotFound, s)
      case Some(req) =>
        var invs := Linked(s.invoices, id);
        var due := amountDue(req, invs);
        if req.archived then Step(Archived, s)
        else if due <= 0.0 then Step(AlreadySettled, s)
        else if IsExpired(req.blob, now) then Step(RequestExpired, s)
        else match FirstNewIndex(invs) {
          case Some(k) => Step(Checkout(invs[k].id), s)
          case None =>
            var price := TargetAmount(req.blob.allowCustomPaymentAmounts, amount, due);
            match creation {
              case CreationFailed(msg) => Step(PaymentFailed(msg), s)
              case Created(newId) =>
                Step(Checkout(newId), s.(invoices := s.invoices + [NewInvoice(id, req, price, newId)]))
            }
        }
    }
  }

  /** An archived request is refused whatever it still owes and whenever it expires. */
  lemma ArchivedRefusedRegardlessOfDue(s: State, id: string, amount: Option<real>, now: int,
                                       amountDue: AmountDueFn, creation: Creation)
    requires AmountAccepted(amount)
    requires id in s.requests && id != "" && s.requests[id].archived
    ensures Pay(s, id, amount, now, amountDue, creation) == Step(Archived, s)
  {
  }

  /** Appending a `New` invoice behind invoices none of which is `New` makes it the first `New` one. */
  lemma {:induction false} FirstNewAfterAppend(invoices: seq<Invoice>, x: Invoice)
    requires forall j :: 0 <= j < |invoices| ==> invoices[j].status != New
    requires x.status == New
    ensures FirstNewIndex(invoices + [x]) == Some(|invoices|)
    decreases |invoices|
  {
    if |invoices| == 0 {
      assert (invoices + [x])[0] == x;
    } else {
      assert (invoices + [x])[0] == invoices[0];
      assert (invoices + [x])[1..] == invoices[1..] + [x];
      FirstNewAfterAppend(invoices[1..], x);
    }
  }

  /** The invoice created by Pay is linked to the request and is the first `New` one among
      its linked invoices, so it is what the next Pay finds. */
  lemma CreatedInvoiceIsFirstNew(s: State, id: string, amount: Option<real>, now: int,
                                 amountDue: AmountDueFn, newId: string)
    requires Open(s, id, amount, now, amountDue)
    requires FirstNewIndex(Linked(s.invoices, id)).None?
    ensures var r := Pay(s, id, amount, now, amountDue, Created(newId));
            var after := Linked(r.state.invoices, id);
            && |after| == |Linked(s.invoices, id)| + 1
            && after[..|after| - 1] == Linked(s.invoices, id)
            && FirstNewIndex(after) == Some(|after| - 1)
            && after[|after| - 1].id == newId
  {
    var req := Find(s, id, None).value;
    var before := Linked(s.invoices, id);
    var inv := NewInvoice(id, req, TargetAmount(req.blob.allowCustomPaymentAmounts, amount, amountDue(req, before)), newId);
    assert Pay(s, id, amount, now, amountDue, Created(newId)).state.invoices == s.invoices + [inv];
    LinkedAppend(s.invoices, inv, id);
    assert InternalTag(id) in inv.tags;
    var after := before + [inv];
    assert after[..|after| - 1] == before;
    FirstNewAfterAppend(before, inv);
  }

  /** Pay only ever sends the payer to a `New` invoice already linked to the request,
      or to the invoice it has just had created. */
  lemma CheckoutIsNewLinkedOrCreated(s: State, id: string, amount: Option<real>, now: int,
                                     amountDue: AmountDueFn, creation: Creation)
    requires Pay(s, id, amount, now, amountDue, creation).outcome.Checkout?
    ensures var z := Pay(s, id, amount, now, amountDue, creation).outcome.invoiceId;
            || creation == Created(z)
            || exists i :: 0 <= i < |s.invoices| && s.invoices[i].id == z && s.invoices[i].status == New
                           && InternalTag(id) in s.invoices[i].tags
  {
  }

  /** Pay on one request leaves the linked invoices of every other request as they were,
      and any invoice it creates carries no other request's order id. */
  lemma PayLeavesOtherRequestsAlone(s: State, id: string, amount: Option<real>, now: int,
                                    amountDue: AmountDueFn, creation: Creation, other: string)
    requires other != id
    ensures var r := Pay(s, id, amount, now, amountDue, creation);
            && Linked(r.state.invoices, other) == Linked(s.invoices, other)
            && forall i :: |s.invoices| <= i < |r.state.invoices| ==> r.state.invoices[i].orderId != OrderIdFor(other)
  {
    var r := Pay(s, id, amount, now, amountDue, creation);
    if r.state != s {
      var inv := r.state.invoices[|s.invoices|];
      assert r.state.invoices == s.invoices + [inv];
      LinkedAppend(s.invoices, inv, other);
      LinkageInjective(id, other);
    }
  }

  /** Creating an invoice with an id never used before keeps invoice ids unique. */
  lemma PayKeepsInvoiceIdsUnique(s: State, id: string, amount: Option<real>, now: int,
                                 amountDue: AmountDueFn, creation: Creation)
    requires UniqueInvoiceIds(s.invoices)
    requires creation.Created? ==> FreshInvoiceId(s, creation.invoiceId)
    ensures UniqueInvoiceIds(Pay(s, id, amount, now, amountDue, creation).state.invoices)
  {
  }
}
