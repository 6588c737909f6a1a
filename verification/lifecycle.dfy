/**
 Properties that relate several actions on one payment request: retrying pay,
 cancelling the pending invoice and paying again, and archiving.
 */
module Lifecycle {
  import opened Seqs
  import opened Records
  import opened PayAction
  import CancelAction
  import EditAction

  /** A second pay with nothing changed in between creates nothing, and whenever it sends
      the payer to an invoice it is the one the first pay returned. */
  lemma PayTwiceReusesInvoice(s: State, id: string, amount1: Option<real>, now1: int,
                              amountDue: AmountDueFn, creation1: Creation,
                              amount2: Option<real>, now2: int, creation2: Creation)
    requires Pay(s, id, amount1, now1, amountDue, creation1).outcome.Checkout?
    ensures var first := Pay(s, id, amount1, now1, amountDue, creation1);
            var second := Pay(first.state, id, amount2, now2, amountDue, creation2);
            && second.state == first.state
            && (second.outcome.Checkout? ==> second.outcome == first.outcome)
            && (Open(first.state, id, amount2, now2, amountDue) ==> second.outcome == first.outcome)
  {
  }

  /** No invoice of `invoices` that is linked to `id` is `New`. */
  ghost predicate NoNewLinked(invoices: seq<Invoice>, id: string) {
    forall i :: 0 <= i < |invoices| && InternalTag(id) in invoices[i].tags ==> invoices[i].status != New
  }

  lemma NoNewLinkedFirstNew(invoices: seq<Invoice>, id: string)
    requires NoNewLinked(invoices, id)
    ensures FirstNewIndex(Linked(invoices, id)).None?
  {
  }

  /** Behind invoices with nothing `New` linked to `id`, a freshly issued one is the only
      pending invoice of the request. */
  lemma SolePendingAfterIssue(invoices: seq<Invoice>, id: string, inv: Invoice)
    requires NoNewLinked(invoices, id)
    requires CancelAction.Cancellable(inv) && InternalTag(id) in inv.tags
    ensures CancelAction.Pending(invoices + [inv], id) == [inv]
  {
    LinkedAppend(invoices, inv, id);
    var before := Linked(invoices, id);
    FilterAppend(before, inv, CancelAction.Cancellable);
    forall i | 0 <= i < |before|
      ensures !CancelAction.Cancellable(before[i])
    {
      assert before[i] in invoices;
    }
    FilterNone(before, CancelAction.Cancellable);
  }

  /** Invalidating the one invoice with id `x` behind invoices with nothing `New` linked
      to `id` leaves nothing `New` linked to `id`. */
  lemma NothingNewAfterInvalidation(invoices: seq<Invoice>, id: string, inv: Invoice)
    requires NoNewLinked(invoices, id)
    ensures NoNewLinked(CancelAction.MarkInvalid(invoices + [inv], inv.id), id)
  {
  }

  /** After a cancel, pay never sends the payer to the cancelled invoice again, provided
      the invoice subsystem gives any new invoice an unused id. */
  lemma PayAfterCancelAvoidsCancelled(s: State, id: string, amount: Option<real>, now: int,
                                      amountDue: AmountDueFn, creation: Creation)
    requires CancelAction.Cancel(s, id).outcome.Cancelled?
    requires creation.Created? ==> FreshInvoiceId(s, creation.invoiceId)
    ensures var c := CancelAction.Cancel(s, id);
            Pay(c.state, id, amount, now, amountDue, creation).outcome != Checkout(c.outcome.invoiceId)
  {
  }

  /** The whole retry story on a request with no open invoice: pay issues invoice `x`,
      cancel invalidates exactly `x`, and a later pay issues a different invoice `y`. */
  lemma PayCancelPayIssuesNewInvoice(s: State, id: string, amount1: Option<real>, now1: int,
                                     amountDue: AmountDueFn, x: string,
                                     amount2: Option<real>, now2: int, y: string)
    requires Open(s, id, amount1, now1, amountDue)
    requires NoNewLinked(s.invoices, id)
    requires FreshInvoiceId(s, x)
    ensures var p1 := Pay(s, id, amount1, now1, amountDue, Created(x));
            var c := CancelAction.Cancel(p1.state, id);
            && p1.outcome == Checkout(x)
            && c.outcome == CancelAction.Cancelled(x)
            && (Open(c.state, id, amount2, now2, amountDue) && FreshInvoiceId(p1.state, y) ==>
                  Pay(c.state, id, amount2, now2, amountDue, Created(y)).outcome == Checkout(y) && y != x)
  {
    NoNewLinkedFirstNew(s.invoices, id);
    var p1 := Pay(s, id, amount1, now1, amountDue, Created(x));
    var inv := p1.state.invoices[|s.invoices|];
    assert p1.state.invoices == s.invoices + [inv];
    SolePendingAfterIssue(s.invoices, id, inv);
    var c := CancelAction.Cancel(p1.state, id);
    assert c.state.invoices == CancelAction.MarkInvalid(s.invoices + [inv], x);
    NothingNewAfterInvalidation(s.invoices, id, inv);
    NoNewLinkedFirstNew(c.state.invoices, id);
    if FreshInvoiceId(p1.state, y) {
      assert p1.state.invoices[|s.invoices|].id == x;
    }
  }

  /** Archiving through the toggle makes every later pay refuse the request as archived. */
  lemma ArchivedByToggleRefusesPay(s: State, id: string, stores: set<string>,
                                   knownCurrency: string -> bool, now: int, freshId: string,
                                   amount: Option<real>, payNow: int, amountDue: AmountDueFn,
                                   creation: Creation)
    requires WellKeyed(s)
    requires Find(s, id, Some(stores)).Some? && !s.requests[id].archived
    requires EditAction.CurrencyResolves(s.requests[id].blob.currency, knownCurrency)
    requires AmountAccepted(amount)
    ensures var t := EditAction.Toggle(s, id, stores, knownCurrency, now, freshId);
            Pay(t.state, id, amount, payNow, amountDue, creation) == Step(Archived, t.state)
  {
  }
}
