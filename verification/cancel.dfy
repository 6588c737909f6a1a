/**
 The cancel action (`CancelUnpaidPendingInvoice`): the single linked invoice that
 is still `New` and has received no payment is marked invalid, so that the next
 pay action creates a fresh invoice instead of reusing it.
 */
module CancelAction {
  import opened Seqs
  import opened Records

  datatype CancelOutcome =
    | NotFound
    | NoPendingInvoice              // nothing to cancel: a plain rejection
    | SeveralPendingInvoices        // `SingleOrDefault` throws: the action fails
    | Cancelled(invoiceId: string)

  /** An invoice that may be cancelled: still `New` and without any payment. */
  predicate Cancellable(inv: Invoice) {
    inv.status == New && inv.payments == 0
  }

  /** The cancellable invoices linked to request `id`. */
  function Pending(invoices: seq<Invoice>, id: string): (r: seq<Invoice>)
    ensures forall i :: 0 <= i < |r| ==> Cancellable(r[i]) && InternalTag(id) in r[i].tags && r[i] in invoices
    ensures forall i :: 0 <= i < |invoices| && Cancellable(invoices[i]) && InternalTag(id) in invoices[i].tags ==>
              invoices[i] in r
  {
    Filter(Linked(invoices, id), Cancellable)
  }

  /** The invoice subsystem's invalidation: every invoice with that id becomes `Invalid`. */
  function MarkInvalid(invoices: seq<Invoice>, invoiceId: string): (r: seq<Invoice>)
    ensures |r| == |invoices|
    ensures forall i :: 0 <= i < |r| ==>
              r[i] == if invoices[i].id == invoiceId then invoices[i].(status := Invalid) else invoices[i]
  {
    seq(|invoices|, i requires 0 <= i < |invoices| =>
      if invoices[i].id == invoiceId then invoices[i].(status := Invalid) else invoices[i])
  }

  function Cancel(s: State, id: string): (r: Step<CancelOutcome>)
    ensures r.outcome == NotFound <==> Find(s, id, None).None?
    ensures r.outcome == SeveralPendingInvoices <==> Find(s, id, None).Some? && |Pending(s.invoices, id)| > 1
    // only the cancelled invoice changes, it becomes Invalid, and one event announces it
    ensures r.outcome.Cancelled? ==>
              && |r.state.invoices| == |s.invoices|
              && (forall i :: 0 <= i < |s.invoices| && s.invoices[i].id != r.outcome.invoiceId ==>
                    r.state.invoices[i] == s.invoices[i])
              && (forall i :: 0 <= i < |s.invoices| && s.invoices[i].id == r.outcome.invoiceId ==>
                    r.state.invoices[i] == s.invoices[i].(status := Invalid))
              && r.state.events == s.events + [InvoiceMarkedInvalid(r.outcome.invoiceId, MarkedInvalidCode)]
    ensures !r.outcome.Cancelled? ==> r.state == s
    ensures r.state.requests == s.requests
  {
    match Find(s, id, None) {
      case None => Step(NotFound, s)
      case Some(_) =>
        var pending := Pending(s.invoices, id);
        if |pending| == 0 then Step(NoPendingInvoice, s)
        else if |pending| > 1 then Step(SeveralPendingInvoices, s)
        else
          var x := pending[0].id;
          Step(Cancelled(x), s.(invoices := MarkInvalid(s.invoices, x),
                                events := s.events + [InvoiceMarkedInvalid(x, MarkedInvalidCode)]))
    }
  }

  /** Cancel rejects exactly when no linked invoice is cancellable, and otherwise picks
      the one cancellable linked invoice: any other one would have made it fail. */
  lemma CancelSelectsSolePending(s: State, id: string)
    requires Find(s, id, None).Some?
    ensures var r := Cancel(s, id);
            r.outcome == NoPendingInvoice <==>
              forall i :: 0 <= i < |s.invoices| && InternalTag(id) in s.invoices[i].tags ==>
                !Cancellable(s.invoices[i])
    ensures var r := Cancel(s, id);
            r.outcome.Cancelled? ==>
              && (exists i :: 0 <= i < |s.invoices| && s.invoices[i].id == r.outcome.invoiceId
                              && Cancellable(s.invoices[i]) && InternalTag(id) in s.invoices[i].tags)
              && forall i :: 0 <= i < |s.invoices| && Cancellable(s.invoices[i])
                               && InternalTag(id) in s.invoices[i].tags ==>
                   s.invoices[i].id == r.outcome.invoiceId
  {
    var pending := Pending(s.invoices, id);
    if |pending| > 0 {
      var p := pending[0];
      assert p in s.invoices && Cancellable(p) && InternalTag(id) in p.tags;
      var k :| 0 <= k < |s.invoices| && s.invoices[k] == p;
      if |pending| == 1 {
        forall i | 0 <= i < |s.invoices| && Cancellable(s.invoices[i]) && InternalTag(id) in s.invoices[i].tags
          ensures s.invoices[i].id == p.id
        {
          assert s.invoices[i] in pending;
        }
      }
    }
  }

  /** Once cancelled, no invoice with that id is `New` any more. */
  lemma CancelledInvoiceLeavesNew(s: State, id: string)
    requires Cancel(s, id).outcome.Cancelled?
    ensures var r := Cancel(s, id);
            forall i :: 0 <= i < |r.state.invoices| && r.state.invoices[i].id == r.outcome.invoiceId ==>
              r.state.invoices[i].status == Invalid
  {
  }

  /** A second cancel right after a successful one finds nothing left to cancel. */
  lemma CancelTwiceFindsNothing(s: State, id: string)
    requires Cancel(s, id).outcome.Cancelled?
    ensures var r := Cancel(s, id);
            Cancel(r.state, id) == Step(NoPendingInvoice, r.state)
  {
    var r := Cancel(s, id);
    var x := r.outcome.invoiceId;
    forall i | 0 <= i < |r.state.invoices| && InternalTag(id) in r.state.invoices[i].tags
      ensures !Cancellable(r.state.invoices[i])
    {
      if s.invoices[i].id != x {
        assert r.state.invoices[i] == s.invoices[i];
      }
    }
  }
}
