/**
 The state the payment-request controller reads and writes: payment-request
 records keyed by id, the invoices of the invoice subsystem (linked to a
 request only by an internal tag), and the log of published events.
 */
module Records {
  import opened Seqs

  datatype Option<T> = None | Some(value: T)

  /** The versioned payload of a payment request; every field is replaced on each save. */
  datatype Blob = Blob(
    title: string,
    description: string,
    email: string,
    amount: real,
    currency: string,
    expiryDate: Option<int>,
    embeddedCss: string,
    customCssLink: string,
    allowCustomPaymentAmounts: bool)

  /** One stored payment request (`PaymentRequestData`). */
  datatype Request = Request(id: string, storeId: string, archived: bool, created: int, blob: Blob)

  datatype InvoiceStatus = New | Paid | Confirmed | Complete | Expired | Invalid

  /** An invoice as the invoice subsystem holds it, with the fields the controller sets or reads. */
  datatype Invoice = Invoice(
    id: string,
    storeId: string,
    orderId: string,
    tags: seq<string>,
    currency: string,
    price: real,
    buyerEmail: string,
    redirectTo: string,      // the payment request whose page the checkout returns to
    fullNotifications: bool,
    status: InvoiceStatus,
    payments: nat)

  /** Reason code carried by the invoice event published when a pending invoice is cancelled. */
  const MarkedInvalidCode := 1008

  datatype Event =
    | PaymentRequestUpdated(request: Request)
    | InvoiceMarkedInvalid(invoiceId: string, code: int)

  datatype State = State(requests: map<string, Request>, invoices: seq<Invoice>, events: seq<Event>)

  /** An outcome together with the state the action leaves behind. */
  datatype Step<O> = Step(outcome: O, state: State)

  /** Every record is stored under its own non-empty id. */
  ghost predicate WellKeyed(s: State) {
    forall k :: k in s.requests ==> k != "" && s.requests[k].id == k
  }

  /** No two invoices share an id. */
  ghost predicate UniqueInvoiceIds(invoices: seq<Invoice>) {
    forall i, j :: 0 <= i < j < |invoices| ==> invoices[i].id != invoices[j].id
  }

  /** The invoice subsystem hands out ids it has not used before. */
  ghost predicate FreshInvoiceId(s: State, invoiceId: string) {
    forall i :: 0 <= i < |s.invoices| ==> s.invoices[i].id != invoiceId
  }

  /** Repository lookup. An empty id finds nothing; with a scope (the stores the
      calling user manages) only records of those stores are visible. */
  function Find(s: State, id: string, scope: Option<set<string>>): (r: Option<Request>)
    ensures r.Some? <==> id != "" && id in s.requests && (scope.Some? ==> s.requests[id].storeId in scope.value)
    ensures r.Some? ==> r.value == s.requests[id]
  {
    if id == "" || id !in s.requests then None
    else if scope.Some? && s.requests[id].storeId !in scope.value then None
    else Some(s.requests[id])
  }

  const InternalTagPrefix := "PAYMENT_REQUEST_"
  const OrderIdPrefix := "PAY_REQUEST_"

  /** The tag written into every invoice created for request `id`. */
  function InternalTag(id: string): string { InternalTagPrefix + id }

  /** The order id given to every invoice created for request `id`. */
  function OrderIdFor(id: string): string { OrderIdPrefix + id }

  lemma PrefixCancels(p: string, a: string, b: string)
    requires p + a == p + b
    ensures a == b
  {
    assert a == (p + a)[|p|..];
    assert b == (p + b)[|p|..];
  }

  /** Distinct requests never share a tag or an order id, so the linkage is unambiguous. */
  lemma LinkageInjective(a: string, b: string)
    ensures InternalTag(a) == InternalTag(b) ==> a == b
    ensures OrderIdFor(a) == OrderIdFor(b) ==> a == b
  {
    if InternalTag(a) == InternalTag(b) {
      PrefixCancels(InternalTagPrefix, a, b);
    }
    if OrderIdFor(a) == OrderIdFor(b) {
      PrefixCancels(OrderIdPrefix, a, b);
    }
  }

  function TaggedFor(id: string): Invoice -> bool {
    (inv: Invoice) => InternalTag(id) in inv.tags
  }

  /** The invoices linked to request `id`, in the invoice subsystem's order. */
  function Linked(invoices: seq<Invoice>, id: string): (r: seq<Invoice>)
    ensures forall i :: 0 <= i < |r| ==> InternalTag(id) in r[i].tags && r[i] in invoices
    ensures forall i :: 0 <= i < |invoices| && InternalTag(id) in invoices[i].tags ==> invoices[i] in r
  {
    Filter(invoices, TaggedFor(id))
  }

  /** A new invoice joins the request's linked invoices at the end exactly when it carries the tag. */
  lemma LinkedAppend(invoices: seq<Invoice>, x: Invoice, id: string)
    ensures Linked(invoices + [x], id) == Linked(invoices, id) + (if InternalTag(id) in x.tags then [x] else [])
  {
    FilterAppend(invoices, x, TaggedFor(id));
  }
}
