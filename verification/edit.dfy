/**
 The edit paths: the edit form (`EditPaymentRequest` GET), saving it
 (`EditPaymentRequest` POST), and the two actions built on them, the archive
 toggle (`TogglePaymentRequestArchival`) and cloning (`ClonePaymentRequest`).
 */
module EditAction {
  import opened Records

  /** The edit form (`UpdatePaymentRequestViewModel`): the submitted field values. */
  datatype Form = Form(
    id: string,
    storeId: string,
    archived: bool,
    title: string,
    description: string,
    email: string,
    amount: real,
    currency: string,
    expiryDate: Option<int>,
    embeddedCss: string,
    customCssLink: string,
    allowCustomPaymentAmounts: bool)

  /** What the edit page shows. */
  datatype EditView =
    | Missing                 // NotFound
    | NoStore                 // the user has no store yet; redirected to the list
    | Editor(form: Form)

  /** Why a submitted form is shown again. `InvalidForm` stands for the binding and
      validation errors the framework records for the posted fields before the action runs. */
  datatype SaveError = InvalidForm | InvalidCurrency | CannotEditArchived

  datatype SaveOutcome =
    | SaveNotFound
    | Rejected(errors: set<SaveError>)   // the form is shown again with these errors
    | Saved(id: string)

  /** The form for a request that does not exist yet. */
  const BlankForm := Form("", "", false, "", "", "", 0.0, "", None, "", "", false)

  /** The form showing a stored request. */
  function FormOf(req: Request): (f: Form)
    ensures f.id == req.id && f.storeId == req.storeId && f.archived == req.archived
    ensures BlobOf(f) == req.blob
  {
    Form(req.id, req.storeId, req.archived, req.blob.title, req.blob.description, req.blob.email,
         req.blob.amount, req.blob.currency, req.blob.expiryDate, req.blob.embeddedCss,
         req.blob.customCssLink, req.blob.allowCustomPaymentAmounts)
  }

  /** The payload a submitted form is stored as: each field replaced by the submitted value. */
  function BlobOf(f: Form): Blob {
    Blob(f.title, f.description, f.email, f.amount, f.currency, f.expiryDate, f.embeddedCss,
         f.customCssLink, f.allowCustomPaymentAmounts)
  }

  /** The currency is non-empty and known to the currency table. */
  predicate CurrencyResolves(currency: string, knownCurrency: string -> bool) {
    currency != "" && knownCurrency(currency)
  }

  function EditForm(s: State, id: string, stores: set<string>): (r: EditView)
    ensures r == Missing <==> id != "" && Find(s, id, Some(stores)).None?
    ensures r == NoStore <==> id == "" && stores == {}
    ensures r.Editor? && id != "" ==> r.form == FormOf(s.requests[id]) && s.requests[id].storeId in stores
    ensures r.Editor? && id == "" ==> r.form == BlankForm
  {
    var data := Find(s, id, Some(stores));
    if data.None? && id != "" then Missing
    else if stores == {} then NoStore
    else Editor(if data.Some? then FormOf(data.value) else BlankForm)
  }

  /** The record a successful save stores: the found record, or a new one, with owner
      store, archived flag and payload taken from the form; stamped with `now` when
      saved without an id; given `freshId` by the repository when new. */
  function Edited(data: Option<Request>, id: string, form: Form, now: int, freshId: string): Request {
    var base := if data.Some? then data.value else Request("", "", false, 0, BlobOf(BlankForm));
    var edited := base.(storeId := form.storeId, archived := form.archived, blob := BlobOf(form));
    var stamped := if id == "" then edited.(created := now) else edited;
    if data.Some? then stamped else stamped.(id := freshId)
  }

  /** Saves a submitted form. `formBound` says whether the posted fields bound and passed
      their own validation; the currency and archived checks are the action's own. */
  function Save(s: State, id: string, form: Form, formBound: bool, stores: set<string>,
                knownCurrency: string -> bool, now: int, freshId: string): (r: Step<SaveOutcome>)
    ensures r.outcome == SaveNotFound <==> id != "" && Find(s, id, Some(stores)).None?
    ensures r.outcome.Rejected? ==>
              && r.state == s
              && (InvalidForm in r.outcome.errors <==> !formBound)
              && (InvalidCurrency in r.outcome.errors <==> !CurrencyResolves(form.currency, knownCurrency))
              && (CannotEditArchived in r.outcome.errors <==> id != "" && s.requests[id].archived && form.archived)
    ensures r.outcome.Saved? <==>
              && (id == "" || Find(s, id, Some(stores)).Some?)
              && formBound
              && CurrencyResolves(form.currency, knownCurrency)
              && !(id != "" && s.requests[id].archived && form.archived)
    ensures r.outcome.Saved? ==>
              var k := r.outcome.id;
              && k == (if id == "" then freshId else s.requests[id].id)
              && k in r.state.requests
              && r.state.requests == s.requests[k := r.state.requests[k]]
              // the stored record shows exactly the submitted form
              && FormOf(r.state.requests[k]) == form.(id := k)
              && r.state.requests[k].created == (if id == "" then now else s.requests[id].created)
              && r.state.invoices == s.invoices
              && r.state.events == s.events + [PaymentRequestUpdated(r.state.requests[k])]
    ensures !r.outcome.Saved? ==> r.state == s
  {
    var data := Find(s, id, Some(stores));
    if data.None? && id != "" then Step(SaveNotFound, s)
    else
      var errors := (if formBound then {} else {InvalidForm})
                    + (if CurrencyResolves(form.currency, knownCurrency) then {} else {InvalidCurrency})
                    + (if data.Some? && data.value.archived && form.archived then {CannotEditArchived} else {});
      if errors != {} then Step(Rejected(errors), s)
      else
        var saved := Edited(data, id, form, now, freshId);
        Step(Saved(saved.id), s.(requests := s.requests[saved.id := saved],
                                 events := s.events + [PaymentRequestUpdated(saved)]))
  }

  /** Loads the edit form, flips its archived flag and saves it. The toggle posts no
      form, so nothing fails to bind. */
  function Toggle(s: State, id: string, stores: set<string>, knownCurrency: string -> bool,
                  now: int, freshId: string): (r: Step<SaveOutcome>)
    // the submitted flag is the negation of the stored one, so the archived-edit guard never trips
    ensures r.outcome.Rejected? ==> CannotEditArchived !in r.outcome.errors
    ensures r.outcome == SaveNotFound <==> !EditForm(s, id, stores).Editor?
    ensures r.outcome == SaveNotFound ==> r.state == s
  {
    match EditForm(s, id, stores) {
      case Editor(f) => Save(s, id, f.(archived := !f.archived), true, stores, knownCurrency, now, freshId)
      case _ => Step(SaveNotFound, s)
    }
  }

  /** Loads the edit form and presents it as a new, unarchived request titled as a copy. */
  function Clone(s: State, id: string, stores: set<string>): (r: EditView)
    ensures r != NoStore
    ensures r.Editor? <==> EditForm(s, id, stores).Editor?
    ensures r.Editor? ==> r.form.id == "" && !r.form.archived
    ensures r.Editor? && id != "" ==>
              && r.form.storeId == s.requests[id].storeId
              && BlobOf(r.form) == s.requests[id].blob.(title := "Clone of " + s.requests[id].blob.title)
  {
    match EditForm(s, id, stores) {
      case Editor(f) => Editor(f.(id := "", archived := false, title := "Clone of " + f.title))
      case _ => Missing
    }
  }

  /** Loading the edit form of a live request and saving it unchanged stores the same record. */
  lemma UnchangedFormSavesSameRecord(s: State, id: string, stores: set<string>,
                                     knownCurrency: string -> bool, now: int, freshId: string)
    requires WellKeyed(s)
    requires Find(s, id, Some(stores)).Some? && !s.requests[id].archived
    requires CurrencyResolves(s.requests[id].blob.currency, knownCurrency)
    ensures var r := Save(s, id, EditForm(s, id, stores).form, true, stores, knownCurrency, now, freshId);
            r.outcome == Saved(id) && r.state.requests == s.requests
  {
  }

  /** Saving keeps every record stored under its own non-empty id. */
  lemma SaveKeepsRecordsWellKeyed(s: State, id: string, form: Form, formBound: bool, stores: set<string>,
                                  knownCurrency: string -> bool, now: int, freshId: string)
    requires WellKeyed(s)
    requires freshId != ""
    ensures WellKeyed(Save(s, id, form, formBound, stores, knownCurrency, now, freshId).state)
  {
  }

  /** On a well-keyed state an existing request is saved in place, under its own id. */
  lemma SaveUpdatesInPlace(s: State, id: string, form: Form, formBound: bool, stores: set<string>,
                           knownCurrency: string -> bool, now: int, freshId: string)
    requires WellKeyed(s)
    requires id != ""
    ensures var r := Save(s, id, form, formBound, stores, knownCurrency, now, freshId);
            r.outcome.Saved? ==> r.outcome.id == id && r.state.requests.Keys == s.requests.Keys
  {
  }

  /** A request that exists gets its archived flag flipped by the toggle, and nothing else
      of it changes; the toggle fails only when its stored currency no longer resolves. */
  lemma ToggleFlipsOnlyArchived(s: State, id: string, stores: set<string>, knownCurrency: string -> bool,
                                now: int, freshId: string)
    requires WellKeyed(s)
    requires Find(s, id, Some(stores)).Some?
    ensures var req := s.requests[id];
            var r := Toggle(s, id, stores, knownCurrency, now, freshId);
            && (r.outcome.Saved? <==> CurrencyResolves(req.blob.currency, knownCurrency))
            && (r.outcome.Saved? ==>
                  r.outcome.id == id && r.state.requests == s.requests[id := req.(archived := !req.archived)])
            && (!r.outcome.Saved? ==> r.outcome == Rejected({InvalidCurrency}) && r.state == s)
  {
  }

  /** Toggling twice restores the request exactly. */
  lemma ToggleTwiceRestores(s: State, id: string, stores: set<string>, knownCurrency: string -> bool,
                            now: int, freshId: string)
    requires WellKeyed(s)
    requires Find(s, id, Some(stores)).Some?
    requires CurrencyResolves(s.requests[id].blob.currency, knownCurrency)
    ensures var once := Toggle(s, id, stores, knownCurrency, now, freshId);
            var twice := Toggle(once.state, id, stores, knownCurrency, now, freshId);
            twice.outcome == Saved(id) && twice.state.requests == s.requests
  {
  }

  /** Resubmitting the form of an archived request is refused, while the toggle on the
      same request succeeds and unarchives it. */
  lemma ArchivedEditRefusedToggleAccepted(s: State, id: string, stores: set<string>,
                                          knownCurrency: string -> bool, now: int, freshId: string)
    requires WellKeyed(s)
    requires Find(s, id, Some(stores)).Some? && s.requests[id].archived
    requires CurrencyResolves(s.requests[id].blob.currency, knownCurrency)
    ensures var form := EditForm(s, id, stores).form;
            Save(s, id, form, true, stores, knownCurrency, now, freshId) == Step(Rejected({CannotEditArchived}), s)
    ensures var r := Toggle(s, id, stores, knownCurrency, now, freshId);
            r.outcome == Saved(id) && !r.state.requests[id].archived
  {
    var req := s.requests[id];
    assert req.storeId in stores;
    assert EditForm(s, id, stores) == Editor(FormOf(req));
    var errors := {}
                  + (if CurrencyResolves(req.blob.currency, knownCurrency) then {} else {InvalidCurrency})
                  + (if req.archived && FormOf(req).archived then {CannotEditArchived} else {});
    assert errors == {CannotEditArchived};
    ToggleFlipsOnlyArchived(s, id, stores, knownCurrency, now, freshId);
  }

  /** Saving a clone creates a second request under a fresh id: same store and payload
      but the copied title, unarchived, created now; every existing request is untouched. */
  lemma SavedCloneIsNewCopy(s: State, id: string, stores: set<string>, knownCurrency: string -> bool,
                            now: int, freshId: string)
    requires Find(s, id, Some(stores)).Some?
    requires freshId != "" && freshId !in s.requests
    requires CurrencyResolves(s.requests[id].blob.currency, knownCurrency)
    ensures var req := s.requests[id];
            var form := Clone(s, id, stores).form;
            var r := Save(s, form.id, form, true, stores, knownCurrency, now, freshId);
            && r.outcome == Saved(freshId)
            && r.state.requests.Keys == s.requests.Keys + {freshId}
            && (forall k :: k in s.requests ==> r.state.requests[k] == s.requests[k])
            && r.state.requests[freshId] ==
                 Request(freshId, req.storeId, false, now, req.blob.(title := "Clone of " + req.blob.title))
  {
  }
}
