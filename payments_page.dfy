/**
 * The payments page: recording and editing payments that did not come
 * through M-Pesa. The chosen method (cash, bank transfer, cheque, other)
 * is kept in the payment's notes; M-Pesa payments are locked against
 * editing. Creating and editing write through the ledger store.
 */
module PaymentsPage {

  import opened Seqs
  import opened Types
  import opened Text
  import opened Ledger

  datatype PaymentMethod = Cash | Bank | Cheque | Other

  /** The method as written into `notes`. */
  function MethodName(m: PaymentMethod): (s: string)
    ensures |s| >= 4
  {
    match m
    case Cash => "CASH"
    case Bank => "BANK"
    case Cheque => "CHEQUE"
    case Other => "OTHER"
  }

  /** `openEditForm`'s reading of `notes`: one of the four names, else cash. */
  function DecodeMethod(notes: Option<string>): (m: PaymentMethod)
    ensures (notes.Some? && notes.value == MethodName(m)) || m == Cash
  {
    if notes == Some("BANK") then Bank
    else if notes == Some("CHEQUE") then Cheque
    else if notes == Some("OTHER") then Other
    else Cash
  }

  /** Writing a method into `notes` and reading it back gives the method. */
  lemma MethodRoundTrip(m: PaymentMethod)
    ensures DecodeMethod(Some(MethodName(m))) == m
  {
  }

  /** Notes that are not one of the four names, or no notes, read as cash. */
  lemma UnknownNotesAreCash(notes: Option<string>)
    requires forall m: PaymentMethod :: notes != Some(MethodName(m))
    ensures DecodeMethod(notes) == Cash
  {
    assert notes != Some(MethodName(Bank)) && notes != Some(MethodName(Cheque)) && notes != Some(MethodName(Other));
  }

  /** The form of the page; `paidAt` None is the empty date field. */
  datatype PaymentForm = PaymentForm(
    id: Option<Id>,
    amount: string,
    paidAt: Option<int>,
    source: PaymentSource,
    paymentMethod: PaymentMethod,
    rawReference: string,
    tenancyId: string)

  /** `openCreateForm`: a fresh manual cash payment with every field empty. */
  function CreateForm(): (f: PaymentForm)
    ensures f.id.None? && f.amount == "" && f.paidAt.None? && f.source == Manual && f.paymentMethod == Cash
    ensures f.rawReference == "" && f.tenancyId == ""
  {
    PaymentForm(None, "", None, Manual, Cash, "", "")
  }

  /** Only a payment that did not come from M-Pesa offers an edit button. */
  predicate CanEdit(p: Payment)
  {
    p.source != Mpesa
  }

  /**
   * `openEditForm`: nothing for an M-Pesa payment; otherwise the payment's
   * fields, with the method decoded from the notes.
   */
  function EditForm(p: Payment): (f: Option<PaymentForm>)
    ensures f.Some? <==> CanEdit(p)
    ensures f.Some? ==>
      && f.value.id == Some(p.id) && f.value.amount == IntToString(p.amount)
      && f.value.paidAt == Some(p.paidAt) && f.value.source == p.source
      && f.value.paymentMethod == DecodeMethod(p.notes)
      && f.value.rawReference == (if p.rawReference.Some? then p.rawReference.value else "")
      && f.value.tenancyId == (if p.tenancyId.Some? then p.tenancyId.value else "")
  {
    if !CanEdit(p) then None
    else Some(PaymentForm(Some(p.id), IntToString(p.amount), Some(p.paidAt), p.source, DecodeMethod(p.notes),
                          if p.rawReference.Some? then p.rawReference.value else "",
                          if p.tenancyId.Some? then p.tenancyId.value else ""))
  }

  /** The amount as both mutations read it: an integer above zero. */
  function PositiveAmount(s: string): (r: Option<int>)
    ensures r.Some? <==> ParseInt(s).Some? && ParseInt(s).value > 0
    ensures r.Some? ==> r.value == ParseInt(s).value && r.value > 0
  {
    match ParseInt(s)
    case Some(n) => if n > 0 then Some(n) else None
    case None => None
  }

  datatype SaveError = AmountRequired | ProfileMissing | AmountInvalid | InsertFailed

  /** The message the form shows for a refusal of its own. */
  function SaveErrorMessage(e: SaveError): (m: Option<string>)
    ensures m.None? <==> e == InsertFailed
  {
    match e
    case AmountRequired => Some("Amount is required")
    case ProfileMissing => Some("Landlord profile not loaded")
    case AmountInvalid => Some("Amount must be a positive number")
    case InsertFailed => None
  }

  /** What a submit does: refuse, insert a row, or rewrite a row. */
  datatype SavePlan = Refused(error: SaveError) | Create(row: Payment) | Update(id: Id, edit: PaymentEdit)

  /** The row `createMutation` inserts. */
  function NewRow(landlordId: Id, newId: Id, f: PaymentForm, amount: int, now: int): (p: Payment)
    ensures p.id == newId && p.landlordId == landlordId && p.amount == amount
    ensures p.source == Manual && p.phoneNumber.None? && !p.isMatched && p.mpesaTransId.None?
    ensures p.notes == Some(MethodName(f.paymentMethod))
    ensures p.paidAt == if f.paidAt.Some? then f.paidAt.value else now
    ensures p.rawReference == NullIfEmpty(Trim(f.rawReference))
    ensures p.tenancyId == NullIfEmpty(f.tenancyId)
  {
    Payment(newId, landlordId, NullIfEmpty(f.tenancyId), amount, Manual, None, None,
            NullIfEmpty(Trim(f.rawReference)), if f.paidAt.Some? then f.paidAt.value else now,
            false, Some(MethodName(f.paymentMethod)))
  }

  /** The columns `updateMutation` rewrites. */
  function EditOf(f: PaymentForm, amount: int, now: int): (e: PaymentEdit)
    ensures e.amount == amount && e.source == f.source && e.phoneNumber.None?
    ensures e.notes == Some(MethodName(f.paymentMethod))
    ensures e.paidAt == if f.paidAt.Some? then f.paidAt.value else now
    ensures e.rawReference == NullIfEmpty(Trim(f.rawReference))
    ensures e.tenancyId == NullIfEmpty(f.tenancyId)
  {
    PaymentEdit(amount, if f.paidAt.Some? then f.paidAt.value else now, f.source, None,
                NullIfEmpty(Trim(f.rawReference)), NullIfEmpty(f.tenancyId), Some(MethodName(f.paymentMethod)))
  }

  /**
   * `handleFormSubmit` and the two mutations: an empty amount is refused
   * first. An edit with an id goes to `updateMutation`, anything else to
   * `createMutation`, which refuses first when the landlord profile is not
   * loaded. Both then refuse an amount that is not a positive integer; an
   * edit rewrites that row, a create inserts a new one.
   */
  function Plan(landlord: Option<Id>, editMode: bool, f: PaymentForm, newId: Id, now: int): (r: SavePlan)
    ensures r == Refused(AmountRequired) <==> f.amount == ""
    ensures r == Refused(ProfileMissing) <==> f.amount != "" && !(editMode && f.id.Some?) && landlord.None?
    ensures r == Refused(AmountInvalid) <==>
      f.amount != "" && ((editMode && f.id.Some?) || landlord.Some?) && PositiveAmount(f.amount).None?
    ensures r.Create? <==> f.amount != "" && PositiveAmount(f.amount).Some? && !(editMode && f.id.Some?) && landlord.Some?
    ensures r.Update? <==> f.amount != "" && PositiveAmount(f.amount).Some? && editMode && f.id.Some?
    ensures r.Create? ==> r.row == NewRow(landlord.value, newId, f, PositiveAmount(f.amount).value, now)
    ensures r.Update? ==> r.id == f.id.value && r.edit == EditOf(f, PositiveAmount(f.amount).value, now)
  {
    if f.amount == "" then Refused(AmountRequired)
    else if !(editMode && f.id.Some?) && landlord.None? then Refused(ProfileMissing)
    else match PositiveAmount(f.amount)
      case None => Refused(AmountInvalid)
      case Some(n) =>
        if editMode && f.id.Some? then Update(f.id.value, EditOf(f, n, now))
        else Create(NewRow(landlord.value, newId, f, n, now))
  }

  /** Every saved payment, created or edited, has an amount above zero. */
  lemma SavedAmountPositive(landlordId: Option<Id>, editMode: bool, f: PaymentForm, newId: Id, now: int)
    ensures Plan(landlordId, editMode, f, newId, now).Create? ==> Plan(landlordId, editMode, f, newId, now).row.amount > 0
    ensures Plan(landlordId, editMode, f, newId, now).Update? ==> Plan(landlordId, editMode, f, newId, now).edit.amount > 0
  {
  }

  /**
   * Saving an edit form unchanged rewrites the row to itself, for a manual
   * payment already in the form's normal shape: a positive amount, one of
   * the four methods in `notes`, a trimmed non-empty reference or none, a
   * non-empty tenancy id or none, and no phone number.
   */
  lemma UnchangedEditIsIdentity(p: Payment, newId: Id, now: int, m: PaymentMethod)
    requires CanEdit(p) && p.amount > 0 && p.phoneNumber.None?
    requires p.notes == Some(MethodName(m))
    requires p.rawReference.None? || (p.rawReference.value != "" && Trim(p.rawReference.value) == p.rawReference.value)
    requires p.tenancyId.None? || p.tenancyId.value != ""
    ensures
      var f := EditForm(p).value;
      var plan := Plan(Some(p.landlordId), true, f, newId, now);
      && plan.Update? && plan.id == p.id
      && ApplyEdit([p], p.id, plan.edit) == [p]
  {
    EditFormAmount(p);
    EditFormFields(p, now, m);
    ApplyEditSame(p, EditOf(EditForm(p).value, p.amount, now));
  }

  /** The edit form of a payment with a positive amount passes the amount checks with that amount. */
  lemma EditFormAmount(p: Payment)
    requires CanEdit(p) && p.amount > 0
    ensures EditForm(p).value.amount != "" && PositiveAmount(EditForm(p).value.amount) == Some(p.amount)
  {
    ParseIntOfIntToString(p.amount);
  }

  /** The columns an unchanged edit form writes are the payment's own. */
  lemma EditFormFields(p: Payment, now: int, m: PaymentMethod)
    requires CanEdit(p) && p.phoneNumber.None?
    requires p.notes == Some(MethodName(m))
    requires p.rawReference.None? || (p.rawReference.value != "" && Trim(p.rawReference.value) == p.rawReference.value)
    requires p.tenancyId.None? || p.tenancyId.value != ""
    ensures EditOf(EditForm(p).value, p.amount, now)
      == PaymentEdit(p.amount, p.paidAt, p.source, p.phoneNumber, p.rawReference, p.tenancyId, p.notes)
  {
    MethodRoundTrip(m);
    if p.rawReference.None? {
      TrimEmptyIff("");
    }
  }

  /** Rewriting a row with its own columns leaves it as it was. */
  lemma ApplyEditSame(p: Payment, e: PaymentEdit)
    requires e == PaymentEdit(p.amount, p.paidAt, p.source, p.phoneNumber, p.rawReference, p.tenancyId, p.notes)
    ensures ApplyEdit([p], p.id, e) == [p]
  {
    assert ApplyEdit([p], p.id, e)[0] == p;
  }

  /** The "Mode" column of the table. */
  function ModeLabel(p: Payment): (s: string)
    ensures p.source == Mpesa <==> s == "M-Pesa"
  {
    if p.source == Mpesa then "M-Pesa"
    else if p.notes == Some("CASH") then "Manual (Cash)"
    else if p.notes == Some("BANK") then "Manual (Bank transfer)"
    else if p.notes == Some("CHEQUE") then "Manual (Cheque)"
    else "Manual"
  }

  /** The label of a manual payment whose notes name the method. */
  function MethodLabel(m: PaymentMethod): (s: string)
    ensures s == "Manual" <==> m == Other
  {
    match m
    case Cash => "Manual (Cash)"
    case Bank => "Manual (Bank transfer)"
    case Cheque => "Manual (Cheque)"
    case Other => "Manual"
  }

  /** A manual payment whose notes name a method is labelled by that method. */
  lemma ModeLabelOfMethod(p: Payment, m: PaymentMethod)
    requires p.source != Mpesa && p.notes == Some(MethodName(m))
    ensures ModeLabel(p) == MethodLabel(m)
  {
  }

  /** A manual payment whose notes name no method is labelled plain "Manual". */
  lemma ModeLabelUnknownNotes(p: Payment)
    requires p.source != Mpesa
    requires forall m: PaymentMethod :: p.notes != Some(MethodName(m))
    ensures ModeLabel(p) == "Manual"
  {
    assert p.notes != Some(MethodName(Cash));
    assert p.notes != Some(MethodName(Bank));
    assert p.notes != Some(MethodName(Cheque));
  }

  /**
   * Notes naming no method: the list calls the payment plain "Manual",
   * while the edit form opens it as cash.
   */
  lemma UnknownNotesLabelAndForm(p: Payment)
    requires p.source != Mpesa
    requires forall m: PaymentMethod :: p.notes != Some(MethodName(m))
    ensures ModeLabel(p) == "Manual" && DecodeMethod(p.notes) == Cash && MethodLabel(DecodeMethod(p.notes)) != ModeLabel(p)
  {
    ModeLabelUnknownNotes(p);
    assert p.notes != Some(MethodName(Bank));
    assert p.notes != Some(MethodName(Cheque));
    assert p.notes != Some(MethodName(Other));
  }

  /** The label a payment recorded on this page shows, by the method chosen. */
  lemma CreatedRowLabel(landlordId: Id, newId: Id, f: PaymentForm, amount: int, now: int)
    ensures ModeLabel(NewRow(landlordId, newId, f, amount, now)) == MethodLabel(f.paymentMethod)
  {
  }

  /**
   * The submit against the store. A refused form writes nothing; a new
   * payment is appended unless its id is taken; an edit rewrites the
   * chosen row and touches neither `is_matched` nor any allocation.
   */
  method Save(store: Store, landlordId: Option<Id>, editMode: bool, f: PaymentForm, newId: Id, now: int)
    returns (r: Outcome<SaveError>)
    requires store.Valid()
    modifies store
    ensures store.Valid()
    ensures store.charges == old(store.charges) && store.allocations == old(store.allocations)
    ensures match Plan(landlordId, editMode, f, newId, now)
      case Refused(e) => r == Failure(e) && store.payments == old(store.payments)
      case Create(row) =>
        if HasPayment(old(store.payments), newId) then r == Failure(InsertFailed) && store.payments == old(store.payments)
        else r == Success && store.payments == old(store.payments) + [row]
      case Update(id, edit) => r == Success && store.payments == ApplyEdit(old(store.payments), id, edit)
  {
    var plan := Plan(landlordId, editMode, f, newId, now);
    match plan
    case Refused(e) =>
      r := Failure(e);
    case Create(row) =>
      var ok := store.InsertPayment(row);
      r := if ok then Success else Failure(InsertFailed);
    case Update(id, edit) =>
      store.UpdatePayment(id, edit);
      r := Success;
  }
}
