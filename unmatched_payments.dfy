/**
 * The unmatched-payments page: how much of each payment is still
 * unallocated, which payments are listed, which charges are offered for
 * the chosen tenancy, the allocation form, and the submit handler that
 * checks the form before running the allocation against the ledger.
 *
 * Every query of the page is scoped to the signed-in landlord.
 */
module UnmatchedPayments {

  import opened Seqs
  import opened Types
  import opened Aggregate
  import opened Ledger
  import opened Text

  /** The landlord's allocations, as the page's query returns them. */
  function LandlordAllocations(allocations: seq<Allocation>, landlordId: Id): seq<Allocation>
  {
    Filter(allocations, (a: Allocation) => a.landlordId == landlordId)
  }

  /** The landlord's rent charges, as the page's query returns them. */
  function LandlordCharges(charges: seq<RentCharge>, landlordId: Id): seq<RentCharge>
  {
    Filter(charges, (c: RentCharge) => c.landlordId == landlordId)
  }

  /** `allocationsByPayment`: the total allocated from each payment. */
  method AllocationsByPayment(allocations: seq<Allocation>) returns (m: map<Id, int>)
    ensures forall id :: Get(m, id) == AllocatedFromPayment(allocations, id)
    ensures forall id :: id in m <==> HasKey(allocations, PaymentKey, id)
  {
    m := SumByKey(allocations, PaymentKey, AllocatedAmount);
  }

  /** What is left of a payment once its allocations are taken off. */
  function Remaining(p: Payment, byPayment: map<Id, int>): int
  {
    p.amount - Get(byPayment, p.id)
  }

  /** `unmatchedPayments`: the payments with something left to allocate, in order. */
  function UnmatchedList(payments: seq<Payment>, byPayment: map<Id, int>): (r: seq<Payment>)
    ensures |r| <= |payments|
    ensures forall i :: 0 <= i < |r| ==> r[i] in payments && Remaining(r[i], byPayment) > 0
    ensures forall i :: 0 <= i < |payments| && Remaining(payments[i], byPayment) > 0 ==> payments[i] in r
  {
    Filter(payments, (p: Payment) => Remaining(p, byPayment) > 0)
  }

  /**
   * With the sums of `allocationsByPayment`, a payment is listed exactly
   * when its amount exceeds what has been allocated from it.
   */
  lemma UnmatchedIff(payments: seq<Payment>, allocations: seq<Allocation>, byPayment: map<Id, int>, p: Payment)
    requires forall id :: Get(byPayment, id) == AllocatedFromPayment(allocations, id)
    requires p in payments
    ensures p in UnmatchedList(payments, byPayment) <==> p.amount - AllocatedFromPayment(allocations, p.id) > 0
  {
    var r := UnmatchedList(payments, byPayment);
    if p in r {
      var i :| 0 <= i < |r| && r[i] == p;
    }
  }

  /** `currentPaymentRemaining`: 0 while no payment is selected. */
  function CurrentPaymentRemaining(selected: Option<Payment>, byPayment: map<Id, int>): (r: int)
    ensures selected.None? ==> r == 0
    ensures selected.Some? ==> r == selected.value.amount - Get(byPayment, selected.value.id)
  {
    match selected
    case None => 0
    case Some(p) => Remaining(p, byPayment)
  }

  /**
   * `availableChargesForSelectedTenancy`: nothing until a tenancy is
   * chosen, then that tenancy's charges that still have a balance.
   */
  function AvailableCharges(tenancyId: string, charges: seq<RentCharge>): (r: seq<RentCharge>)
    ensures tenancyId == "" ==> r == []
    ensures forall i :: 0 <= i < |r| ==> r[i] in charges && r[i].tenancyId == tenancyId && r[i].balance > 0
    ensures tenancyId != "" ==>
      forall i :: 0 <= i < |charges| && charges[i].tenancyId == tenancyId && charges[i].balance > 0 ==> charges[i] in r
  {
    if tenancyId == "" then []
    else Filter(charges, (c: RentCharge) => c.tenancyId == tenancyId && c.balance > 0)
  }

  /** The three text fields of the allocation dialog. */
  datatype AllocationForm = AllocationForm(tenancyId: string, chargeId: string, amount: string)

  /** `openAllocateForm`: the payment's own tenancy preselected, nothing else filled in. */
  function OpenAllocateForm(p: Payment): (f: AllocationForm)
    ensures p.tenancyId.Some? ==> f.tenancyId == p.tenancyId.value
    ensures p.tenancyId.None? ==> f.tenancyId == ""
    ensures f.chargeId == "" && f.amount == ""
  {
    AllocationForm(if p.tenancyId.Some? then p.tenancyId.value else "", "", "")
  }

  /** The tenancy select: a new tenancy clears the chosen charge and keeps the amount. */
  function ChangeTenancy(f: AllocationForm, tenancyId: string): (g: AllocationForm)
    ensures g.tenancyId == tenancyId && g.chargeId == "" && g.amount == f.amount
  {
    f.(tenancyId := tenancyId, chargeId := "")
  }

  /** A charge still offered after a tenancy change belongs to the new tenancy. */
  lemma ChangeTenancyOffersOnlyItsCharges(f: AllocationForm, tenancyId: string, charges: seq<RentCharge>, c: RentCharge)
    requires c in AvailableCharges(ChangeTenancy(f, tenancyId).tenancyId, charges)
    ensures c.tenancyId == tenancyId && c.balance > 0
  {
    var r := AvailableCharges(tenancyId, charges);
    var i :| 0 <= i < |r| && r[i] == c;
  }

  /** The messages `handleAllocateSubmit` shows, and the mutation's failures. */
  datatype SubmitError =
    | TenancyRequired
    | ChargeRequired
    | AmountNotPositiveNumber
    | ExceedsRemaining
    | ChargeNotFound
    | ExceedsBalance
    | MutationFailed(error: AllocateError)

  datatype SubmitOutcome = NoPaymentSelected | Allocated | Rejected(error: SubmitError)

  datatype Checked = Checked(chargeId: Id, amount: int)

  datatype CheckResult = Pass(value: Checked) | Fail(error: SubmitError)

  /**
   * The checks of `handleAllocateSubmit`, in its order: tenancy chosen,
   * charge chosen, amount a positive integer, no more than the payment's
   * remainder, the charge among those loaded, no more than its balance.
   */
  function CheckAllocation(f: AllocationForm, remaining: int, charges: seq<RentCharge>): (r: CheckResult)
    ensures r.Pass? <==>
      && f.tenancyId != "" && f.chargeId != ""
      && ParseInt(f.amount).Some? && 0 < ParseInt(f.amount).value <= remaining
      && FindFirst(charges, (c: RentCharge) => c.id == f.chargeId).Some?
      && ParseInt(f.amount).value <= FindFirst(charges, (c: RentCharge) => c.id == f.chargeId).value.balance
    ensures r.Pass? ==> r.value == Checked(f.chargeId, ParseInt(f.amount).value)
    ensures r == Fail(TenancyRequired) <==> f.tenancyId == ""
    ensures r == Fail(ChargeRequired) <==> f.tenancyId != "" && f.chargeId == ""
  {
    if f.tenancyId == "" then Fail(TenancyRequired)
    else if f.chargeId == "" then Fail(ChargeRequired)
    else match ParseInt(f.amount)
      case None => Fail(AmountNotPositiveNumber)
      case Some(n) =>
        if n <= 0 then Fail(AmountNotPositiveNumber)
        else if n > remaining then Fail(ExceedsRemaining)
        else match FindFirst(charges, (c: RentCharge) => c.id == f.chargeId)
          case None => Fail(ChargeNotFound)
          case Some(c) => if n > c.balance then Fail(ExceedsBalance) else Pass(Checked(f.chargeId, n))
  }

  /** The form check as the page runs it for payment `p`, on the landlord's rows. */
  function PageCheck(allocations: seq<Allocation>, charges: seq<RentCharge>, landlordId: Id, p: Payment,
                     f: AllocationForm): CheckResult
  {
    CheckAllocation(f, p.amount - AllocatedFromPayment(LandlordAllocations(allocations, landlordId), p.id),
                    LandlordCharges(charges, landlordId))
  }

  /**
   * `handleAllocateSubmit` on the landlord's data as loaded from the
   * store: check the form, then run the allocation mutation. A rejected
   * form writes nothing; after a successful allocation the payment's
   * allocations, as the page adds them up, still do not exceed its amount.
   */
  method HandleAllocateSubmit(store: Store, landlordId: Id, selected: Option<Payment>, f: AllocationForm)
    returns (r: SubmitOutcome)
    requires store.Valid()
    modifies store
    ensures store.Valid()
    ensures selected.None? ==> r == NoPaymentSelected
    ensures selected.Some? ==>
      var p := selected.value;
      var check := PageCheck(old(store.allocations), old(store.charges), landlordId, p, f);
      && (check.Fail? ==> r == Rejected(check.error))
      && (check.Pass? ==>
            var c := check.value;
            var ac := AllocateCheck(old(store.charges), old(store.payments), landlordId, p.id, c.chargeId, c.amount);
            && (ac.Failure? ==> r == Rejected(MutationFailed(ac.error)))
            && (ac.Success? ==>
                  && r == Allocated
                  && store.allocations == old(store.allocations) + [Allocation(landlordId, p.id, c.chargeId, c.amount)]
                  && store.charges == ChargesAfter(old(store.charges), LookupCharge(old(store.charges), landlordId, c.chargeId).value, c.amount)
                  && store.payments == MarkMatched(old(store.payments), p.id)))
    ensures r.Allocated? ==>
      && selected.Some? && ParseInt(f.amount).Some?
      && var p := selected.value;
      && AllocatedFromPayment(LandlordAllocations(store.allocations, landlordId), p.id)
         == AllocatedFromPayment(LandlordAllocations(old(store.allocations), landlordId), p.id) + ParseInt(f.amount).value
      && AllocatedFromPayment(LandlordAllocations(store.allocations, landlordId), p.id) <= p.amount
    ensures !r.Allocated? ==>
      && store.allocations == old(store.allocations)
      && store.charges == old(store.charges)
      && store.payments == old(store.payments)
  {
    if selected.None? {
      return NoPaymentSelected;
    }
    var p := selected.value;
    var seen := LandlordAllocations(store.allocations, landlordId);
    var byPayment := AllocationsByPayment(seen);
    var remaining := CurrentPaymentRemaining(selected, byPayment);
    var check := CheckAllocation(f, remaining, LandlordCharges(store.charges, landlordId));
    assert check == PageCheck(store.allocations, store.charges, landlordId, p, f);
    if check.Fail? {
      return Rejected(check.error);
    }
    var outcome := store.Allocate(landlordId, p.id, check.value.chargeId, check.value.amount);
    if outcome.Failure? {
      return Rejected(MutationFailed(outcome.error));
    }
    var a := Allocation(landlordId, p.id, check.value.chargeId, check.value.amount);
    LandlordAllocationsSnoc(old(store.allocations), a, landlordId);
    KeyedSumSnoc(seen, a, PaymentKey, AllocatedAmount, p.id);
    r := Allocated;
  }

  /** The landlord's own new allocation shows up at the end of the page's list. */
  lemma LandlordAllocationsSnoc(allocations: seq<Allocation>, a: Allocation, landlordId: Id)
    requires a.landlordId == landlordId
    ensures LandlordAllocations(allocations + [a], landlordId) == LandlordAllocations(allocations, landlordId) + [a]
  {
    FilterAppend(allocations, [a], (x: Allocation) => x.landlordId == landlordId);
  }
}
