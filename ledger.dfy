/**
 * The three tables the rent ledger writes, `rent_charges`, `payments` and
 * `payment_allocations`, held by one store object, and the writes made
 * against them: the allocation of part of a payment to one rent charge
 * (`allocateMutation` of the unmatched-payments page), payment inserts
 * (manual entry and the M-Pesa callback) and payment edits.
 *
 * The store keeps the ledger invariant: every charge's balance lies in
 * `[0, amount]` and equals its amount less everything allocated to it.
 */
module Ledger {

  import opened Seqs
  import opened Types
  import opened Aggregate

  function ChargeKey(a: Allocation): Option<Id> { Some(a.chargeId) }

  function PaymentKey(a: Allocation): Option<Id> { Some(a.paymentId) }

  function AllocatedAmount(a: Allocation): int { a.amount }

  /** Everything allocated to the charge `id`. */
  function AllocatedToCharge(allocations: seq<Allocation>, id: Id): int
  {
    KeyedSum(allocations, ChargeKey, AllocatedAmount, id)
  }

  /** Everything allocated from the payment `id`. */
  function AllocatedFromPayment(allocations: seq<Allocation>, id: Id): int
  {
    KeyedSum(allocations, PaymentKey, AllocatedAmount, id)
  }

  /**
   * The status written with a charge's new balance: PAID once nothing is
   * owed, PARTIAL while less than the full amount is owed, else UNPAID.
   */
  function StatusOf(newBalance: int, amount: int): (s: ChargeStatus)
    ensures s == Paid <==> newBalance <= 0
    ensures s == Partial <==> 0 < newBalance < amount
    ensures s == Unpaid <==> 0 < newBalance && amount <= newBalance
  {
    if newBalance <= 0 then Paid
    else if newBalance < amount then Partial
    else Unpaid
  }

  /** An allocation of `0 < a <= balance <= amount` never leaves the charge UNPAID. */
  lemma AllocationNeverUnpaid(balance: int, amount: int, a: int)
    requires 0 < a <= balance <= amount
    ensures StatusOf(balance - a, amount) != Unpaid
    ensures StatusOf(balance - a, amount) == Paid <==> a == balance
  {
  }

  predicate UniqueChargeIds(charges: seq<RentCharge>)
  {
    forall i, j :: 0 <= i < j < |charges| ==> charges[i].id != charges[j].id
  }

  predicate UniquePaymentIds(payments: seq<Payment>)
  {
    forall i, j :: 0 <= i < j < |payments| ==> payments[i].id != payments[j].id
  }

  predicate HasCharge(charges: seq<RentCharge>, id: Id)
  {
    exists i :: 0 <= i < |charges| && charges[i].id == id
  }

  predicate HasPayment(payments: seq<Payment>, id: Id)
  {
    exists i :: 0 <= i < |payments| && payments[i].id == id
  }

  /** Balance within `[0, amount]` and amount = balance + allocated. */
  predicate ChargeBalanced(c: RentCharge, allocations: seq<Allocation>)
  {
    && 0 <= c.balance <= c.amount
    && c.balance + AllocatedToCharge(allocations, c.id) == c.amount
  }

  /** The ledger invariant, plus the keys and foreign keys of the schema. */
  predicate LedgerValid(charges: seq<RentCharge>, payments: seq<Payment>, allocations: seq<Allocation>)
  {
    && UniqueChargeIds(charges)
    && UniquePaymentIds(payments)
    && (forall i :: 0 <= i < |charges| ==> ChargeBalanced(charges[i], allocations))
    && (forall j :: 0 <= j < |allocations| ==>
          && allocations[j].amount > 0
          && HasCharge(charges, allocations[j].chargeId)
          && HasPayment(payments, allocations[j].paymentId))
  }

  /**
   * `select * from rent_charges where id = chargeId and landlord_id =
   * landlordId` followed by `.single()`.
   */
  function LookupCharge(charges: seq<RentCharge>, landlordId: Id, chargeId: Id): (r: Option<RentCharge>)
    ensures r.Some? ==> r.value in charges && r.value.id == chargeId && r.value.landlordId == landlordId
  {
    Single(Filter(charges, (c: RentCharge) => c.id == chargeId && c.landlordId == landlordId))
  }

  /** With unique ids, the look-up finds the charge exactly when it is there for that landlord. */
  lemma LookupChargeFinds(charges: seq<RentCharge>, landlordId: Id, chargeId: Id, i: int)
    requires UniqueChargeIds(charges)
    requires 0 <= i < |charges| && charges[i].id == chargeId && charges[i].landlordId == landlordId
    ensures LookupCharge(charges, landlordId, chargeId) == Some(charges[i])
  {
    var p := (c: RentCharge) => c.id == chargeId && c.landlordId == landlordId;
    FilterSingleton(charges, p, i);
  }

  /** `update rent_charges set balance, status where id = chargeId`. */
  function SetChargeBalance(charges: seq<RentCharge>, chargeId: Id, balance: int, status: ChargeStatus): seq<RentCharge>
  {
    seq(|charges|, i requires 0 <= i < |charges| =>
      if charges[i].id == chargeId then charges[i].(balance := balance, status := status) else charges[i])
  }

  /** The charges after `amount` is allocated to `c`: its balance lowered and its status recomputed. */
  function ChargesAfter(charges: seq<RentCharge>, c: RentCharge, amount: int): seq<RentCharge>
  {
    SetChargeBalance(charges, c.id, c.balance - amount, StatusOf(c.balance - amount, c.amount))
  }

  /** `update payments set is_matched = true where id = paymentId`. */
  function MarkMatched(payments: seq<Payment>, paymentId: Id): seq<Payment>
  {
    seq(|payments|, i requires 0 <= i < |payments| =>
      if payments[i].id == paymentId then payments[i].(isMatched := true) else payments[i])
  }

  /** Why `allocateMutation` gave up. */
  datatype AllocateError =
    | ChargeQueryFailed
    | AmountNotPositive
    | ExceedsChargeBalance
    | PaymentMissing

  /**
   * The message the mutation throws for its own checks; the two database
   * failures carry the database's message instead.
   */
  function AllocateErrorMessage(e: AllocateError): (m: Option<string>)
    ensures m.Some? <==> e == AmountNotPositive || e == ExceedsChargeBalance
  {
    match e
    case AmountNotPositive => Some("Allocation amount must be positive")
    case ExceedsChargeBalance => Some("Allocation exceeds remaining charge balance")
    case _ => None
  }

  datatype Outcome<E> = Success | Failure(error: E)

  /**
   * The checks of `allocateMutation`, in its order: the charge must be
   * found for the landlord, the amount positive and within the charge's
   * balance, and the allocation insert needs an existing payment.
   */
  function AllocateCheck(charges: seq<RentCharge>, payments: seq<Payment>, landlordId: Id,
                         paymentId: Id, chargeId: Id, amount: int): (r: Outcome<AllocateError>)
    ensures r.Success? <==>
      && LookupCharge(charges, landlordId, chargeId).Some?
      && 0 < amount <= LookupCharge(charges, landlordId, chargeId).value.balance
      && HasPayment(payments, paymentId)
    ensures r == Failure(ChargeQueryFailed) <==> LookupCharge(charges, landlordId, chargeId).None?
    ensures r == Failure(AmountNotPositive) <==> LookupCharge(charges, landlordId, chargeId).Some? && amount <= 0
  {
    match LookupCharge(charges, landlordId, chargeId)
    case None => Failure(ChargeQueryFailed)
    case Some(c) =>
      if amount <= 0 then Failure(AmountNotPositive)
      else if amount > c.balance then Failure(ExceedsChargeBalance)
      else if !HasPayment(payments, paymentId) then Failure(PaymentMissing)
      else Success
  }

  class Store {
    var charges: seq<RentCharge>
    var payments: seq<Payment>
    var allocations: seq<Allocation>

    predicate Valid()
      reads this
    {
      LedgerValid(charges, payments, allocations)
    }

    /** A ledger holding freshly generated charges: nothing paid yet. */
    constructor (generated: seq<RentCharge>)
      requires UniqueChargeIds(generated)
      requires forall i :: 0 <= i < |generated| ==> generated[i].balance == generated[i].amount >= 0
      ensures Valid()
      ensures charges == generated && payments == [] && allocations == []
    {
      charges := generated;
      payments := [];
      allocations := [];
    }

    /**
     * `allocateMutation`: look the charge up for the landlord, check the
     * amount, insert the allocation, write the charge's new balance and
     * status, and mark the payment matched. A failed check writes nothing.
     */
    method Allocate(landlordId: Id, paymentId: Id, chargeId: Id, amount: int) returns (r: Outcome<AllocateError>)
      requires Valid()
      modifies this
      ensures Valid()
      ensures r == AllocateCheck(old(charges), old(payments), landlordId, paymentId, chargeId, amount)
      ensures r.Success? ==>
        && allocations == old(allocations) + [Allocation(landlordId, paymentId, chargeId, amount)]
        && charges == ChargesAfter(old(charges), LookupCharge(old(charges), landlordId, chargeId).value, amount)
        && payments == MarkMatched(old(payments), paymentId)
      ensures r.Failure? ==> charges == old(charges) && payments == old(payments) && allocations == old(allocations)
    {
      r := AllocateCheck(charges, payments, landlordId, paymentId, chargeId, amount);
      if r.Failure? {
        return;
      }
      var c := LookupCharge(charges, landlordId, chargeId).value;
      var a := Allocation(landlordId, paymentId, chargeId, amount);
      var allocations' := allocations + [a];
      var charges' := ChargesAfter(charges, c, amount);
      var payments' := MarkMatched(payments, paymentId);
      AllocateKeepsValid(charges, payments, allocations, c, a);
      allocations, charges, payments := allocations', charges', payments';
    }

    /**
     * A payment insert. The database generates the id; a clash with an
     * existing id violates the primary key and inserts nothing.
     */
    method InsertPayment(p: Payment) returns (ok: bool)
      requires Valid()
      modifies this
      ensures Valid()
      ensures ok <==> !HasPayment(old(payments), p.id)
      ensures payments == if ok then old(payments) + [p] else old(payments)
      ensures charges == old(charges) && allocations == old(allocations)
    {
      ok := !HasPayment(payments, p.id);
      if ok {
        InsertKeepsValid(charges, payments, allocations, p);
        payments := payments + [p];
      }
    }

    /**
     * `update payments set … where id = id`: every row with that id gets
     * the new field values from `edit`; `is_matched`, the landlord, the
     * M-Pesa transaction id and every allocation are left untouched.
     */
    method UpdatePayment(id: Id, edit: PaymentEdit)
      requires Valid()
      modifies this
      ensures Valid()
      ensures payments == ApplyEdit(old(payments), id, edit)
      ensures charges == old(charges) && allocations == old(allocations)
    {
      EditKeepsValid(charges, payments, allocations, id, edit);
      payments := ApplyEdit(payments, id, edit);
    }
  }

  /** The columns a payment edit rewrites. */
  datatype PaymentEdit = PaymentEdit(
    amount: int,
    paidAt: int,
    source: PaymentSource,
    phoneNumber: Option<string>,
    rawReference: Option<string>,
    tenancyId: Option<Id>,
    notes: Option<string>)

  function ApplyEdit(payments: seq<Payment>, id: Id, edit: PaymentEdit): seq<Payment>
  {
    seq(|payments|, i requires 0 <= i < |payments| =>
      if payments[i].id == id then
        payments[i].(amount := edit.amount, paidAt := edit.paidAt, source := edit.source,
                     phoneNumber := edit.phoneNumber, rawReference := edit.rawReference,
                     tenancyId := edit.tenancyId, notes := edit.notes)
      else payments[i])
  }

  /**
   * A successful allocation keeps the charge's balance plus what was
   * allocated to it: the balance drops by exactly the amount the new
   * allocation row adds.
   */
  lemma AllocationConserves(allocations: seq<Allocation>, c: RentCharge, landlordId: Id, paymentId: Id, amount: int)
    ensures var a := Allocation(landlordId, paymentId, c.id, amount);
      (c.balance - amount) + AllocatedToCharge(allocations + [a], c.id)
      == c.balance + AllocatedToCharge(allocations, c.id)
  {
    KeyedSumSnoc(allocations, Allocation(landlordId, paymentId, c.id, amount), ChargeKey, AllocatedAmount, c.id);
  }

  /** An allocation to one charge leaves what is allocated to every other charge unchanged. */
  lemma AllocationLeavesOthers(allocations: seq<Allocation>, a: Allocation, other: Id)
    requires other != a.chargeId
    ensures AllocatedToCharge(allocations + [a], other) == AllocatedToCharge(allocations, other)
  {
    KeyedSumSnoc(allocations, a, ChargeKey, AllocatedAmount, other);
  }

  /**
   * A successful allocation keeps the ledger invariant: the chosen charge's
   * balance drops by what the new row allocates to it, no other charge's
   * balance or allocations change, and the new row's payment and charge
   * exist.
   */
  lemma AllocateKeepsValid(charges: seq<RentCharge>, payments: seq<Payment>, allocations: seq<Allocation>,
                           c: RentCharge, a: Allocation)
    requires LedgerValid(charges, payments, allocations)
    requires c in charges && c.id == a.chargeId && 0 < a.amount <= c.balance
    requires HasPayment(payments, a.paymentId)
    ensures LedgerValid(ChargesAfter(charges, c, a.amount),
        MarkMatched(payments, a.paymentId),
        allocations + [a])
  {
    var chargeId, amount := a.chargeId, a.amount;
    var status := StatusOf(c.balance - amount, c.amount);
    BalancedAfter(charges, allocations, c, a, status);
    var k :| 0 <= k < |charges| && charges[k] == c;
    assert HasCharge(charges, chargeId) by { assert charges[k].id == chargeId; }
    SetChargeBalanceIds(charges, chargeId, c.balance - amount, status);
    MarkMatchedIds(payments, a.paymentId);
    SameIdsKeepKeys(charges, SetChargeBalance(charges, chargeId, c.balance - amount, status),
                    payments, MarkMatched(payments, a.paymentId), allocations, a);
  }

  /** Every charge is still balanced once the allocation row is added and its charge's balance lowered. */
  lemma BalancedAfter(charges: seq<RentCharge>, allocations: seq<Allocation>, c: RentCharge, a: Allocation,
                      status: ChargeStatus)
    requires UniqueChargeIds(charges)
    requires forall i :: 0 <= i < |charges| ==> ChargeBalanced(charges[i], allocations)
    requires c in charges && c.id == a.chargeId && 0 < a.amount <= c.balance
    ensures var charges' := SetChargeBalance(charges, a.chargeId, c.balance - a.amount, status);
      forall i :: 0 <= i < |charges'| ==> ChargeBalanced(charges'[i], allocations + [a])
  {
    var charges' := SetChargeBalance(charges, a.chargeId, c.balance - a.amount, status);
    forall i | 0 <= i < |charges'| ensures ChargeBalanced(charges'[i], allocations + [a]) {
      BalanceStep(charges, allocations, c, a, status, i);
    }
  }

  lemma SetChargeBalanceIds(charges: seq<RentCharge>, chargeId: Id, balance: int, status: ChargeStatus)
    ensures var charges' := SetChargeBalance(charges, chargeId, balance, status);
      |charges'| == |charges| && forall i :: 0 <= i < |charges| ==> charges'[i].id == charges[i].id
  {
  }

  lemma MarkMatchedIds(payments: seq<Payment>, paymentId: Id)
    ensures var payments' := MarkMatched(payments, paymentId);
      |payments'| == |payments| && forall i :: 0 <= i < |payments| ==> payments'[i].id == payments[i].id
  {
  }

  /** One charge after a successful allocation: still balanced against the longer allocation list. */
  lemma BalanceStep(charges: seq<RentCharge>, allocations: seq<Allocation>, c: RentCharge, a: Allocation,
                    status: ChargeStatus, i: int)
    requires UniqueChargeIds(charges) && 0 <= i < |charges|
    requires ChargeBalanced(charges[i], allocations)
    requires c in charges && c.id == a.chargeId && 0 < a.amount <= c.balance
    ensures ChargeBalanced(SetChargeBalance(charges, a.chargeId, c.balance - a.amount, status)[i], allocations + [a])
  {
    KeyedSumSnoc(allocations, a, ChargeKey, AllocatedAmount, charges[i].id);
    if charges[i].id == a.chargeId {
      var k :| 0 <= k < |charges| && charges[k] == c;
      assert k == i;
    }
  }

  /**
   * Rewriting rows without changing their ids keeps the keys and foreign
   * keys, and so does a new allocation whose rows exist.
   */
  lemma SameIdsKeepKeys(charges: seq<RentCharge>, charges': seq<RentCharge>,
                        payments: seq<Payment>, payments': seq<Payment>,
                        allocations: seq<Allocation>, a: Allocation)
    requires LedgerValid(charges, payments, allocations)
    requires |charges'| == |charges| && forall i :: 0 <= i < |charges| ==> charges'[i].id == charges[i].id
    requires |payments'| == |payments| && forall i :: 0 <= i < |payments| ==> payments'[i].id == payments[i].id
    requires a.amount > 0 && HasCharge(charges, a.chargeId) && HasPayment(payments, a.paymentId)
    ensures UniqueChargeIds(charges') && UniquePaymentIds(payments')
    ensures forall j :: 0 <= j < |allocations + [a]| ==>
      && (allocations + [a])[j].amount > 0
      && HasCharge(charges', (allocations + [a])[j].chargeId)
      && HasPayment(payments', (allocations + [a])[j].paymentId)
  {
    var allocations' := allocations + [a];
    forall j | 0 <= j < |allocations'|
      ensures HasCharge(charges', allocations'[j].chargeId) && HasPayment(payments', allocations'[j].paymentId)
    {
      var cid := allocations'[j].chargeId;
      var pid := allocations'[j].paymentId;
      assert HasCharge(charges, cid) && HasPayment(payments, pid);
      var ci :| 0 <= ci < |charges| && charges[ci].id == cid;
      var pi :| 0 <= pi < |payments| && payments[pi].id == pid;
      assert charges'[ci].id == cid;
      assert payments'[pi].id == pid;
    }
  }

  /** Appending a payment with a new id keeps the ledger invariant. */
  lemma InsertKeepsValid(charges: seq<RentCharge>, payments: seq<Payment>, allocations: seq<Allocation>, p: Payment)
    requires LedgerValid(charges, payments, allocations)
    requires !HasPayment(payments, p.id)
    ensures LedgerValid(charges, payments + [p], allocations)
  {
    var payments' := payments + [p];
    forall j | 0 <= j < |allocations| ensures HasPayment(payments', allocations[j].paymentId) {
      var pid := allocations[j].paymentId;
      var pi :| 0 <= pi < |payments| && payments[pi].id == pid;
      assert payments'[pi].id == pid;
    }
  }

  /** Editing a payment keeps the ledger invariant. */
  lemma EditKeepsValid(charges: seq<RentCharge>, payments: seq<Payment>, allocations: seq<Allocation>, id: Id, edit: PaymentEdit)
    requires LedgerValid(charges, payments, allocations)
    ensures LedgerValid(charges, ApplyEdit(payments, id, edit), allocations)
  {
    var payments' := ApplyEdit(payments, id, edit);
    forall j | 0 <= j < |allocations| ensures HasPayment(payments', allocations[j].paymentId) {
      var pid := allocations[j].paymentId;
      var pi :| 0 <= pi < |payments| && payments[pi].id == pid;
      assert payments'[pi].id == pid;
    }
  }

  /**
   * The ledger does not bound what is allocated from a payment by the
   * payment's amount: an edit may lower the amount below what is already
   * allocated from it, and every ledger invariant still holds.
   */
  lemma EditCanOverAllocate(charges: seq<RentCharge>, payments: seq<Payment>, allocations: seq<Allocation>,
                            i: nat, edit: PaymentEdit)
    requires LedgerValid(charges, payments, allocations)
    requires i < |payments| && edit.amount < AllocatedFromPayment(allocations, payments[i].id)
    ensures LedgerValid(charges, ApplyEdit(payments, payments[i].id, edit), allocations)
    ensures ApplyEdit(payments, payments[i].id, edit)[i].id == payments[i].id
    ensures AllocatedFromPayment(allocations, payments[i].id) > ApplyEdit(payments, payments[i].id, edit)[i].amount
  {
    EditKeepsValid(charges, payments, allocations, payments[i].id, edit);
  }

  /**
   * The allocation checks look at the charge's balance only: 300 may be
   * allocated from a payment of 100 against a charge owing 500.
   */
  lemma AllocateBeyondPayment()
    ensures
      var c := RentCharge("c1", "l1", "t1", 202401, 0, 500, 500, Unpaid);
      var p := Payment("p1", "l1", None, 100, Manual, None, None, None, 0, false, None);
      && AllocateCheck([c], [p], "l1", "p1", "c1", 300).Success?
      && AllocatedFromPayment([Allocation("l1", "p1", "c1", 300)], "p1") > p.amount
  {
    var c := RentCharge("c1", "l1", "t1", 202401, 0, 500, 500, Unpaid);
    var p := Payment("p1", "l1", None, 100, Manual, None, None, None, 0, false, None);
    assert Filter([c], (x: RentCharge) => x.id == "c1" && x.landlordId == "l1") == [c];
    assert [p][0].id == "p1";
    assert [Allocation("l1", "p1", "c1", 300)][..0] == [];
  }
}
