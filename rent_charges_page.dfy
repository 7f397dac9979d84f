/**
 * The rent-due page: the filtered list of rent charges, the summary
 * figures above it, the message after generating this month's charges,
 * and the status each row shows. "Now" is an input.
 */
module RentChargesPage {

  import opened Seqs
  import opened Types
  import opened Text
  import opened Ledger
  import opened Utils

  datatype StatusFilter = AllStatuses | OnlyStatus(status: ChargeStatus)

  /** The unit a charge is for, through its tenancy; None when either link is unknown. */
  function ChargeUnit(c: RentCharge, tenancies: seq<Tenancy>, units: seq<Unit>): (r: Option<Unit>)
    ensures r.Some? ==> TenancyById(tenancies, c.tenancyId).Some?
    ensures r.Some? ==> r.value in units && r.value.id == TenancyById(tenancies, c.tenancyId).value.unitId
  {
    match TenancyById(tenancies, c.tenancyId)
    case None => None
    case Some(t) => UnitById(units, t.unitId)
  }

  /** The three tests of `filteredRentCharges`; an empty property or tenant filter lets everything through. */
  predicate Keep(c: RentCharge, status: StatusFilter, propertyId: Id, tenantId: Id,
                 tenancies: seq<Tenancy>, units: seq<Unit>)
  {
    && (status.AllStatuses? || c.status == status.status)
    && (propertyId == "" || (ChargeUnit(c, tenancies, units).Some? && ChargeUnit(c, tenancies, units).value.propertyId == propertyId))
    && (tenantId == "" || (TenancyById(tenancies, c.tenancyId).Some? && TenancyById(tenancies, c.tenancyId).value.tenantId == tenantId))
  }

  /** `filteredRentCharges`: the charges that pass, in their order. */
  function FilterCharges(charges: seq<RentCharge>, status: StatusFilter, propertyId: Id, tenantId: Id,
                         tenancies: seq<Tenancy>, units: seq<Unit>): (r: seq<RentCharge>)
    ensures |r| <= |charges|
    ensures forall i :: 0 <= i < |r| ==> r[i] in charges && Keep(r[i], status, propertyId, tenantId, tenancies, units)
    ensures forall i :: 0 <= i < |charges| && Keep(charges[i], status, propertyId, tenantId, tenancies, units) ==>
      charges[i] in r
  {
    Filter(charges, (c: RentCharge) => Keep(c, status, propertyId, tenantId, tenancies, units))
  }

  /** With no filter set the list is the charges as loaded. */
  lemma NoFilterKeepsAll(charges: seq<RentCharge>, tenancies: seq<Tenancy>, units: seq<Unit>)
    ensures FilterCharges(charges, AllStatuses, "", "", tenancies, units) == charges
  {
    FilterAll(charges, (c: RentCharge) => Keep(c, AllStatuses, "", "", tenancies, units));
  }

  /**
   * The filters narrow one after another: filtering by status first and
   * then by property and tenant gives the same list, in the same order.
   */
  lemma FiltersCompose(charges: seq<RentCharge>, status: StatusFilter, propertyId: Id, tenantId: Id,
                       tenancies: seq<Tenancy>, units: seq<Unit>)
    ensures FilterCharges(FilterCharges(charges, status, "", "", tenancies, units), AllStatuses, propertyId, tenantId, tenancies, units)
         == FilterCharges(charges, status, propertyId, tenantId, tenancies, units)
  {
    FilterFilter(charges,
      (c: RentCharge) => Keep(c, status, "", "", tenancies, units),
      (c: RentCharge) => Keep(c, AllStatuses, propertyId, tenantId, tenancies, units),
      (c: RentCharge) => Keep(c, status, propertyId, tenantId, tenancies, units));
  }

  /** A property filter drops a charge whose tenancy or unit is unknown; a tenant filter one whose tenancy is. */
  lemma UnknownLinksDropped(charges: seq<RentCharge>, status: StatusFilter, propertyId: Id, tenantId: Id,
                            tenancies: seq<Tenancy>, units: seq<Unit>, c: RentCharge)
    requires c in FilterCharges(charges, status, propertyId, tenantId, tenancies, units)
    ensures propertyId != "" ==> ChargeUnit(c, tenancies, units).Some?
    ensures tenantId != "" ==> TenancyById(tenancies, c.tenancyId).Some?
  {
    var r := FilterCharges(charges, status, propertyId, tenantId, tenancies, units);
    var i :| 0 <= i < |r| && r[i] == c;
  }

  /** The figures above the list. */
  datatype Summary = Summary(
    unpaidCount: nat,
    partialCount: nat,
    paidCount: nat,
    totalOutstanding: int,
    overdueCount: nat,
    tenantsWithOutstanding: nat,
    propertiesWithOutstanding: nat,
    unitsWithOutstanding: nat,
    totalExpected: int,
    totalCollected: int)

  function Balance(c: RentCharge): int { c.balance }

  function Amount(c: RentCharge): int { c.amount }

  predicate HasBalance(c: RentCharge) { c.balance > 0 }

  /** Some charge with a balance has the non-empty key `k`. */
  predicate HasOutstanding(charges: seq<RentCharge>, key: RentCharge -> Option<Id>, k: Id)
  {
    exists i :: 0 <= i < |charges| && HasBalance(charges[i]) && key(charges[i]) == Some(k) && k != ""
  }

  /**
   * The distinct non-empty keys of the charges with a balance, as
   * `new Set(all.filter(…).map(key).filter(Boolean))` collects them.
   */
  function OutstandingKeys(charges: seq<RentCharge>, key: RentCharge -> Option<Id>): (r: set<Id>)
    ensures forall k :: k in r ==> k != ""
  {
    if |charges| == 0 then {}
    else
      var c := charges[|charges| - 1];
      var rest := OutstandingKeys(charges[..|charges| - 1], key);
      if HasBalance(c) && key(c).Some? && key(c).value != "" then rest + {key(c).value} else rest
  }

  /**
   * A key is collected exactly when some charge with a balance has it and
   * it is not empty: this is what `tenantsWithOutstanding`,
   * `unitsWithOutstanding` and `propertiesWithOutstanding` count.
   */
  lemma {:induction false} OutstandingKeysIff(charges: seq<RentCharge>, key: RentCharge -> Option<Id>, k: Id)
    ensures k in OutstandingKeys(charges, key) <==> HasOutstanding(charges, key, k)
  {
    if |charges| > 0 {
      var init := charges[..|charges| - 1];
      var c := charges[|charges| - 1];
      OutstandingKeysIff(init, key, k);
      if HasOutstanding(charges, key, k) {
        var i :| 0 <= i < |charges| && HasBalance(charges[i]) && key(charges[i]) == Some(k) && k != "";
        if i < |init| {
          assert init[i] == charges[i];
        }
      }
      if HasOutstanding(init, key, k) {
        var i :| 0 <= i < |init| && HasBalance(init[i]) && key(init[i]) == Some(k) && k != "";
        assert charges[i] == init[i];
      }
    }
  }

  /** There are never more distinct keys than charges with a balance. */
  lemma {:induction false} OutstandingKeysAtMost(charges: seq<RentCharge>, key: RentCharge -> Option<Id>)
    ensures |OutstandingKeys(charges, key)| <= Count(charges, HasBalance)
  {
    if |charges| > 0 {
      var init := charges[..|charges| - 1];
      var c := charges[|charges| - 1];
      var rest := OutstandingKeys(init, key);
      OutstandingKeysAtMost(init, key);
      assert charges == init + [c];
      FilterAppend(init, [c], HasBalance);
      assert Count(charges, HasBalance) == Count(init, HasBalance) + Count([c], HasBalance);
      if HasBalance(c) && key(c).Some? && key(c).value != "" {
        assert OutstandingKeys(charges, key) == rest + {key(c).value};
        assert |rest + {key(c).value}| <= |rest| + 1;
      } else {
        assert OutstandingKeys(charges, key) == rest;
      }
    }
  }

  function TenantOf(tenancies: seq<Tenancy>): RentCharge -> Option<Id>
  {
    (c: RentCharge) => if TenancyById(tenancies, c.tenancyId).Some? then Some(TenancyById(tenancies, c.tenancyId).value.tenantId) else None
  }

  function UnitOf(tenancies: seq<Tenancy>): RentCharge -> Option<Id>
  {
    (c: RentCharge) => if TenancyById(tenancies, c.tenancyId).Some? then Some(TenancyById(tenancies, c.tenancyId).value.unitId) else None
  }

  function PropertyOf(tenancies: seq<Tenancy>, units: seq<Unit>): RentCharge -> Option<Id>
  {
    (c: RentCharge) => if ChargeUnit(c, tenancies, units).Some? then Some(ChargeUnit(c, tenancies, units).value.propertyId) else None
  }

  predicate IsUnpaid(c: RentCharge) { c.status == Unpaid }

  predicate IsPartial(c: RentCharge) { c.status == Partial }

  predicate IsPaid(c: RentCharge) { c.status == Paid }

  /** The overdue card's test: something is owed and the due date has passed. */
  function OverdueAt(now: int): RentCharge -> bool
  {
    (c: RentCharge) => c.balance > 0 && now > c.dueDate
  }

  /** `summaryStats` over all the landlord's charges. */
  function Stats(charges: seq<RentCharge>, tenancies: seq<Tenancy>, units: seq<Unit>, now: int): (s: Summary)
    ensures s.totalCollected + s.totalOutstanding == s.totalExpected
    ensures s.totalOutstanding == Sum(charges, Balance) && s.totalExpected == Sum(charges, Amount)
    ensures s.tenantsWithOutstanding <= Count(charges, HasBalance)
    ensures s.unitsWithOutstanding <= Count(charges, HasBalance)
    ensures s.propertiesWithOutstanding <= Count(charges, HasBalance)
    ensures s.unpaidCount == Count(charges, IsUnpaid)
    ensures s.partialCount == Count(charges, IsPartial)
    ensures s.paidCount == Count(charges, IsPaid)
    ensures s.unpaidCount + s.partialCount + s.paidCount == |charges|
    ensures s.overdueCount == Count(charges, OverdueAt(now))
    ensures s.overdueCount <= Count(charges, HasBalance)
    ensures s.tenantsWithOutstanding == |OutstandingKeys(charges, TenantOf(tenancies))|
    ensures s.unitsWithOutstanding == |OutstandingKeys(charges, UnitOf(tenancies))|
    ensures s.propertiesWithOutstanding == |OutstandingKeys(charges, PropertyOf(tenancies, units))|
  {
    OutstandingKeysAtMost(charges, TenantOf(tenancies));
    OutstandingKeysAtMost(charges, UnitOf(tenancies));
    OutstandingKeysAtMost(charges, PropertyOf(tenancies, units));
    OverdueAtMostOutstanding(charges, now);
    StatusCountsPartition(charges);
    var outstanding := Sum(charges, Balance);
    var expected := Sum(charges, Amount);
    Summary(
      Count(charges, IsUnpaid),
      Count(charges, IsPartial),
      Count(charges, IsPaid),
      outstanding,
      Count(charges, OverdueAt(now)),
      |OutstandingKeys(charges, TenantOf(tenancies))|,
      |OutstandingKeys(charges, PropertyOf(tenancies, units))|,
      |OutstandingKeys(charges, UnitOf(tenancies))|,
      expected,
      expected - outstanding)
  }

  lemma OverdueAtMostOutstanding(charges: seq<RentCharge>, now: int)
    ensures Count(charges, OverdueAt(now)) <= Count(charges, HasBalance)
  {
    FilterFilter(charges, HasBalance, (c: RentCharge) => now > c.dueDate, OverdueAt(now));
  }

  /** Every charge has exactly one of the three statuses, so the three counts add up to the number of charges. */
  lemma {:induction false} StatusCountsPartition(charges: seq<RentCharge>)
    ensures Count(charges, IsUnpaid) + Count(charges, IsPartial) + Count(charges, IsPaid) == |charges|
  {
    if |charges| > 0 {
      var init := charges[..|charges| - 1];
      var c := charges[|charges| - 1];
      StatusCountsPartition(init);
      assert charges == init + [c];
      FilterAppend(init, [c], IsUnpaid);
      FilterAppend(init, [c], IsPartial);
      FilterAppend(init, [c], IsPaid);
    }
  }

  /**
   * On a ledger whose charges are all balanced, "collected" is exactly what
   * has been allocated to the charges.
   */
  lemma CollectedIsAllocated(charges: seq<RentCharge>, allocations: seq<Allocation>,
                             tenancies: seq<Tenancy>, units: seq<Unit>, now: int)
    requires forall i :: 0 <= i < |charges| ==> ChargeBalanced(charges[i], allocations)
    ensures Stats(charges, tenancies, units, now).totalCollected
         == Sum(charges, (c: RentCharge) => AllocatedToCharge(allocations, c.id))
  {
    PaidSoFar(charges, allocations);
  }

  lemma PaidSoFar(charges: seq<RentCharge>, allocations: seq<Allocation>)
    requires forall i :: 0 <= i < |charges| ==> ChargeBalanced(charges[i], allocations)
    ensures Sum(charges, Amount) - Sum(charges, Balance) == Sum(charges, (c: RentCharge) => AllocatedToCharge(allocations, c.id))
  {
    SumDifference(charges, Amount, Balance);
    forall i | 0 <= i < |charges|
      ensures Amount(charges[i]) - Balance(charges[i]) == AllocatedToCharge(allocations, charges[i].id)
    {
      assert ChargeBalanced(charges[i], allocations);
    }
    SumCongruent(charges, (c: RentCharge) => Amount(c) - Balance(c), (c: RentCharge) => AllocatedToCharge(allocations, c.id));
  }

  lemma {:induction false} SumDifference(s: seq<RentCharge>, f: RentCharge -> int, g: RentCharge -> int)
    ensures Sum(s, f) - Sum(s, g) == Sum(s, (c: RentCharge) => f(c) - g(c))
  {
    if |s| > 0 {
      SumDifference(s[..|s| - 1], f, g);
    }
  }

  /** The answer of the generation call: a list of created rows, or something that is not a list. */
  function GeneratedCount(data: Option<seq<GeneratedCharge>>): (n: nat)
    ensures data.Some? ==> n == |data.value|
    ensures data.None? ==> n == 0
  {
    if data.Some? then |data.value| else 0
  }

  function GenerateMessage(data: Option<seq<GeneratedCharge>>): (m: string)
    ensures GeneratedCount(data) == 0 ==> m == "All tenancies already have rent due entries for this month."
    ensures GeneratedCount(data) > 0 ==> StartsWith(m, "Generated ")
  {
    var n := GeneratedCount(data);
    if n > 0 then "Generated " + NatToString(n) + " rent due entries for this month."
    else "All tenancies already have rent due entries for this month."
  }

  /** The number in the success message is the number of rows returned. */
  lemma GenerateMessageCount(data: Option<seq<GeneratedCharge>>)
    requires GeneratedCount(data) > 0
    ensures var m := GenerateMessage(data);
      var digits := NatToString(GeneratedCount(data));
      && StartsWith(m, "Generated ")
      && |m| >= 10 + |digits|
      && ParseInt(m[10..10 + |digits|]) == Some(GeneratedCount(data) as int)
  {
    var n := GeneratedCount(data);
    var digits := NatToString(n);
    var m := GenerateMessage(data);
    assert m[10..10 + |digits|] == digits;
    assert m[..10] == "Generated ";
    ParseIntOfIntToString(n);
  }

  /** What the status column shows. */
  datatype Display =
    | ShownPaid(amount: int)
    | ShownOverdue(unpaid: int, daysLate: int)
    | ShownPartial(paid: int, left: int)
    | ShownDue(balance: int, dueDay: string)

  const DayMillis: int := 1000 * 60 * 60 * 24

  /**
   * The status cascade: paid when marked paid or nothing is owed; overdue
   * when something is owed, the due date has passed and it is not marked
   * paid; otherwise partial or due by the stored status. `dueDay` is the
   * day of the month of the due date.
   */
  function DisplayStatus(c: RentCharge, now: int, dueDay: int): (d: Display)
    ensures d.ShownPaid? <==> c.status == Paid || c.balance <= 0
    ensures d.ShownOverdue? <==> c.balance > 0 && now > c.dueDate && c.status != Paid
    ensures d.ShownPartial? <==> c.balance > 0 && now <= c.dueDate && c.status == Partial
    ensures d.ShownDue? <==> c.balance > 0 && now <= c.dueDate && c.status == Unpaid
    ensures d.ShownOverdue? ==> d.unpaid == c.balance && d.daysLate >= 0
    ensures d.ShownOverdue? ==> d.daysLate == (now - c.dueDate) / DayMillis
    ensures d.ShownOverdue? ==> d.daysLate * DayMillis <= now - c.dueDate < (d.daysLate + 1) * DayMillis
    ensures d.ShownPartial? ==> d.paid + d.left == c.amount && d.left == c.balance
    ensures d.ShownDue? ==> d.dueDay == NatToString(if dueDay >= 0 then dueDay else 0) + DaySuffix(dueDay)
  {
    var hasBalance := c.balance > 0;
    var isOverdue := hasBalance && now > c.dueDate && c.status != Paid;
    var daysOverdue := if isOverdue then (now - c.dueDate) / DayMillis else 0;
    if c.status == Paid || !hasBalance then ShownPaid(c.amount)
    else if isOverdue then ShownOverdue(c.balance, daysOverdue)
    else if c.status == Partial then ShownPartial(c.amount - c.balance, c.balance)
    else
      assert c.status == Unpaid;
      ShownDue(c.balance, NatToString(if dueDay >= 0 then dueDay else 0) + DaySuffix(dueDay))
  }

  /**
   * For a charge the ledger keeps (balance within the amount, status
   * given by the balance), the row shows paid exactly when nothing is
   * owed, and partial only when part of the amount has been paid.
   */
  lemma DisplayAgreesWithLedger(c: RentCharge, now: int, dueDay: int)
    requires 0 <= c.balance <= c.amount && c.amount > 0
    requires c.status == StatusOf(c.balance, c.amount)
    ensures DisplayStatus(c, now, dueDay).ShownPaid? <==> c.balance == 0
    ensures DisplayStatus(c, now, dueDay).ShownPartial? ==> 0 < c.balance < c.amount
    ensures DisplayStatus(c, now, dueDay).ShownDue? ==> c.balance == c.amount
  {
  }
}
