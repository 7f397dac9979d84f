/**
 * The page of one property: its units, each unit's current tenancy, what
 * was paid for it this month and what it still owes, and the unit form.
 */
module PropertyDetailPage {

  import opened Seqs
  import opened Types
  import opened Text
  import opened Aggregate

  function UnitKey(t: Tenancy): Id { t.unitId }

  /**
   * `activeTenancyByUnitId`: per unit, the ACTIVE or NOTICE tenancy with
   * the latest start date, the first seen on a tie.
   */
  method ActiveTenancyByUnit(tenancies: seq<Tenancy>) returns (m: map<Id, Tenancy>)
    ensures forall k :: k in m <==> exists j :: 0 <= j < |tenancies| && IsLive(tenancies[j]) && tenancies[j].unitId == k
    ensures forall k :: k in m ==> IsLive(m[k]) && m[k].unitId == k && m[k] in tenancies
    ensures forall k, j :: k in m && 0 <= j < |tenancies| && IsLive(tenancies[j]) && tenancies[j].unitId == k ==>
      tenancies[j].startDate <= m[k].startDate
    ensures forall k :: k in m ==> LatestLive(tenancies, UnitKey, k) == Some(m[k])
    ensures forall k :: k in m ==> exists i ::
      && 0 <= i < |tenancies| && tenancies[i] == m[k]
      && forall j :: 0 <= j < i && IsLive(tenancies[j]) && tenancies[j].unitId == k ==> tenancies[j].startDate < m[k].startDate
  {
    m := LatestLiveByKey(tenancies, UnitKey);
    forall k | k in m
      ensures exists i ::
        && 0 <= i < |tenancies| && tenancies[i] == m[k]
        && forall j :: 0 <= j < i && IsLive(tenancies[j]) && tenancies[j].unitId == k ==> tenancies[j].startDate < m[k].startDate
    {
      LatestLiveIsLatest(tenancies, UnitKey, k);
    }
  }

  /** The unit a payment is for: through its tenancy; none without one, or for a tenancy not on this property. */
  function PaymentUnit(tenancies: seq<Tenancy>): Payment -> Option<Id>
  {
    (p: Payment) =>
      if p.tenancyId.Some? && p.tenancyId.value != "" && TenancyById(tenancies, p.tenancyId.value).Some?
      then Some(TenancyById(tenancies, p.tenancyId.value).value.unitId)
      else None
  }

  function PaymentAmount(p: Payment): int { p.amount }

  /**
   * `paidThisMonthByUnitId`, over this month's payments for the
   * property's tenancies: per unit, the amounts paid through its tenancies.
   */
  method PaidThisMonthByUnit(monthPayments: seq<Payment>, tenancies: seq<Tenancy>) returns (m: map<Id, int>)
    ensures forall k :: Get(m, k) == Sum(Group(monthPayments, PaymentUnit(tenancies), k), PaymentAmount)
    ensures forall k :: k in m <==> HasKey(monthPayments, PaymentUnit(tenancies), k)
  {
    m := SumByKey(monthPayments, PaymentUnit(tenancies), PaymentAmount);
    forall k ensures Get(m, k) == Sum(Group(monthPayments, PaymentUnit(tenancies), k), PaymentAmount) {
      KeyedSumIsGroupSum(monthPayments, PaymentUnit(tenancies), PaymentAmount, k);
    }
  }

  function ChargeUnit(tenancies: seq<Tenancy>): RentCharge -> Option<Id>
  {
    (c: RentCharge) => if TenancyById(tenancies, c.tenancyId).Some? then Some(TenancyById(tenancies, c.tenancyId).value.unitId) else None
  }

  function ChargeBalance(c: RentCharge): int { c.balance }

  predicate DueThisMonth(c: RentCharge, monthStart: int, monthEnd: int)
  {
    monthStart <= c.dueDate <= monthEnd
  }

  /** The part of a balance that falls due this month. */
  function ThisMonthBalance(monthStart: int, monthEnd: int): RentCharge -> int
  {
    (c: RentCharge) => if DueThisMonth(c, monthStart, monthEnd) then c.balance else 0
  }

  /**
   * The loop filling `total` and `thisMonth` together over the
   * outstanding charges: each charge of a known tenancy adds its balance
   * to its unit's total, and also to this month's figure when due this
   * month.
   */
  method OutstandingByUnit(charges: seq<RentCharge>, tenancies: seq<Tenancy>, monthStart: int, monthEnd: int)
    returns (thisMonth: map<Id, int>, total: map<Id, int>)
    ensures forall k :: Get(total, k) == KeyedSum(charges, ChargeUnit(tenancies), ChargeBalance, k)
    ensures forall k :: Get(thisMonth, k) == KeyedSum(charges, ChargeUnit(tenancies), ThisMonthBalance(monthStart, monthEnd), k)
    ensures forall k :: k in thisMonth ==> k in total
  {
    var key := ChargeUnit(tenancies);
    var inMonth := ThisMonthBalance(monthStart, monthEnd);
    thisMonth := map[];
    total := map[];
    for i := 0 to |charges|
      invariant forall k :: Get(total, k) == KeyedSum(charges[..i], key, ChargeBalance, k)
      invariant forall k :: Get(thisMonth, k) == KeyedSum(charges[..i], key, inMonth, k)
      invariant forall k :: k in thisMonth ==> k in total
    {
      var c := charges[i];
      assert charges[..i + 1] == charges[..i] + [c];
      forall k ensures KeyedSum(charges[..i + 1], key, ChargeBalance, k)
          == KeyedSum(charges[..i], key, ChargeBalance, k) + (if key(c) == Some(k) then c.balance else 0)
        ensures KeyedSum(charges[..i + 1], key, inMonth, k)
          == KeyedSum(charges[..i], key, inMonth, k) + (if key(c) == Some(k) then inMonth(c) else 0)
      {
        KeyedSumSnoc(charges[..i], c, key, ChargeBalance, k);
        KeyedSumSnoc(charges[..i], c, key, inMonth, k);
      }
      var tenancy := TenancyById(tenancies, c.tenancyId);
      if tenancy.Some? {
        var unitId := tenancy.value.unitId;
        total := total[unitId := Get(total, unitId) + c.balance];
        if c.dueDate >= monthStart && c.dueDate <= monthEnd {
          thisMonth := thisMonth[unitId := Get(thisMonth, unitId) + c.balance];
        }
      }
    }
    assert charges[..|charges|] == charges;
  }

  /**
   * Over the outstanding charges (all with a positive balance), no unit
   * owes more this month than in total.
   */
  lemma ThisMonthAtMostTotal(charges: seq<RentCharge>, tenancies: seq<Tenancy>, monthStart: int, monthEnd: int, k: Id)
    requires forall i :: 0 <= i < |charges| ==> charges[i].balance > 0
    ensures KeyedSum(charges, ChargeUnit(tenancies), ThisMonthBalance(monthStart, monthEnd), k)
      <= KeyedSum(charges, ChargeUnit(tenancies), ChargeBalance, k)
  {
    KeyedSumMonotone(charges, ChargeUnit(tenancies), ThisMonthBalance(monthStart, monthEnd), ChargeBalance, k);
  }

  // ---- The unit form ----

  datatype UnitForm = UnitForm(id: Option<Id>, unitCode: string, unitType: string, status: UnitStatus)

  /** `openCreateForm`: empty code and type, VACANT. */
  function CreateForm(): (f: UnitForm)
    ensures f.id.None? && f.unitCode == "" && f.unitType == "" && f.status == Vacant
  {
    UnitForm(None, "", "", Vacant)
  }

  /** `openEditForm`: the unit's fields, a missing type as "". */
  function EditForm(u: Unit): (f: UnitForm)
    ensures f.id == Some(u.id) && f.unitCode == u.unitCode && f.status == u.status
    ensures f.unitType == if u.unitType.Some? then u.unitType.value else ""
  {
    UnitForm(Some(u.id), u.unitCode, if u.unitType.Some? then u.unitType.value else "", u.status)
  }

  datatype UnitError = UnitCodeRequired | NotLoaded

  function UnitErrorMessage(e: UnitError): (m: string)
    ensures |m| > 0
  {
    match e
    case UnitCodeRequired => "Unit code is required"
    case NotLoaded => "Landlord or property not loaded"
  }

  /** What a submit writes: a new unit row, or the three editable columns of an existing one. */
  datatype UnitWrite = Refused(error: UnitError) | Insert(row: Unit) | Update(id: Id, unitCode: string, unitType: Option<string>, status: UnitStatus)

  /**
   * `handleFormSubmit` and the mutations: an empty trimmed code is
   * refused; an edit with an id rewrites code, type and status; a new unit
   * needs the landlord and the property, and starts with rent 0. The new
   * row's id and its `is_deleted` (false) are the database's defaults.
   */
  function SubmitUnit(landlord: Option<Id>, propertyId: Id, editMode: bool, f: UnitForm, newId: Id): (r: UnitWrite)
    ensures r == Refused(UnitCodeRequired) <==> Trim(f.unitCode) == ""
    ensures r == Refused(NotLoaded) <==> Trim(f.unitCode) != "" && !(editMode && f.id.Some?) && (landlord.None? || propertyId == "")
    ensures r.Update? <==> Trim(f.unitCode) != "" && editMode && f.id.Some?
    ensures r.Update? ==> r == Update(f.id.value, Trim(f.unitCode), NullIfEmpty(Trim(f.unitType)), f.status)
    ensures r.Insert? ==>
      && r.row.unitCode == Trim(f.unitCode) && r.row.unitCode != ""
      && r.row.unitType == NullIfEmpty(Trim(f.unitType))
      && r.row.monthlyRent == 0 && r.row.status == f.status && !r.row.isDeleted
      && r.row.propertyId == propertyId && r.row.landlordId == landlord.value && r.row.id == newId
  {
    if Trim(f.unitCode) == "" then Refused(UnitCodeRequired)
    else if editMode && f.id.Some? then Update(f.id.value, Trim(f.unitCode), NullIfEmpty(Trim(f.unitType)), f.status)
    else if landlord.None? || propertyId == "" then Refused(NotLoaded)
    else Insert(Unit(newId, landlord.value, propertyId, Trim(f.unitCode), NullIfEmpty(Trim(f.unitType)), f.status, 0, false))
  }

  /** An update leaves the rent and the deleted flag of the row as they were. */
  function ApplyUnitUpdate(u: Unit, code: string, unitType: Option<string>, status: UnitStatus): (r: Unit)
    ensures r.unitCode == code && r.unitType == unitType && r.status == status
    ensures r.(unitCode := u.unitCode, unitType := u.unitType, status := u.status) == u
  {
    u.(unitCode := code, unitType := unitType, status := status)
  }

  /** The units query: the property's units that are not deleted. */
  function PropertyUnits(units: seq<Unit>, propertyId: Id): (r: seq<Unit>)
    ensures forall u :: u in r <==> u in units && u.propertyId == propertyId && !u.isDeleted
  {
    Filter(units, (u: Unit) => u.propertyId == propertyId && !u.isDeleted)
  }

  /** `deleteMutation`: the unit is marked deleted; the row stays. */
  function SoftDelete(u: Unit): (r: Unit)
    ensures r.isDeleted && r.(isDeleted := u.isDeleted) == u
  {
    u.(isDeleted := true)
  }

  /**
   * Deleting a unit keeps every row, drops that unit from the property's
   * list, and lists nothing that was not listed before.
   */
  lemma SoftDeleteHidesUnit(units: seq<Unit>, i: int, propertyId: Id)
    requires 0 <= i < |units|
    ensures var after := units[i := SoftDelete(units[i])];
      && |after| == |units|
      && after[i] !in PropertyUnits(after, propertyId)
      && forall u :: u in PropertyUnits(after, propertyId) ==> u in PropertyUnits(units, propertyId)
  {
    var after := units[i := SoftDelete(units[i])];
    forall u | u in PropertyUnits(after, propertyId) ensures u in PropertyUnits(units, propertyId) {
      var j :| 0 <= j < |after| && after[j] == u;
      assert j != i;
      assert units[j] == u;
    }
  }
}
