/**
 * The tenancies page: the tenancy form (its checks and the row it writes),
 * the unit picker, and the per-tenancy figures of the table — paid this
 * month, outstanding in total and this month, and the unpaid months.
 * The current month is an input, as the instants `monthStart` and
 * `monthEnd` that bound it.
 */
module TenanciesPage {

  import opened Seqs
  import opened Types
  import opened Text
  import opened Aggregate

  // ---- The form ----

  /** The form; a date field is None while empty. */
  datatype TenancyForm = TenancyForm(
    id: Option<Id>,
    propertyId: Id,
    unitId: Id,
    tenantId: Id,
    startDate: Option<int>,
    endDate: Option<int>,
    monthlyRent: string,
    deposit: string,
    rentDueDay: string,
    status: TenancyStatus)

  /** `openCreateForm`: every field empty, the status ACTIVE. */
  function CreateForm(): (f: TenancyForm)
    ensures f.id.None? && f.propertyId == "" && f.unitId == "" && f.tenantId == ""
    ensures f.startDate.None? && f.endDate.None? && f.monthlyRent == "" && f.deposit == "" && f.rentDueDay == ""
    ensures f.status == Active
  {
    TenancyForm(None, "", "", "", None, None, "", "", "", Active)
  }

  /** `x?.toString() || ''` for an optional number. */
  function OptionalText(n: Option<int>): (s: string)
    ensures n.None? <==> s == ""
    ensures n.Some? ==> ParseInt(s) == n
  {
    ParseIntOfIntToString(if n.Some? then n.value else 0);
    if n.Some? then IntToString(n.value) else ""
  }

  /**
   * `openEditForm`: the tenancy's fields, with the property taken from its
   * unit ("" when the unit is not among the loaded ones).
   */
  function EditForm(t: Tenancy, units: seq<Unit>): (f: TenancyForm)
    ensures f.id == Some(t.id) && f.unitId == t.unitId && f.tenantId == t.tenantId && f.status == t.status
    ensures f.propertyId == if UnitById(units, t.unitId).Some? then UnitById(units, t.unitId).value.propertyId else ""
    ensures f.startDate == Some(t.startDate) && f.endDate == t.endDate
    ensures ParseInt(f.monthlyRent) == Some(t.monthlyRent)
    ensures f.deposit == OptionalText(t.depositRequired) && f.rentDueDay == OptionalText(t.rentDueDay)
  {
    ParseIntOfIntToString(t.monthlyRent);
    TenancyForm(Some(t.id),
                if UnitById(units, t.unitId).Some? then UnitById(units, t.unitId).value.propertyId else "",
                t.unitId, t.tenantId, Some(t.startDate), t.endDate, IntToString(t.monthlyRent),
                OptionalText(t.depositRequired), OptionalText(t.rentDueDay), t.status)
  }

  /** The property select's `onChange`: the new property, and the unit cleared. */
  function ChangeProperty(f: TenancyForm, propertyId: Id): (g: TenancyForm)
    ensures g.propertyId == propertyId && g.unitId == ""
    ensures g.(propertyId := f.propertyId, unitId := f.unitId) == f
  {
    f.(propertyId := propertyId, unitId := "")
  }

  /** `availableUnitsForSelectedProperty`: no units before a property is chosen, then exactly its units. */
  function UnitOptions(propertyId: Id, units: seq<Unit>): (r: seq<Unit>)
    ensures propertyId == "" ==> r == []
    ensures propertyId != "" ==> forall u :: u in r <==> u in units && u.propertyId == propertyId
    ensures |r| <= |units|
  {
    if propertyId == "" then [] else Filter(units, (u: Unit) => u.propertyId == propertyId)
  }

  datatype TenancyError =
    | PropertyRequired | UnitRequired | TenantRequired | StartDateRequired
    | LandlordNotLoaded | RentInvalid | DepositInvalid | DueDayInvalid

  /** The text the form shows for each refusal. */
  function ErrorMessage(e: TenancyError): (m: string)
    ensures |m| > 0
  {
    match e
    case PropertyRequired => "Property is required"
    case UnitRequired => "Unit is required"
    case TenantRequired => "Tenant is required"
    case StartDateRequired => "Start date is required"
    case LandlordNotLoaded => "Landlord profile not loaded"
    case RentInvalid => "Monthly rent must be a positive number"
    case DepositInvalid => "Deposit must be zero or a positive number"
    case DueDayInvalid => "Rent due day must be between 1 and 28"
  }

  /** The columns an insert or update writes (an insert adds the landlord). */
  datatype TenancyFields = TenancyFields(
    tenantId: Id,
    unitId: Id,
    startDate: int,
    endDate: Option<int>,
    monthlyRent: int,
    depositRequired: int,
    rentDueDay: Option<int>,
    status: TenancyStatus)

  datatype TenancyWrite = Insert(landlordId: Id, fields: TenancyFields) | Update(id: Id, fields: TenancyFields)

  datatype SubmitResult = Refused(error: TenancyError) | Write(write: TenancyWrite)

  /** `parseInt(payload.monthlyRent, 10)`, accepted when above zero. */
  function Rent(s: string): (r: Option<int>)
    ensures r.Some? <==> ParseInt(s).Some? && ParseInt(s).value > 0
    ensures r.Some? ==> r == ParseInt(s)
  {
    if ParseInt(s).Some? && ParseInt(s).value > 0 then ParseInt(s) else None
  }

  /** The deposit: 0 when the field is empty, else a number of at least zero. */
  function Deposit(s: string): (r: Option<int>)
    ensures s == "" ==> r == Some(0)
    ensures s != "" ==> (r.Some? <==> ParseInt(s).Some? && ParseInt(s).value >= 0)
    ensures s != "" && r.Some? ==> r == ParseInt(s)
  {
    if s == "" then Some(0)
    else if ParseInt(s).Some? && ParseInt(s).value >= 0 then ParseInt(s)
    else None
  }

  /** The due day: Some(None) (no day) when the field is empty, else a day 1 to 28. */
  function DueDay(s: string): (r: Option<Option<int>>)
    ensures s == "" ==> r == Some(None)
    ensures s != "" ==> (r.Some? <==> ParseInt(s).Some? && 1 <= ParseInt(s).value <= 28)
    ensures s != "" && r.Some? ==> r.value == ParseInt(s)
  {
    if s == "" then Some(None)
    else if ParseInt(s).Some? && 1 <= ParseInt(s).value <= 28 then Some(ParseInt(s))
    else None
  }

  /** The mutations' own checks, the same for create and update: rent, then deposit, then due day. */
  function CheckNumbers(f: TenancyForm): (r: Option<TenancyError>)
    ensures r == Some(RentInvalid) <==> Rent(f.monthlyRent).None?
    ensures r == Some(DepositInvalid) <==> Rent(f.monthlyRent).Some? && Deposit(f.deposit).None?
    ensures r == Some(DueDayInvalid) <==>
      Rent(f.monthlyRent).Some? && Deposit(f.deposit).Some? && DueDay(f.rentDueDay).None?
    ensures r.None? <==> Rent(f.monthlyRent).Some? && Deposit(f.deposit).Some? && DueDay(f.rentDueDay).Some?
  {
    if Rent(f.monthlyRent).None? then Some(RentInvalid)
    else if Deposit(f.deposit).None? then Some(DepositInvalid)
    else if DueDay(f.rentDueDay).None? then Some(DueDayInvalid)
    else None
  }

  /** The columns written for a form whose fields all passed. */
  function FieldsOf(f: TenancyForm): (r: TenancyFields)
    requires f.startDate.Some? && CheckNumbers(f).None?
    ensures r.monthlyRent > 0 && r.depositRequired >= 0
    ensures r.rentDueDay.None? || 1 <= r.rentDueDay.value <= 28
    ensures r.tenantId == f.tenantId && r.unitId == f.unitId && r.startDate == f.startDate.value
    ensures r.endDate == f.endDate && r.status == f.status
  {
    TenancyFields(f.tenantId, f.unitId, f.startDate.value, f.endDate, Rent(f.monthlyRent).value,
                  Deposit(f.deposit).value, DueDay(f.rentDueDay).value, f.status)
  }

  /**
   * `handleFormSubmit` and the two mutations: the four required fields in
   * order, then, for a new tenancy, a loaded landlord, then the numbers.
   * An edit with an id updates that row; anything else inserts.
   */
  function Submit(landlord: Option<Id>, editMode: bool, f: TenancyForm): (r: SubmitResult)
    ensures f.propertyId == "" ==> r == Refused(PropertyRequired)
    ensures f.propertyId != "" && f.unitId == "" ==> r == Refused(UnitRequired)
    ensures f.propertyId != "" && f.unitId != "" && f.tenantId == "" ==> r == Refused(TenantRequired)
    ensures f.propertyId != "" && f.unitId != "" && f.tenantId != "" && f.startDate.None? ==> r == Refused(StartDateRequired)
    ensures r.Write? ==> f.propertyId != "" && f.unitId != "" && f.tenantId != "" && f.startDate.Some? && CheckNumbers(f).None?
    ensures r.Write? ==> r.write.fields == FieldsOf(f)
    ensures r.Write? && r.write.Update? <==> r.Write? && editMode && f.id.Some?
    ensures r.Write? && r.write.Update? ==> r.write.id == f.id.value
    ensures r == Refused(LandlordNotLoaded) <==>
      f.propertyId != "" && f.unitId != "" && f.tenantId != "" && f.startDate.Some? && !(editMode && f.id.Some?) && landlord.None?
  {
    if f.propertyId == "" then Refused(PropertyRequired)
    else if f.unitId == "" then Refused(UnitRequired)
    else if f.tenantId == "" then Refused(TenantRequired)
    else if f.startDate.None? then Refused(StartDateRequired)
    else if editMode && f.id.Some? then
      match CheckNumbers(f)
      case Some(e) => Refused(e)
      case None => Write(Update(f.id.value, FieldsOf(f)))
    else if landlord.None? then Refused(LandlordNotLoaded)
    else
      match CheckNumbers(f)
      case Some(e) => Refused(e)
      case None => Write(Insert(landlord.value, FieldsOf(f)))
  }

  /** Create and update refuse the same forms for the same reasons, once the landlord is loaded. */
  lemma CreateAndUpdateCheckAlike(landlord: Id, f: TenancyForm, id: Id)
    ensures var c := Submit(Some(landlord), false, f);
      var u := Submit(Some(landlord), true, f.(id := Some(id)));
      && (c.Refused? <==> u.Refused?)
      && (c.Refused? ==> c.error == u.error)
      && (c.Write? ==> c.write == Insert(landlord, FieldsOf(f)) && u.write == Update(id, FieldsOf(f)))
  {
    assert CheckNumbers(f.(id := Some(id))) == CheckNumbers(f);
    if f.startDate.Some? && CheckNumbers(f).None? {
      assert FieldsOf(f.(id := Some(id))) == FieldsOf(f);
    }
  }

  /** Changing the property always makes the landlord pick a unit again. */
  lemma ChangePropertyNeedsUnit(landlord: Option<Id>, editMode: bool, f: TenancyForm, propertyId: Id)
    ensures Submit(landlord, editMode, ChangeProperty(f, propertyId)) ==
      Refused(if propertyId == "" then PropertyRequired else UnitRequired)
  {
  }

  /**
   * Opening a tenancy for editing and saving it unchanged writes its own
   * fields back, when its unit is among the loaded ones, its rent is
   * positive, its deposit is set and not negative, and its due day is
   * unset or 1 to 28.
   */
  lemma EditUnchangedWritesSameTenancy(t: Tenancy, units: seq<Unit>, landlord: Option<Id>)
    requires UnitById(units, t.unitId).Some? && UnitById(units, t.unitId).value.propertyId != ""
    requires t.unitId != "" && t.tenantId != ""
    requires t.monthlyRent > 0
    requires t.depositRequired.Some? && t.depositRequired.value >= 0
    requires t.rentDueDay.None? || 1 <= t.rentDueDay.value <= 28
    ensures var r := Submit(landlord, true, EditForm(t, units));
      r == Write(Update(t.id, TenancyFields(t.tenantId, t.unitId, t.startDate, t.endDate, t.monthlyRent,
                                            t.depositRequired.value, t.rentDueDay, t.status)))
  {
  }

  /** A tenancy without a deposit comes back with a deposit of 0 once its form is saved. */
  lemma MissingDepositSavedAsZero(t: Tenancy, units: seq<Unit>, landlord: Option<Id>)
    requires t.depositRequired.None?
    requires Submit(landlord, true, EditForm(t, units)).Write?
    ensures Submit(landlord, true, EditForm(t, units)).write.fields.depositRequired == 0
  {
  }

  // ---- Paid this month ----

  /** A payment's tenancy as a key: none when `tenancy_id` is null or empty. */
  function PaymentTenancy(p: Payment): Option<Id>
  {
    if p.tenancyId.Some? && p.tenancyId.value != "" then p.tenancyId else None
  }

  function PaymentAmount(p: Payment): int { p.amount }

  /** The current-month payments query: paid within `[monthStart, monthEnd]`. */
  function MonthPayments(payments: seq<Payment>, monthStart: int, monthEnd: int): (r: seq<Payment>)
    ensures forall p :: p in r <==> p in payments && monthStart <= p.paidAt <= monthEnd
  {
    Filter(payments, (p: Payment) => monthStart <= p.paidAt <= monthEnd)
  }

  /**
   * `paidThisMonthByTenancyId`: per tenancy, the amounts of this month's
   * payments linked to it; payments without a tenancy count nowhere.
   */
  method PaidThisMonthByTenancy(payments: seq<Payment>, monthStart: int, monthEnd: int) returns (m: map<Id, int>)
    ensures forall k :: Get(m, k) == KeyedSum(MonthPayments(payments, monthStart, monthEnd), PaymentTenancy, PaymentAmount, k)
    ensures forall k :: k in m <==> PaidInMonth(payments, monthStart, monthEnd, k)
  {
    var rows := MonthPayments(payments, monthStart, monthEnd);
    m := SumByKey(rows, PaymentTenancy, PaymentAmount);
    forall k ensures HasKey(rows, PaymentTenancy, k) <==> PaidInMonth(payments, monthStart, monthEnd, k) {
      MonthKeyIff(payments, monthStart, monthEnd, k);
    }
  }

  /** Some payment of the month is linked to tenancy `k`. */
  predicate PaidInMonth(payments: seq<Payment>, monthStart: int, monthEnd: int, k: Id)
  {
    exists i :: 0 <= i < |payments| && monthStart <= payments[i].paidAt <= monthEnd && payments[i].tenancyId == Some(k) && k != ""
  }

  /** A tenancy is a key of the month's payments exactly when one of them is linked to it. */
  lemma MonthKeyIff(payments: seq<Payment>, monthStart: int, monthEnd: int, k: Id)
    ensures HasKey(MonthPayments(payments, monthStart, monthEnd), PaymentTenancy, k) <==> PaidInMonth(payments, monthStart, monthEnd, k)
  {
    var rows := MonthPayments(payments, monthStart, monthEnd);
    if HasKey(rows, PaymentTenancy, k) {
      var j :| 0 <= j < |rows| && PaymentTenancy(rows[j]) == Some(k);
      assert rows[j] in payments;
      var i :| 0 <= i < |payments| && payments[i] == rows[j];
    }
    if PaidInMonth(payments, monthStart, monthEnd, k) {
      var i :| 0 <= i < |payments| && monthStart <= payments[i].paidAt <= monthEnd && payments[i].tenancyId == Some(k) && k != "";
      assert payments[i] in rows;
      var j :| 0 <= j < |rows| && rows[j] == payments[i];
      assert PaymentTenancy(rows[j]) == Some(k);
    }
  }

  /** With amounts of at least zero, no tenancy is credited more than the month's takings. */
  lemma PaidThisMonthAtMostTakings(payments: seq<Payment>, monthStart: int, monthEnd: int, k: Id)
    requires forall i :: 0 <= i < |payments| ==> payments[i].amount >= 0
    ensures KeyedSum(MonthPayments(payments, monthStart, monthEnd), PaymentTenancy, PaymentAmount, k)
      <= Sum(MonthPayments(payments, monthStart, monthEnd), PaymentAmount)
  {
    var rows := MonthPayments(payments, monthStart, monthEnd);
    forall i | 0 <= i < |rows| ensures PaymentAmount(rows[i]) >= 0 {
      assert rows[i] in payments;
    }
    KeyedSumAtMostSum(rows, PaymentTenancy, PaymentAmount, k);
  }

  // ---- Outstanding per tenancy ----

  /** One tenancy's row of `financialsByTenancyId`; the months are periods, before formatting. */
  datatype Financials = Financials(totalOutstanding: int, thisMonthOutstanding: int, unpaidMonths: seq<int>)

  /** A charge's tenancy as a key: none when `tenancy_id` is empty. */
  function ChargeTenancy(c: RentCharge): Option<Id>
  {
    if c.tenancyId != "" then Some(c.tenancyId) else None
  }

  predicate DueThisMonth(c: RentCharge, monthStart: int, monthEnd: int)
  {
    monthStart <= c.dueDate <= monthEnd
  }

  /** Tenancy `k`'s entry after the loop has gone through `rows`. */
  function FinancialsOf(rows: seq<RentCharge>, k: Id, monthStart: int, monthEnd: int): Financials
  {
    if |rows| == 0 then Financials(0, 0, [])
    else
      var f := FinancialsOf(rows[..|rows| - 1], k, monthStart, monthEnd);
      var c := rows[|rows| - 1];
      if ChargeTenancy(c) == Some(k) && c.balance > 0 then Accrue(f, c, monthStart, monthEnd)
      else f
  }

  /** An outstanding charge added into its tenancy's entry. */
  function Accrue(f: Financials, c: RentCharge, monthStart: int, monthEnd: int): Financials
  {
    Financials(f.totalOutstanding + c.balance,
               f.thisMonthOutstanding + (if DueThisMonth(c, monthStart, monthEnd) then c.balance else 0),
               f.unpaidMonths + [c.period])
  }

  /** The map holds an entry exactly for the tenancies seen in `done`, each its `FinancialsOf`. */
  ghost predicate FinancialsSoFar(done: seq<RentCharge>, m: map<Id, Financials>, monthStart: int, monthEnd: int)
  {
    && (forall k :: k in m <==> HasKey(done, ChargeTenancy, k))
    && (forall k :: k in m ==> m[k] == FinancialsOf(done, k, monthStart, monthEnd))
  }

  /**
   * One charge more: an entry is made for its tenancy if there is none,
   * and its balance, if any, is added into that entry.
   */
  lemma FinancialsStep(done: seq<RentCharge>, c: RentCharge, m: map<Id, Financials>, m': map<Id, Financials>,
                       monthStart: int, monthEnd: int)
    requires FinancialsSoFar(done, m, monthStart, monthEnd)
    requires c.tenancyId == "" ==> m' == m
    requires c.tenancyId != "" ==>
      var base := if c.tenancyId in m then m[c.tenancyId] else Financials(0, 0, []);
      m' == m[c.tenancyId := if c.balance > 0 then Accrue(base, c, monthStart, monthEnd) else base]
    ensures FinancialsSoFar(done + [c], m', monthStart, monthEnd)
  {
    assert (done + [c])[..|done|] == done;
    forall k ensures k in m' <==> HasKey(done + [c], ChargeTenancy, k) {
      HasKeySnoc(done, c, ChargeTenancy, k);
    }
    if c.tenancyId != "" && c.tenancyId !in m {
      FinancialsAbsent(done, c.tenancyId, monthStart, monthEnd);
    }
  }

  /** The loop over the charges, which creates an entry per tenancy seen and adds the outstanding ones into it. */
  method FinancialsByTenancy(charges: seq<RentCharge>, monthStart: int, monthEnd: int) returns (m: map<Id, Financials>)
    ensures forall k :: k in m <==> HasKey(charges, ChargeTenancy, k)
    ensures forall k :: k in m ==> m[k] == FinancialsOf(charges, k, monthStart, monthEnd)
  {
    m := map[];
    var i := 0;
    while i < |charges|
      invariant 0 <= i <= |charges|
      invariant FinancialsSoFar(charges[..i], m, monthStart, monthEnd)
    {
      var c := charges[i];
      ghost var before := m;
      if c.tenancyId != "" {
        var k := c.tenancyId;
        ghost var base := if k in m then m[k] else Financials(0, 0, []);
        if k !in m {
          m := m[k := Financials(0, 0, [])];
        }
        assert m == before[k := base];
        if c.balance > 0 {
          var f := m[k];
          f := f.(totalOutstanding := f.totalOutstanding + c.balance);
          f := f.(unpaidMonths := f.unpaidMonths + [c.period]);
          if c.dueDate >= monthStart && c.dueDate <= monthEnd {
            f := f.(thisMonthOutstanding := f.thisMonthOutstanding + c.balance);
          }
          assert f == Accrue(base, c, monthStart, monthEnd);
          m := m[k := f];
        }
      }
      assert charges[..i + 1] == charges[..i] + [c];
      FinancialsStep(charges[..i], c, before, m, monthStart, monthEnd);
      i := i + 1;
    }
    assert charges[..|charges|] == charges;
  }

  /** A tenancy none of whose charges has been seen has the empty entry. */
  lemma {:induction false} FinancialsAbsent(rows: seq<RentCharge>, k: Id, monthStart: int, monthEnd: int)
    requires !HasKey(rows, ChargeTenancy, k)
    ensures FinancialsOf(rows, k, monthStart, monthEnd) == Financials(0, 0, [])
  {
    if |rows| > 0 {
      FinancialsAbsent(rows[..|rows| - 1], k, monthStart, monthEnd);
    }
  }

  /** Tenancy `k`'s charges that still have a balance. */
  function Outstanding(rows: seq<RentCharge>, k: Id): seq<RentCharge>
  {
    Filter(rows, OutstandingFor(k))
  }

  function OutstandingFor(k: Id): RentCharge -> bool
  {
    (c: RentCharge) => ChargeTenancy(c) == Some(k) && c.balance > 0
  }

  /** One more charge adds itself to the tenancy's outstanding list when it belongs there. */
  lemma OutstandingSnoc(rows: seq<RentCharge>, c: RentCharge, k: Id)
    ensures Outstanding(rows + [c], k) == Outstanding(rows, k) + (if OutstandingFor(k)(c) then [c] else [])
  {
    FilterAppend(rows, [c], OutstandingFor(k));
  }

  function ChargeBalance(c: RentCharge): int { c.balance }

  function ChargePeriod(c: RentCharge): int { c.period }

  /** What an entry's total means: the sum of the tenancy's positive balances. */
  lemma {:induction false} FinancialsTotal(rows: seq<RentCharge>, k: Id, monthStart: int, monthEnd: int)
    ensures FinancialsOf(rows, k, monthStart, monthEnd).totalOutstanding == Sum(Outstanding(rows, k), ChargeBalance)
  {
    if |rows| > 0 {
      var init := rows[..|rows| - 1];
      var c := rows[|rows| - 1];
      assert rows == init + [c];
      FinancialsTotal(init, k, monthStart, monthEnd);
      OutstandingSnoc(init, c, k);
      SumAppend(Outstanding(init, k), if OutstandingFor(k)(c) then [c] else [], ChargeBalance);
    }
  }

  /** An entry's unpaid months: one per charge of the tenancy with a balance, in the same order. */
  lemma {:induction false} FinancialsMonths(rows: seq<RentCharge>, k: Id, monthStart: int, monthEnd: int)
    ensures var f := FinancialsOf(rows, k, monthStart, monthEnd);
      var out := Outstanding(rows, k);
      && |f.unpaidMonths| == |out|
      && (forall j :: 0 <= j < |out| ==> f.unpaidMonths[j] == out[j].period)
  {
    if |rows| > 0 {
      var init := rows[..|rows| - 1];
      var c := rows[|rows| - 1];
      assert rows == init + [c];
      FinancialsMonths(init, k, monthStart, monthEnd);
      OutstandingSnoc(init, c, k);
    }
  }

  /** This month's outstanding part of an entry lies between zero and its total. */
  lemma {:induction false} ThisMonthAtMostTotal(rows: seq<RentCharge>, k: Id, monthStart: int, monthEnd: int)
    ensures var f := FinancialsOf(rows, k, monthStart, monthEnd);
      0 <= f.thisMonthOutstanding <= f.totalOutstanding
  {
    if |rows| > 0 {
      ThisMonthAtMostTotal(rows[..|rows| - 1], k, monthStart, monthEnd);
    }
  }

  /** The unpaid-months cell: none, up to three listed, or a count. */
  function UnpaidMonthsLabel(months: seq<string>): (s: string)
    ensures |months| == 0 ==> s == "all paid"
    ensures 1 <= |months| <= 3 ==> s == Join(months, ", ") + " unpaid"
    ensures |months| > 3 ==> s == IntToString(|months|) + " months unpaid"
  {
    if |months| == 0 then "all paid"
    else if |months| <= 3 then Join(months, ", ") + " unpaid"
    else IntToString(|months|) + " months unpaid"
  }

  /** A long list is shown as its length, which reads back from the label. */
  lemma UnpaidLabelCount(months: seq<string>)
    requires |months| > 3
    ensures var s := UnpaidMonthsLabel(months);
      var n := IntToString(|months|);
      ParseInt(s[..|n|]) == Some(|months|) && s[|n|..] == " months unpaid"
  {
    ParseIntOfIntToString(|months|);
    var n := IntToString(|months|);
    assert (n + " months unpaid")[..|n|] == n;
  }
}
