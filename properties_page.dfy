/**
 * The properties page: per property, the unit counts by status and the
 * occupancy they give, the money collected this month and the balances
 * due this month (each reached through tenancy, then unit, then
 * property), and the property form.
 */
module PropertiesPage {

  import opened Seqs
  import opened Types
  import opened Text
  import opened Aggregate

  // ---- Unit counts ----

  datatype UnitSummary = UnitSummary(total: nat, vacant: nat, occupied: nat, reserved: nat)

  /** The unit-summary query: the landlord's units that are not deleted. */
  function LiveUnits(units: seq<Unit>): (r: seq<Unit>)
    ensures forall u :: u in r <==> u in units && !u.isDeleted
  {
    Filter(units, (u: Unit) => !u.isDeleted)
  }

  function Bump(n: nat, yes: bool): nat { if yes then n + 1 else n }

  /** Property `k`'s summary after the loop has gone through `rows`. */
  function SummaryOf(rows: seq<Unit>, k: Id): UnitSummary
  {
    if |rows| == 0 then UnitSummary(0, 0, 0, 0)
    else
      var s := SummaryOf(rows[..|rows| - 1], k);
      var u := rows[|rows| - 1];
      if u.propertyId == k then
        UnitSummary(s.total + 1, Bump(s.vacant, u.status == Vacant), Bump(s.occupied, u.status == Occupied),
                    Bump(s.reserved, u.status == Reserved))
      else s
  }

  function PropertyKey(u: Unit): Option<Id> { Some(u.propertyId) }

  /** The loop building `summaries`: an entry per property seen, counting one unit at a time. */
  method UnitSummaries(rows: seq<Unit>) returns (m: map<Id, UnitSummary>)
    ensures forall k :: k in m <==> exists i :: 0 <= i < |rows| && rows[i].propertyId == k
    ensures forall k :: k in m ==> m[k] == SummaryOf(rows, k)
  {
    m := map[];
    for i := 0 to |rows|
      invariant forall k :: k in m <==> exists j :: 0 <= j < i && rows[j].propertyId == k
      invariant forall k :: k in m ==> m[k] == SummaryOf(rows[..i], k)
    {
      var u := rows[i];
      assert rows[..i + 1][..i] == rows[..i];
      assert rows[..i + 1][i] == u;
      var k := u.propertyId;
      if k !in m {
        m := m[k := UnitSummary(0, 0, 0, 0)];
        SummaryAbsent(rows[..i], k);
      }
      var s := m[k];
      s := s.(total := s.total + 1);
      if u.status == Vacant {
        s := s.(vacant := s.vacant + 1);
      } else if u.status == Occupied {
        s := s.(occupied := s.occupied + 1);
      } else if u.status == Reserved {
        s := s.(reserved := s.reserved + 1);
      }
      m := m[k := s];
    }
    assert rows[..|rows|] == rows;
  }

  /** A property none of whose units has been seen has the empty summary. */
  lemma {:induction false} SummaryAbsent(rows: seq<Unit>, k: Id)
    requires forall j :: 0 <= j < |rows| ==> rows[j].propertyId != k
    ensures SummaryOf(rows, k) == UnitSummary(0, 0, 0, 0)
  {
    if |rows| > 0 {
      SummaryAbsent(rows[..|rows| - 1], k);
    }
  }

  /**
   * What a summary counts: `total` is the number of the property's units,
   * each status count the number of them with that status, and the three
   * statuses share the total out.
   */
  lemma {:induction false} SummaryCounts(rows: seq<Unit>, k: Id)
    ensures var s := SummaryOf(rows, k);
      && s.total == Count(rows, (u: Unit) => u.propertyId == k)
      && s.vacant == Count(rows, (u: Unit) => u.propertyId == k && u.status == Vacant)
      && s.occupied == Count(rows, (u: Unit) => u.propertyId == k && u.status == Occupied)
      && s.reserved == Count(rows, (u: Unit) => u.propertyId == k && u.status == Reserved)
      && s.vacant + s.occupied + s.reserved == s.total
  {
    if |rows| > 0 {
      var init := rows[..|rows| - 1];
      var u := rows[|rows| - 1];
      assert rows == init + [u];
      SummaryCounts(init, k);
      CountSnoc(init, u, (u: Unit) => u.propertyId == k);
      CountSnoc(init, u, (u: Unit) => u.propertyId == k && u.status == Vacant);
      CountSnoc(init, u, (u: Unit) => u.propertyId == k && u.status == Occupied);
      CountSnoc(init, u, (u: Unit) => u.propertyId == k && u.status == Reserved);
    }
  }

  /** The table's "occupied" figure: every unit that is not vacant, reserved ones included. */
  function ShownOccupied(s: UnitSummary): int
  {
    s.total - s.vacant
  }

  lemma ReservedCountAsOccupied(rows: seq<Unit>, k: Id)
    ensures ShownOccupied(SummaryOf(rows, k)) == SummaryOf(rows, k).occupied + SummaryOf(rows, k).reserved
  {
    SummaryCounts(rows, k);
  }

  /** Euclidean division brackets its dividend between two multiples of the divisor. */
  lemma DivBrackets(n: int, d: int)
    requires d > 0
    ensures d * (n / d) <= n < d * (n / d) + d
  {
  }

  /** Dividing a number that lies between `d * q` and `d * (q + 1)` gives `q`. */
  lemma DivUnique(n: int, d: int, q: int)
    requires d > 0 && d * q <= n < d * q + d
    ensures n / d == q
  {
    DivBrackets(n, d);
    var r := n / d;
    if r < q {
      MulMonotone(d, r + 1, q);
    } else if r > q {
      MulMonotone(d, q + 1, r);
    }
  }

  lemma MulMonotone(a: int, b: int, c: int)
    requires a >= 0 && b <= c
    ensures a * b <= a * c
  {
    assert a * c - a * b == a * (c - b);
  }

  /**
   * The occupancy percentage, `occupied / total * 100` rounded half up,
   * computed exactly on integers; 0 for a property without units.
   */
  function OccupancyPercent(total: int, occupied: int): (r: int)
    requires 0 <= occupied <= total
    ensures total == 0 ==> r == 0
    ensures 0 <= r <= 100
    ensures total > 0 ==> 2 * total * r <= 200 * occupied + total < 2 * total * r + 2 * total
  {
    if total > 0 then
      var n := 200 * occupied + total;
      var d := 2 * total;
      DivBrackets(n, d);
      var q := n / d;
      assert q <= 100 by {
        if q > 100 {
          MulMonotone(d, 101, q);
        }
      }
      assert q >= 0 by {
        if q < 0 {
          MulMonotone(d, q, -1);
        }
      }
      q
    else 0
  }

  /** A property whose units are all occupied shows 100, one with none occupied 0. */
  lemma OccupancyEnds(total: int)
    requires total > 0
    ensures OccupancyPercent(total, total) == 100 && OccupancyPercent(total, 0) == 0
  {
    DivUnique(200 * total + total, 2 * total, 100);
    DivUnique(total, 2 * total, 0);
  }

  // ---- Money per property ----

  /**
   * `tenancyToUnitMap` then `unitToPropertyMap`: the property of a
   * tenancy, or none when a link is missing or empty.
   */
  function PropertyOfTenancy(tenancies: seq<Tenancy>, units: seq<Unit>, tenancyId: Id): (r: Option<Id>)
    ensures r.Some? ==>
      && TenancyById(tenancies, tenancyId).Some? && TenancyById(tenancies, tenancyId).value.unitId != ""
      && UnitById(units, TenancyById(tenancies, tenancyId).value.unitId).Some?
      && r.value == UnitById(units, TenancyById(tenancies, tenancyId).value.unitId).value.propertyId
      && r.value != ""
  {
    match TenancyById(tenancies, tenancyId)
    case None => None
    case Some(t) =>
      if t.unitId == "" then None
      else match UnitById(units, t.unitId)
        case None => None
        case Some(u) => if u.propertyId == "" then None else Some(u.propertyId)
  }

  function PaymentProperty(tenancies: seq<Tenancy>, units: seq<Unit>): Payment -> Option<Id>
  {
    (p: Payment) => if p.tenancyId.Some? && p.tenancyId.value != "" then PropertyOfTenancy(tenancies, units, p.tenancyId.value) else None
  }

  function ChargeProperty(tenancies: seq<Tenancy>, units: seq<Unit>): RentCharge -> Option<Id>
  {
    (c: RentCharge) => PropertyOfTenancy(tenancies, units, c.tenancyId)
  }

  function PaymentAmount(p: Payment): int { p.amount }

  function ChargeBalance(c: RentCharge): int { c.balance }

  /**
   * `collectedByProperty` over the month's payments: per property, the
   * amounts of the payments whose whole chain of links resolves to it.
   */
  method CollectedByProperty(monthPayments: seq<Payment>, tenancies: seq<Tenancy>, units: seq<Unit>) returns (m: map<Id, int>)
    ensures forall k :: Get(m, k) == Sum(Group(monthPayments, PaymentProperty(tenancies, units), k), PaymentAmount)
  {
    m := SumByKey(monthPayments, PaymentProperty(tenancies, units), PaymentAmount);
    forall k ensures Get(m, k) == Sum(Group(monthPayments, PaymentProperty(tenancies, units), k), PaymentAmount) {
      KeyedSumIsGroupSum(monthPayments, PaymentProperty(tenancies, units), PaymentAmount, k);
    }
  }

  /** `outstandingByProperty` over the month's charges: per property, the balances reached the same way. */
  method OutstandingByProperty(monthCharges: seq<RentCharge>, tenancies: seq<Tenancy>, units: seq<Unit>) returns (m: map<Id, int>)
    ensures forall k :: Get(m, k) == Sum(Group(monthCharges, ChargeProperty(tenancies, units), k), ChargeBalance)
  {
    m := SumByKey(monthCharges, ChargeProperty(tenancies, units), ChargeBalance);
    forall k ensures Get(m, k) == Sum(Group(monthCharges, ChargeProperty(tenancies, units), k), ChargeBalance) {
      KeyedSumIsGroupSum(monthCharges, ChargeProperty(tenancies, units), ChargeBalance, k);
    }
  }

  /** A payment with no tenancy, or whose tenancy or unit is unknown, is counted for no property. */
  lemma BrokenLinkCountsNowhere(monthPayments: seq<Payment>, tenancies: seq<Tenancy>, units: seq<Unit>, i: int, k: Id)
    requires 0 <= i < |monthPayments|
    requires var p := monthPayments[i];
      p.tenancyId.None? || TenancyById(tenancies, p.tenancyId.value).None?
      || UnitById(units, TenancyById(tenancies, p.tenancyId.value).value.unitId).None?
    ensures monthPayments[i] !in Group(monthPayments, PaymentProperty(tenancies, units), k)
  {
  }

  // ---- The form ----

  datatype PropertyForm = PropertyForm(id: Option<Id>, propertyName: string, location: string, notes: string)

  datatype PropertyFields = PropertyFields(propertyName: string, location: Option<string>, notes: Option<string>)

  /** `openEditForm`: the property's fields, a missing location or notes as "". */
  function EditForm(p: Property): (f: PropertyForm)
    ensures f.id == Some(p.id) && f.propertyName == p.name
    ensures f.location == (if p.location.Some? then p.location.value else "")
    ensures f.notes == (if p.notes.Some? then p.notes.value else "")
  {
    PropertyForm(Some(p.id), p.name, if p.location.Some? then p.location.value else "",
                 if p.notes.Some? then p.notes.value else "")
  }

  /** `handleFormSubmit`: an empty trimmed name is refused with "Property name is required"; otherwise the trimmed fields. */
  function SaveProperty(f: PropertyForm): (r: Option<PropertyFields>)
    ensures r.None? <==> Trim(f.propertyName) == ""
    ensures r.Some? ==> r.value == PropertyFields(Trim(f.propertyName), NullIfEmpty(Trim(f.location)), NullIfEmpty(Trim(f.notes)))
  {
    if Trim(f.propertyName) == "" then None
    else Some(PropertyFields(Trim(f.propertyName), NullIfEmpty(Trim(f.location)), NullIfEmpty(Trim(f.notes))))
  }

  /** A saved property has a non-empty trimmed name and no empty location or notes. */
  lemma SavedFieldsNormal(f: PropertyForm)
    requires SaveProperty(f).Some?
    ensures var r := SaveProperty(f).value;
      && r.propertyName != "" && Trim(r.propertyName) == r.propertyName
      && (r.location.None? || (r.location.value != "" && Trim(r.location.value) == r.location.value))
      && (r.notes.None? || (r.notes.value != "" && Trim(r.notes.value) == r.notes.value))
  {
    TrimIdempotent(f.propertyName);
    TrimIdempotent(f.location);
    TrimIdempotent(f.notes);
  }

  /** Saving an edit form unchanged writes back the same fields, for a property already stored in that shape. */
  lemma EditUnchangedKeepsProperty(p: Property)
    requires p.name != "" && Trim(p.name) == p.name
    requires p.location.None? || (p.location.value != "" && Trim(p.location.value) == p.location.value)
    requires p.notes.None? || (p.notes.value != "" && Trim(p.notes.value) == p.notes.value)
    ensures SaveProperty(EditForm(p)) == Some(PropertyFields(p.name, p.location, p.notes))
  {
    TrimEmptyIff("");
  }

  /** `deleteMutation`: the property is marked deleted and nothing else changes. */
  function SoftDelete(p: Property): (r: Property)
    ensures r.isDeleted && r.(isDeleted := p.isDeleted) == p
  {
    p.(isDeleted := true)
  }
}
