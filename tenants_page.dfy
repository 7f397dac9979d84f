/**
 * The tenants page: each tenant's current tenancy, what they owe, and the
 * rent-status badge (behind, paid ahead, paid, due, no charges), plus the
 * tenant form's phone list and name check. "Today" (at midnight) and the
 * current period are inputs.
 */
module TenantsPage {

  import opened Seqs
  import opened Types
  import opened Text
  import opened Aggregate

  function TenantKey(t: Tenancy): Id { t.tenantId }

  /**
   * `activeTenancyByTenantId`: per tenant, the ACTIVE or NOTICE tenancy
   * with the latest start date, the first seen on a tie.
   */
  method ActiveTenancyByTenant(tenancies: seq<Tenancy>) returns (m: map<Id, Tenancy>)
    ensures forall k :: k in m <==> exists j :: 0 <= j < |tenancies| && IsLive(tenancies[j]) && tenancies[j].tenantId == k
    ensures forall k :: k in m ==> IsLive(m[k]) && m[k].tenantId == k && m[k] in tenancies
    ensures forall k, j :: k in m && 0 <= j < |tenancies| && IsLive(tenancies[j]) && tenancies[j].tenantId == k ==>
      tenancies[j].startDate <= m[k].startDate
    ensures forall k :: k in m ==> LatestLive(tenancies, TenantKey, k) == Some(m[k])
    ensures forall k :: k in m ==> exists i ::
      && 0 <= i < |tenancies| && tenancies[i] == m[k]
      && forall j :: 0 <= j < i && IsLive(tenancies[j]) && tenancies[j].tenantId == k ==> tenancies[j].startDate < m[k].startDate
  {
    m := LatestLiveByKey(tenancies, TenantKey);
    forall k | k in m
      ensures exists i ::
        && 0 <= i < |tenancies| && tenancies[i] == m[k]
        && forall j :: 0 <= j < i && IsLive(tenancies[j]) && tenancies[j].tenantId == k ==> tenancies[j].startDate < m[k].startDate
    {
      LatestLiveIsLatest(tenancies, TenantKey, k);
    }
  }

  /** The tenant a charge belongs to, through its tenancy; None when the tenancy is unknown. */
  function ChargeTenant(tenancies: seq<Tenancy>): RentCharge -> Option<Id>
  {
    (c: RentCharge) => if TenancyById(tenancies, c.tenancyId).Some? then Some(TenancyById(tenancies, c.tenancyId).value.tenantId) else None
  }

  function Balance(c: RentCharge): int { c.balance }

  /** The outstanding-charges query: the charges with a positive balance. */
  function OutstandingCharges(charges: seq<RentCharge>): seq<RentCharge>
  {
    Filter(charges, (c: RentCharge) => c.balance > 0)
  }

  /**
   * `totalOutstandingByTenantId`: per tenant, the balances of the
   * outstanding charges of their tenancies; a charge of an unknown tenancy
   * is skipped.
   */
  method TotalOutstandingByTenant(charges: seq<RentCharge>, tenancies: seq<Tenancy>) returns (m: map<Id, int>)
    ensures forall k :: Get(m, k) == KeyedSum(OutstandingCharges(charges), ChargeTenant(tenancies), Balance, k)
    ensures forall k :: k in m ==> m[k] > 0
  {
    var rows := OutstandingCharges(charges);
    m := SumByKey(rows, ChargeTenant(tenancies), Balance);
    forall k | k in m ensures m[k] > 0 {
      KeyedSumPositive(rows, ChargeTenant(tenancies), k);
    }
  }

  /** A tenant with an entry has a positive total: every summed balance is. */
  lemma {:induction false} KeyedSumPositive(rows: seq<RentCharge>, key: RentCharge -> Option<Id>, k: Id)
    requires forall i :: 0 <= i < |rows| ==> rows[i].balance > 0
    requires HasKey(rows, key, k)
    ensures KeyedSum(rows, key, Balance, k) > 0
  {
    var init := rows[..|rows| - 1];
    assert forall i :: 0 <= i < |init| ==> init[i] == rows[i];
    KeyedSumNonNegative(init, key, Balance, k);
    if key(rows[|rows| - 1]) != Some(k) {
      var j :| 0 <= j < |rows| && key(rows[j]) == Some(k);
      assert j < |init| && key(init[j]) == Some(k);
      KeyedSumPositive(init, key, k);
    }
  }

  // ---- Sorting a tenant's charges by period ----

  predicate SortedByPeriod(s: seq<RentCharge>)
  {
    forall i, j :: 0 <= i < j < |s| ==> s[i].period <= s[j].period
  }

  /** Place `c` after every charge whose period is not later than its own. */
  function InsertByPeriod(c: RentCharge, s: seq<RentCharge>): (r: seq<RentCharge>)
    ensures multiset(r) == multiset(s) + multiset{c}
    ensures |r| == |s| + 1
  {
    if |s| == 0 then [c]
    else if s[|s| - 1].period <= c.period then s + [c]
    else
      var init := s[..|s| - 1];
      assert s == init + [s[|s| - 1]];
      InsertByPeriod(c, init) + [s[|s| - 1]]
  }

  lemma {:induction false} InsertKeepsSorted(c: RentCharge, s: seq<RentCharge>)
    requires SortedByPeriod(s)
    ensures SortedByPeriod(InsertByPeriod(c, s))
  {
    if |s| == 0 {
      assert InsertByPeriod(c, s) == [c];
    } else if s[|s| - 1].period <= c.period {
      SortedSnoc(s, c);
    } else {
      var init := s[..|s| - 1];
      var x := s[|s| - 1];
      PrefixSorted(s);
      InsertKeepsSorted(c, init);
      var r := InsertByPeriod(c, init);
      forall i | 0 <= i < |r| ensures r[i].period <= x.period {
        assert r[i] in multiset(r);
        assert r[i] in multiset(init) || r[i] == c;
        if r[i] != c {
          var j :| 0 <= j < |init| && init[j] == r[i];
          assert s[j] == init[j];
        }
      }
      SortedSnoc(r, x);
    }
  }

  /** Dropping the last charge of a sorted list leaves it sorted, and that charge is the latest. */
  lemma PrefixSorted(s: seq<RentCharge>)
    requires SortedByPeriod(s) && |s| > 0
    ensures SortedByPeriod(s[..|s| - 1])
  {
    var init := s[..|s| - 1];
    forall i, j | 0 <= i < j < |init| ensures init[i].period <= init[j].period {
      assert init[i] == s[i] && init[j] == s[j];
    }
  }

  /** A charge no earlier than the last one goes at the end. */
  lemma InsertAtEnd(c: RentCharge, s: seq<RentCharge>)
    requires |s| == 0 || s[|s| - 1].period <= c.period
    ensures InsertByPeriod(c, s) == s + [c]
  {
  }

  /** `[...charges].sort((a, b) => a.period.localeCompare(b.period))`: a stable sort by period. */
  function SortByPeriod(s: seq<RentCharge>): (r: seq<RentCharge>)
    ensures multiset(r) == multiset(s)
    ensures |r| == |s|
    ensures SortedByPeriod(r)
  {
    if |s| == 0 then []
    else
      var init := s[..|s| - 1];
      assert s == init + [s[|s| - 1]];
      InsertKeepsSorted(s[|s| - 1], SortByPeriod(init));
      InsertByPeriod(s[|s| - 1], SortByPeriod(init))
  }

  /** Charges already in period order (as the page's query returns them) stay as they are. */
  lemma {:induction false} SortSortedIsIdentity(s: seq<RentCharge>)
    requires SortedByPeriod(s)
    ensures SortByPeriod(s) == s
  {
    if |s| > 0 {
      var init := s[..|s| - 1];
      var x := s[|s| - 1];
      PrefixSorted(s);
      SortSortedIsIdentity(init);
      if |init| > 0 {
        assert init[|init| - 1] == s[|s| - 2];
      }
      InsertAtEnd(x, init);
      assert s == init + [x];
    }
  }

  /** The subsequence of a sorted sequence that a filter keeps is sorted. */
  lemma {:induction false} FilterKeepsSorted(s: seq<RentCharge>, p: RentCharge -> bool)
    requires SortedByPeriod(s)
    ensures SortedByPeriod(Filter(s, p))
  {
    if |s| > 0 {
      var init := s[..|s| - 1];
      var x := s[|s| - 1];
      FilterKeepsSorted(init, p);
      var r := Filter(init, p);
      assert Filter(s, p) == r + (if p(x) then [x] else []);
      if p(x) {
        forall i | 0 <= i < |r| ensures r[i].period <= x.period {
          var j :| 0 <= j < |init| && init[j] == r[i];
          assert s[j] == init[j];
        }
        SortedSnoc(r, x);
      } else {
        assert Filter(s, p) == r;
      }
    }
  }

  /** A charge no earlier than every charge of a sorted list may follow them. */
  lemma SortedSnoc(r: seq<RentCharge>, x: RentCharge)
    requires SortedByPeriod(r)
    requires forall i :: 0 <= i < |r| ==> r[i].period <= x.period
    ensures SortedByPeriod(r + [x])
  {
    var t := r + [x];
    forall i, j | 0 <= i < j < |t| ensures t[i].period <= t[j].period {
      if j < |r| {
        assert t[i] == r[i] && t[j] == r[j];
      } else {
        assert t[i] == r[i] && t[j] == x;
      }
    }
  }

  // ---- The rent status of one tenant ----

  /** Marked paid with nothing left. */
  predicate FullyPaid(c: RentCharge)
  {
    c.status == Paid && c.balance == 0
  }

  /** Past its due date with something still owed. */
  predicate IsOverdue(c: RentCharge, today: int)
  {
    c.balance > 0 && c.dueDate < today
  }

  function Overdue(s: seq<RentCharge>, today: int): seq<RentCharge>
  {
    Filter(s, (c: RentCharge) => IsOverdue(c, today))
  }

  /** Fully paid charges for periods after the current one. */
  function FuturePaid(s: seq<RentCharge>, currentPeriod: int): seq<RentCharge>
  {
    Filter(s, (c: RentCharge) => c.period > currentPeriod && FullyPaid(c))
  }

  function CurrentCharge(s: seq<RentCharge>, currentPeriod: int): Option<RentCharge>
  {
    FindFirst(s, (c: RentCharge) => c.period == currentPeriod)
  }

  /** The period of the last fully paid charge, as the loop over `sorted` leaves `paidUpToPeriod`. */
  function LastPaidPeriod(s: seq<RentCharge>): (r: Option<int>)
    ensures r.None? <==> forall i :: 0 <= i < |s| ==> !FullyPaid(s[i])
    ensures r.Some? ==> exists i :: 0 <= i < |s| && FullyPaid(s[i]) && s[i].period == r.value
  {
    if |s| == 0 then None
    else if FullyPaid(s[|s| - 1]) then Some(s[|s| - 1].period)
    else
      var r := LastPaidPeriod(s[..|s| - 1]);
      assert forall i :: 0 <= i < |s| - 1 ==> s[..|s| - 1][i] == s[i];
      r
  }

  /** On charges in period order, the last fully paid one has the latest such period. */
  lemma {:induction false} LastPaidIsLatest(s: seq<RentCharge>)
    requires SortedByPeriod(s)
    ensures LastPaidPeriod(s).Some? ==> forall i :: 0 <= i < |s| && FullyPaid(s[i]) ==> s[i].period <= LastPaidPeriod(s).value
  {
    if |s| > 0 && !FullyPaid(s[|s| - 1]) {
      var init := s[..|s| - 1];
      LastPaidIsLatest(init);
      forall i | 0 <= i < |s| && FullyPaid(s[i]) ensures s[i].period <= LastPaidPeriod(s).value {
        assert init[i] == s[i];
      }
    }
  }

  /** The loop `for (const c of sorted) if (paid in full) paidUpToPeriod = c.period`. */
  method PaidUpToPeriod(sorted: seq<RentCharge>) returns (p: Option<int>)
    ensures p == LastPaidPeriod(sorted)
  {
    p := None;
    for i := 0 to |sorted|
      invariant p == LastPaidPeriod(sorted[..i])
    {
      assert sorted[..i + 1][..i] == sorted[..i];
      if sorted[i].status == Paid && sorted[i].balance == 0 {
        p := Some(sorted[i].period);
      }
    }
    assert sorted[..|sorted|] == sorted;
  }

  datatype RentStatus =
    | Behind(monthsBehind: nat, owed: int, firstUnpaidPeriod: int)
    | Ahead(monthsAhead: nat, paidUpTo: int)
    | PaidUp(paidUpTo: int, owed: int)
    | Due(balance: int, dueDate: int)
    | NoCharges

  /** The status cascade for one tenant's charges, sorted by period. */
  function TenantStatus(sorted: seq<RentCharge>, today: int, currentPeriod: int): RentStatus
  {
    var overdue := Overdue(sorted, today);
    var future := FuturePaid(sorted, currentPeriod);
    var current := CurrentCharge(sorted, currentPeriod);
    var paidUpTo := LastPaidPeriod(sorted);
    if |sorted| == 0 then NoCharges
    else if |overdue| > 0 then Behind(|overdue|, Sum(overdue, Balance), overdue[0].period)
    else if |future| > 0 then Ahead(|future|, future[|future| - 1].period)
    else if current.Some? && FullyPaid(current.value) then PaidUp(currentPeriod, 0)
    else if current.Some? && current.value.balance > 0 then
      if current.value.dueDate >= today then Due(current.value.balance, current.value.dueDate)
      else Behind(1, current.value.balance, currentPeriod)
    else if paidUpTo.Some? then PaidUp(paidUpTo.value, Sum(sorted, Balance))
    else NoCharges
  }

  /**
   * The "current month overdue" branch never runs: a current charge with a
   * balance past its due date is already one of the overdue charges.
   */
  lemma CurrentOverdueBranchDead(sorted: seq<RentCharge>, today: int, currentPeriod: int)
    requires |Overdue(sorted, today)| == 0
    requires CurrentCharge(sorted, currentPeriod).Some? && CurrentCharge(sorted, currentPeriod).value.balance > 0
    ensures CurrentCharge(sorted, currentPeriod).value.dueDate >= today
  {
    var c := CurrentCharge(sorted, currentPeriod).value;
    var i :| 0 <= i < |sorted| && sorted[i] == c;
    assert IsOverdue(c, today) ==> c in Overdue(sorted, today);
  }

  /** The overdue list of sorted charges starts at the earliest overdue period. */
  lemma OverdueFirstEarliest(sorted: seq<RentCharge>, today: int)
    requires SortedByPeriod(sorted) && |Overdue(sorted, today)| > 0
    ensures forall j :: 0 <= j < |sorted| && IsOverdue(sorted[j], today) ==> Overdue(sorted, today)[0].period <= sorted[j].period
  {
    var overdue := Overdue(sorted, today);
    FilterKeepsSorted(sorted, (c: RentCharge) => IsOverdue(c, today));
    assert SortedByPeriod(overdue);
    forall j | 0 <= j < |sorted| && IsOverdue(sorted[j], today) ensures overdue[0].period <= sorted[j].period {
      assert sorted[j] in overdue;
      var k :| 0 <= k < |overdue| && overdue[k] == sorted[j];
    }
  }

  /** The status is `Behind` exactly when the overdue list is not empty, and then it is built from that list. */
  lemma BehindOnOverdue(sorted: seq<RentCharge>, today: int, currentPeriod: int)
    ensures var st := TenantStatus(sorted, today, currentPeriod); var overdue := Overdue(sorted, today);
      && (st.Behind? <==> |overdue| > 0)
      && (st.Behind? ==> st == Behind(|overdue|, Sum(overdue, Balance), overdue[0].period))
  {
    var overdue := Overdue(sorted, today);
    var current := CurrentCharge(sorted, currentPeriod);
    if |overdue| == 0 && current.Some? && current.value.balance > 0 {
      CurrentOverdueBranchDead(sorted, today, currentPeriod);
    }
  }

  /**
   * A tenant is behind exactly when some charge is overdue; the badge then
   * counts the overdue charges, sums their balances, and names the
   * earliest of their periods.
   */
  lemma BehindIff(sorted: seq<RentCharge>, today: int, currentPeriod: int)
    requires SortedByPeriod(sorted)
    ensures var st := TenantStatus(sorted, today, currentPeriod);
      && (st.Behind? <==> exists i :: 0 <= i < |sorted| && IsOverdue(sorted[i], today))
      && (st.Behind? ==>
            && st.monthsBehind == |Overdue(sorted, today)| == Count(sorted, (c: RentCharge) => IsOverdue(c, today))
            && st.owed == Sum(Overdue(sorted, today), Balance)
            && forall i :: 0 <= i < |sorted| && IsOverdue(sorted[i], today) ==> st.firstUnpaidPeriod <= sorted[i].period)
  {
    var overdue := Overdue(sorted, today);
    BehindOnOverdue(sorted, today, currentPeriod);
    if exists i :: 0 <= i < |sorted| && IsOverdue(sorted[i], today) {
      var i :| 0 <= i < |sorted| && IsOverdue(sorted[i], today);
      assert sorted[i] in overdue;
    }
    if |overdue| > 0 {
      assert overdue[0] in sorted && IsOverdue(overdue[0], today);
      OverdueFirstEarliest(sorted, today);
    }
  }

  /** The fully paid future periods: some exist exactly when one is in the list, and the last is the latest. */
  lemma FuturePaidFacts(sorted: seq<RentCharge>, currentPeriod: int)
    requires SortedByPeriod(sorted)
    ensures var future := FuturePaid(sorted, currentPeriod);
      && (|future| > 0 <==> exists i :: 0 <= i < |sorted| && sorted[i].period > currentPeriod && FullyPaid(sorted[i]))
      && (|future| > 0 ==>
            && future[|future| - 1].period > currentPeriod
            && forall i :: 0 <= i < |sorted| && sorted[i].period > currentPeriod && FullyPaid(sorted[i]) ==>
                 sorted[i].period <= future[|future| - 1].period)
  {
    var future := FuturePaid(sorted, currentPeriod);
    if exists i :: 0 <= i < |sorted| && sorted[i].period > currentPeriod && FullyPaid(sorted[i]) {
      var i :| 0 <= i < |sorted| && sorted[i].period > currentPeriod && FullyPaid(sorted[i]);
      assert sorted[i] in future;
    }
    if |future| > 0 {
      var x := future[|future| - 1];
      assert x in sorted && x.period > currentPeriod && FullyPaid(x);
      var k :| 0 <= k < |sorted| && sorted[k] == x;
      FutureLastLatest(sorted, currentPeriod);
    }
  }

  /** The fully paid future list of sorted charges ends at the latest such period. */
  lemma FutureLastLatest(sorted: seq<RentCharge>, currentPeriod: int)
    requires SortedByPeriod(sorted) && |FuturePaid(sorted, currentPeriod)| > 0
    ensures var future := FuturePaid(sorted, currentPeriod);
      forall j :: 0 <= j < |sorted| && sorted[j].period > currentPeriod && FullyPaid(sorted[j]) ==>
        sorted[j].period <= future[|future| - 1].period
  {
    var future := FuturePaid(sorted, currentPeriod);
    FilterKeepsSorted(sorted, (c: RentCharge) => c.period > currentPeriod && FullyPaid(c));
    assert SortedByPeriod(future);
    forall j | 0 <= j < |sorted| && sorted[j].period > currentPeriod && FullyPaid(sorted[j])
      ensures sorted[j].period <= future[|future| - 1].period
    {
      assert sorted[j] in future;
      var k :| 0 <= k < |future| && future[k] == sorted[j];
    }
  }

  /** With nothing overdue the status is `Ahead` exactly when the future list is not empty, and then it is built from it. */
  lemma AheadOnFuture(sorted: seq<RentCharge>, today: int, currentPeriod: int)
    requires |Overdue(sorted, today)| == 0
    ensures var st := TenantStatus(sorted, today, currentPeriod); var future := FuturePaid(sorted, currentPeriod);
      && (st.Ahead? <==> |future| > 0)
      && (st.Ahead? ==> st == Ahead(|future|, future[|future| - 1].period))
  {
    var future := FuturePaid(sorted, currentPeriod);
    var current := CurrentCharge(sorted, currentPeriod);
    var st := TenantStatus(sorted, today, currentPeriod);
    if |sorted| == 0 {
      assert |future| == 0 && st == NoCharges;
    } else if |future| > 0 {
      assert st == Ahead(|future|, future[|future| - 1].period);
    } else if current.Some? && current.value.balance > 0 && !FullyPaid(current.value) {
      CurrentOverdueBranchDead(sorted, today, currentPeriod);
      assert st.Due?;
    }
  }

  /**
   * With nothing overdue, the tenant is ahead exactly when some future
   * period is fully paid; the badge counts those periods and names the
   * latest.
   */
  lemma AheadIff(sorted: seq<RentCharge>, today: int, currentPeriod: int)
    requires SortedByPeriod(sorted)
    requires forall i :: 0 <= i < |sorted| ==> !IsOverdue(sorted[i], today)
    ensures var st := TenantStatus(sorted, today, currentPeriod);
      && (st.Ahead? <==> exists i :: 0 <= i < |sorted| && sorted[i].period > currentPeriod && FullyPaid(sorted[i]))
      && (st.Ahead? ==>
            && st.monthsAhead == |FuturePaid(sorted, currentPeriod)|
            && st.paidUpTo > currentPeriod
            && forall i :: 0 <= i < |sorted| && sorted[i].period > currentPeriod && FullyPaid(sorted[i]) ==>
                 sorted[i].period <= st.paidUpTo)
  {
    FilterNone(sorted, (c: RentCharge) => IsOverdue(c, today));
    AheadOnFuture(sorted, today, currentPeriod);
    FuturePaidFacts(sorted, currentPeriod);
  }

  /**
   * The rest of the cascade, once nothing is overdue and no future period
   * is paid: paid up to the current period when its charge is paid in
   * full, due when it has a balance (and then its due date has not
   * passed), else paid up to the last fully paid period, else nothing.
   */
  lemma LaterBranches(sorted: seq<RentCharge>, today: int, currentPeriod: int)
    requires |sorted| > 0
    requires forall i :: 0 <= i < |sorted| ==> !IsOverdue(sorted[i], today)
    requires forall i :: 0 <= i < |sorted| ==> !(sorted[i].period > currentPeriod && FullyPaid(sorted[i]))
    ensures var st := TenantStatus(sorted, today, currentPeriod);
      var current := CurrentCharge(sorted, currentPeriod);
      && (current.Some? && FullyPaid(current.value) ==> st == PaidUp(currentPeriod, 0))
      && (current.Some? && current.value.balance > 0 ==>
            st == Due(current.value.balance, current.value.dueDate) && current.value.dueDate >= today)
      && (!(current.Some? && (FullyPaid(current.value) || current.value.balance > 0)) ==>
            if LastPaidPeriod(sorted).Some? then st == PaidUp(LastPaidPeriod(sorted).value, Sum(sorted, Balance))
            else st == NoCharges)
  {
    FilterNone(sorted, (c: RentCharge) => IsOverdue(c, today));
    FilterNone(sorted, (c: RentCharge) => c.period > currentPeriod && FullyPaid(c));
    var current := CurrentCharge(sorted, currentPeriod);
    if current.Some? && current.value.balance > 0 {
      CurrentOverdueBranchDead(sorted, today, currentPeriod);
    }
  }

  /** A tenant whose charges are not yet loaded or who has none shows "no charges". */
  lemma NoChargesWhenNothingPaidOrOwed(sorted: seq<RentCharge>, today: int, currentPeriod: int)
    ensures TenantStatus(sorted, today, currentPeriod) == NoCharges <==>
      |sorted| == 0 ||
      (&& |Overdue(sorted, today)| == 0 && |FuturePaid(sorted, currentPeriod)| == 0
       && !(CurrentCharge(sorted, currentPeriod).Some?
            && (FullyPaid(CurrentCharge(sorted, currentPeriod).value) || CurrentCharge(sorted, currentPeriod).value.balance > 0))
       && LastPaidPeriod(sorted).None?)
  {
  }

  /** One tenant's badge, computed as the page does: sort, run the paid-up loop, then the cascade. */
  method ComputeTenantStatus(charges: seq<RentCharge>, today: int, currentPeriod: int) returns (st: RentStatus)
    ensures st == TenantStatus(SortByPeriod(charges), today, currentPeriod)
  {
    var sorted := SortByPeriod(charges);
    var paidUpTo := PaidUpToPeriod(sorted);
    var overdue := Overdue(sorted, today);
    var future := FuturePaid(sorted, currentPeriod);
    var current := CurrentCharge(sorted, currentPeriod);
    if |sorted| == 0 {
      st := NoCharges;
    } else if |overdue| > 0 {
      st := Behind(|overdue|, Sum(overdue, Balance), overdue[0].period);
    } else if |future| > 0 {
      st := Ahead(|future|, future[|future| - 1].period);
    } else if current.Some? && current.value.status == Paid && current.value.balance == 0 {
      st := PaidUp(currentPeriod, 0);
    } else if current.Some? && current.value.balance > 0 {
      if current.value.dueDate >= today {
        st := Due(current.value.balance, current.value.dueDate);
      } else {
        st := Behind(1, current.value.balance, currentPeriod);
      }
    } else if paidUpTo.Some? {
      st := PaidUp(paidUpTo.value, Sum(sorted, Balance));
    } else {
      st := NoCharges;
    }
  }

  /**
   * `rentStatusByTenantId`: the charges are grouped by tenant (a charge of
   * an unknown tenancy is skipped) and each group gets its badge; a tenant
   * without charges has no entry.
   */
  method RentStatusByTenant(charges: seq<RentCharge>, tenancies: seq<Tenancy>, today: int, currentPeriod: int)
    returns (m: map<Id, RentStatus>)
    ensures forall k :: k in m <==> HasKey(charges, ChargeTenant(tenancies), k)
    ensures forall k :: k in m ==> m[k] == TenantStatus(SortByPeriod(Group(charges, ChargeTenant(tenancies), k)), today, currentPeriod)
  {
    var groups := GroupByKey(charges, ChargeTenant(tenancies));
    m := map k | k in groups :: TenantStatus(SortByPeriod(groups[k]), today, currentPeriod);
  }

  // ---- The tenant form ----

  datatype TenantForm = TenantForm(
    id: Option<Id>,
    fullName: string,
    idNumber: string,
    phoneNumber: string,
    secondaryPhoneNumber: string,
    notes: string)

  /**
   * The `phone_numbers` list: the primary then the secondary number, each
   * present when its field is not empty, stored trimmed and labelled.
   */
  function PhoneList(primary: string, secondary: string): (r: seq<PhoneNumber>)
    ensures |r| == (if primary != "" then 1 else 0) + (if secondary != "" then 1 else 0)
    ensures |r| <= 2
    ensures primary != "" ==> r[0] == PhoneNumber(Trim(primary), Some("Primary"))
    ensures secondary != "" ==> r[|r| - 1] == PhoneNumber(Trim(secondary), Some("Secondary"))
  {
    (if primary != "" then [PhoneNumber(Trim(primary), Some("Primary"))] else [])
    + (if secondary != "" then [PhoneNumber(Trim(secondary), Some("Secondary"))] else [])
  }

  /** `openEditForm`: the tenant's fields, with the first two phone numbers. */
  function EditForm(t: Tenant): (f: TenantForm)
    ensures f.phoneNumber == (if |t.phoneNumbers| > 0 then t.phoneNumbers[0].number else "")
    ensures f.secondaryPhoneNumber == (if |t.phoneNumbers| > 1 then t.phoneNumbers[1].number else "")
    ensures f.id == Some(t.id) && f.fullName == t.fullName
  {
    TenantForm(Some(t.id), t.fullName,
               if t.idNumber.Some? then t.idNumber.value else "",
               if |t.phoneNumbers| > 0 then t.phoneNumbers[0].number else "",
               if |t.phoneNumbers| > 1 then t.phoneNumbers[1].number else "",
               if t.notes.Some? then t.notes.value else "")
  }

  /** Reopening and saving a tenant with two trimmed numbers keeps the same list. */
  lemma PhoneListRoundTrip(t: Tenant, a: string, b: string)
    requires a != "" && b != "" && Trim(a) == a && Trim(b) == b
    requires t.phoneNumbers == PhoneList(a, b)
    ensures var f := EditForm(t); PhoneList(f.phoneNumber, f.secondaryPhoneNumber) == t.phoneNumbers
  {
  }

  /**
   * A tenant saved with only a secondary number gets it back as the
   * primary one when the form is reopened and saved: the list is read by
   * position, not by label.
   */
  lemma SecondaryOnlyBecomesPrimary(t: Tenant, b: string)
    requires b != "" && Trim(b) == b
    requires t.phoneNumbers == PhoneList("", b)
    ensures var f := EditForm(t); PhoneList(f.phoneNumber, f.secondaryPhoneNumber) == [PhoneNumber(b, Some("Primary"))]
  {
  }

  /** The columns an insert or update writes. */
  datatype TenantFields = TenantFields(fullName: string, idNumber: Option<string>, phoneNumbers: seq<PhoneNumber>, notes: Option<string>)

  /** `handleFormSubmit`: a name that is empty once trimmed is refused; otherwise the trimmed fields are written. */
  function SaveTenant(f: TenantForm): (r: Option<TenantFields>)
    ensures r.None? <==> Trim(f.fullName) == ""
    ensures r.Some? ==> r.value.fullName == Trim(f.fullName) && r.value.fullName != ""
    ensures r.Some? ==> r.value.idNumber == NullIfEmpty(Trim(f.idNumber)) && r.value.notes == NullIfEmpty(Trim(f.notes))
    ensures r.Some? ==> r.value.phoneNumbers == PhoneList(f.phoneNumber, f.secondaryPhoneNumber)
  {
    if Trim(f.fullName) == "" then None
    else Some(TenantFields(Trim(f.fullName), NullIfEmpty(Trim(f.idNumber)),
                           PhoneList(f.phoneNumber, f.secondaryPhoneNumber), NullIfEmpty(Trim(f.notes))))
  }

  /** A saved name has no white space at either end. */
  lemma SavedNameTrimmed(f: TenantForm)
    requires SaveTenant(f).Some?
    ensures Trim(SaveTenant(f).value.fullName) == SaveTenant(f).value.fullName
  {
    TrimIdempotent(f.fullName);
  }

  /** `archiveMutation`: the tenant is marked archived and nothing else changes. */
  function Archive(t: Tenant): (r: Tenant)
    ensures r.isArchived && r.(isArchived := t.isArchived) == t
  {
    t.(isArchived := true)
  }
}
