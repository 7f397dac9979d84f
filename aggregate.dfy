/**
 * The two accumulation loops the pages repeat over query results:
 *
 *  - per-key sums, `rows.forEach(r => map.set(k, (map.get(k) || 0) + v))`
 *    where a row without a key (a null link, an unknown tenancy) is
 *    skipped;
 *  - per-key lists, `(groups[k] ||= []).push(r)`, keeping the rows'
 *    order;
 *  - the live tenancy per tenant or per unit, where a later `start_date`
 *    replaces the entry and a tie keeps the one seen first.
 *
 * Each loop is a method proved against a specification function defined
 * on the rows, and the properties the pages rely on are lemmas about the
 * function.
 */
module Aggregate {

  import opened Seqs
  import opened Types

  /** Sum of `value` over the rows whose key is `k`. */
  function KeyedSum<T>(rows: seq<T>, key: T -> Option<Id>, value: T -> int, k: Id): int
  {
    if |rows| == 0 then 0
    else
      KeyedSum(rows[..|rows| - 1], key, value, k)
      + (if key(rows[|rows| - 1]) == Some(k) then value(rows[|rows| - 1]) else 0)
  }

  /** Some row has key `k`, so the map has an entry for it. */
  predicate HasKey<T>(rows: seq<T>, key: T -> Option<Id>, k: Id)
  {
    exists i :: 0 <= i < |rows| && key(rows[i]) == Some(k)
  }

  /** Appending one row adds its own key and keeps every other. */
  lemma HasKeySnoc<T>(rows: seq<T>, x: T, key: T -> Option<Id>, k: Id)
    ensures HasKey(rows + [x], key, k) <==> HasKey(rows, key, k) || key(x) == Some(k)
  {
    var all := rows + [x];
    if HasKey(all, key, k) {
      var j :| 0 <= j < |all| && key(all[j]) == Some(k);
      if j < |rows| { assert all[j] == rows[j]; }
    }
    if HasKey(rows, key, k) {
      var j :| 0 <= j < |rows| && key(rows[j]) == Some(k);
      assert all[j] == rows[j];
    }
    if key(x) == Some(k) {
      assert all[|rows|] == x;
    }
  }

  /** `map.get(k) || 0`. */
  function Get(m: map<Id, int>, k: Id): int
  {
    if k in m then m[k] else 0
  }

  /** Appending one row adds its value to its own key and nothing elsewhere. */
  lemma KeyedSumSnoc<T>(rows: seq<T>, x: T, key: T -> Option<Id>, value: T -> int, k: Id)
    ensures KeyedSum(rows + [x], key, value, k)
      == KeyedSum(rows, key, value, k) + (if key(x) == Some(k) then value(x) else 0)
  {
    assert (rows + [x])[..|rows|] == rows;
  }

  /**
   * The accumulation loop: one pass over the rows, adding each keyed row's
   * value to its key's entry.
   */
  method SumByKey<T>(rows: seq<T>, key: T -> Option<Id>, value: T -> int) returns (m: map<Id, int>)
    ensures forall k :: k in m <==> HasKey(rows, key, k)
    ensures forall k :: Get(m, k) == KeyedSum(rows, key, value, k)
  {
    m := map[];
    var i := 0;
    while i < |rows|
      invariant 0 <= i <= |rows|
      invariant forall k :: k in m <==> HasKey(rows[..i], key, k)
      invariant forall k :: Get(m, k) == KeyedSum(rows[..i], key, value, k)
    {
      var r := rows[i];
      assert rows[..i + 1] == rows[..i] + [r];
      forall k ensures HasKey(rows[..i + 1], key, k) <==> HasKey(rows[..i], key, k) || key(r) == Some(k) {
        HasKeySnoc(rows[..i], r, key, k);
      }
      forall k ensures KeyedSum(rows[..i + 1], key, value, k)
        == KeyedSum(rows[..i], key, value, k) + (if key(r) == Some(k) then value(r) else 0) {
        KeyedSumSnoc(rows[..i], r, key, value, k);
      }
      if key(r).Some? {
        m := m[key(r).value := Get(m, key(r).value) + value(r)];
      }
      i := i + 1;
    }
    assert rows[..|rows|] == rows;
  }

  /** A key no row carries sums to 0. */
  lemma {:induction false} KeyedSumAbsent<T>(rows: seq<T>, key: T -> Option<Id>, value: T -> int, k: Id)
    requires !HasKey(rows, key, k)
    ensures KeyedSum(rows, key, value, k) == 0
  {
    if |rows| > 0 {
      var init := rows[..|rows| - 1];
      forall j | 0 <= j < |init| ensures key(init[j]) != Some(k) {
        assert init[j] == rows[j];
      }
      KeyedSumAbsent(init, key, value, k);
    }
  }

  /** Summing non-negative values gives a non-negative total. */
  lemma {:induction false} KeyedSumNonNegative<T>(rows: seq<T>, key: T -> Option<Id>, value: T -> int, k: Id)
    requires forall i :: 0 <= i < |rows| ==> value(rows[i]) >= 0
    ensures KeyedSum(rows, key, value, k) >= 0
  {
    if |rows| > 0 {
      var init := rows[..|rows| - 1];
      assert forall i :: 0 <= i < |init| ==> value(init[i]) >= 0 by {
        forall i | 0 <= i < |init| ensures value(init[i]) >= 0 { assert init[i] == rows[i]; }
      }
      KeyedSumNonNegative(init, key, value, k);
    }
  }

  /** Summing a smaller value row by row gives a smaller total. */
  lemma {:induction false} KeyedSumMonotone<T>(rows: seq<T>, key: T -> Option<Id>, f: T -> int, g: T -> int, k: Id)
    requires forall i :: 0 <= i < |rows| ==> f(rows[i]) <= g(rows[i])
    ensures KeyedSum(rows, key, f, k) <= KeyedSum(rows, key, g, k)
  {
    if |rows| > 0 {
      var init := rows[..|rows| - 1];
      assert forall i :: 0 <= i < |init| ==> f(init[i]) <= g(init[i]) by {
        forall i | 0 <= i < |init| ensures f(init[i]) <= g(init[i]) { assert init[i] == rows[i]; }
      }
      KeyedSumMonotone(init, key, f, g, k);
    }
  }

  /** With non-negative values, one key's total is at most the grand total. */
  lemma {:induction false} KeyedSumAtMostSum<T>(rows: seq<T>, key: T -> Option<Id>, value: T -> int, k: Id)
    requires forall i :: 0 <= i < |rows| ==> value(rows[i]) >= 0
    ensures KeyedSum(rows, key, value, k) <= Sum(rows, value)
  {
    if |rows| > 0 {
      var init := rows[..|rows| - 1];
      assert forall i :: 0 <= i < |init| ==> value(init[i]) >= 0 by {
        forall i | 0 <= i < |init| ensures value(init[i]) >= 0 { assert init[i] == rows[i]; }
      }
      KeyedSumAtMostSum(init, key, value, k);
    }
  }

  /** The tenancy `m.get(k)` holds after the loop has seen `ts`. */
  function LatestLive(ts: seq<Tenancy>, key: Tenancy -> Id, k: Id): (r: Option<Tenancy>)
  {
    if |ts| == 0 then None
    else
      var t := ts[|ts| - 1];
      var prev := LatestLive(ts[..|ts| - 1], key, k);
      if IsLive(t) && key(t) == k && (prev.None? || t.startDate > prev.value.startDate) then Some(t)
      else prev
  }

  /**
   * The entry for `k` is a live tenancy with key `k` whose start date is
   * the latest among them, and no earlier such tenancy starts on the same
   * day; there is no entry only when there is no such tenancy.
   */
  lemma {:induction false} LatestLiveIsLatest(ts: seq<Tenancy>, key: Tenancy -> Id, k: Id)
    ensures var r := LatestLive(ts, key, k);
      && (r.None? <==> forall j :: 0 <= j < |ts| ==> !(IsLive(ts[j]) && key(ts[j]) == k))
      && (r.Some? ==> IsLive(r.value) && key(r.value) == k)
      && (r.Some? ==> forall j :: 0 <= j < |ts| && IsLive(ts[j]) && key(ts[j]) == k ==> ts[j].startDate <= r.value.startDate)
      && (r.Some? ==> exists i ::
            && 0 <= i < |ts| && ts[i] == r.value
            && forall j :: 0 <= j < i && IsLive(ts[j]) && key(ts[j]) == k ==> ts[j].startDate < r.value.startDate)
  {
    if |ts| > 0 {
      var init := ts[..|ts| - 1];
      var t := ts[|ts| - 1];
      var prev := LatestLive(init, key, k);
      LatestLiveIsLatest(init, key, k);
      assert forall j :: 0 <= j < |init| ==> init[j] == ts[j];
      if !(IsLive(t) && key(t) == k && (prev.None? || t.startDate > prev.value.startDate)) && prev.Some? {
        var i :| 0 <= i < |init| && init[i] == prev.value
          && forall j :: 0 <= j < i && IsLive(init[j]) && key(init[j]) == k ==> init[j].startDate < prev.value.startDate;
        assert ts[i] == prev.value;
      }
    }
  }

  /** One more tenancy seen: it replaces the entry when it is live, has the key and starts later. */
  lemma LatestLiveSnoc(ts: seq<Tenancy>, t: Tenancy, key: Tenancy -> Id, k: Id)
    ensures LatestLive(ts + [t], key, k)
      == (var prev := LatestLive(ts, key, k);
          if IsLive(t) && key(t) == k && (prev.None? || t.startDate > prev.value.startDate) then Some(t) else prev)
  {
    assert (ts + [t])[..|ts|] == ts;
  }

  /**
   * The loop keeping, per key, the live tenancy with the latest start
   * date, the first one seen on a tie.
   */
  method LatestLiveByKey(ts: seq<Tenancy>, key: Tenancy -> Id) returns (m: map<Id, Tenancy>)
    ensures forall k :: k in m <==> LatestLive(ts, key, k).Some?
    ensures forall k :: k in m ==> m[k] == LatestLive(ts, key, k).value
    ensures forall k :: k in m <==> exists j :: 0 <= j < |ts| && IsLive(ts[j]) && key(ts[j]) == k
    ensures forall k :: k in m ==> IsLive(m[k]) && key(m[k]) == k && m[k] in ts
    ensures forall k, j :: k in m && 0 <= j < |ts| && IsLive(ts[j]) && key(ts[j]) == k ==> ts[j].startDate <= m[k].startDate
  {
    m := map[];
    var i := 0;
    while i < |ts|
      invariant 0 <= i <= |ts|
      invariant forall k :: k in m <==> LatestLive(ts[..i], key, k).Some?
      invariant forall k :: k in m ==> m[k] == LatestLive(ts[..i], key, k).value
    {
      var t := ts[i];
      assert ts[..i + 1] == ts[..i] + [t];
      forall k ensures LatestLive(ts[..i + 1], key, k)
        == (var prev := LatestLive(ts[..i], key, k);
            if IsLive(t) && key(t) == k && (prev.None? || t.startDate > prev.value.startDate) then Some(t) else prev) {
        LatestLiveSnoc(ts[..i], t, key, k);
      }
      if IsLive(t) {
        var k := key(t);
        if k !in m || t.startDate > m[k].startDate {
          m := m[k := t];
        }
      }
      i := i + 1;
    }
    assert ts[..|ts|] == ts;
    forall k ensures LatestLive(ts, key, k).Some? <==> exists j :: 0 <= j < |ts| && IsLive(ts[j]) && key(ts[j]) == k {
      LatestLiveIsLatest(ts, key, k);
    }
    forall k | k in m ensures IsLive(m[k]) && key(m[k]) == k && m[k] in ts
      && forall j :: 0 <= j < |ts| && IsLive(ts[j]) && key(ts[j]) == k ==> ts[j].startDate <= m[k].startDate
    {
      LatestLiveIsLatest(ts, key, k);
    }
  }

  /** The rows with key `k`, in their order. */
  function Group<T>(rows: seq<T>, key: T -> Option<Id>, k: Id): (r: seq<T>)
    ensures forall i :: 0 <= i < |r| ==> r[i] in rows && key(r[i]) == Some(k)
    ensures forall i :: 0 <= i < |rows| && key(rows[i]) == Some(k) ==> rows[i] in r
  {
    Filter(rows, (x: T) => key(x) == Some(k))
  }

  lemma GroupSnoc<T>(rows: seq<T>, x: T, key: T -> Option<Id>, k: Id)
    ensures Group(rows + [x], key, k) == Group(rows, key, k) + (if key(x) == Some(k) then [x] else [])
  {
    FilterAppend(rows, [x], (y: T) => key(y) == Some(k));
  }

  /** `(groups[k] ||= []).push(r)` for the row's key, if it has one. */
  function Push<T>(m: map<Id, seq<T>>, key: T -> Option<Id>, r: T): map<Id, seq<T>>
  {
    if key(r).Some? then
      var k := key(r).value;
      m[k := (if k in m then m[k] else []) + [r]]
    else m
  }

  /** One row pushed onto the groups of the rows before it gives the groups of all of them. */
  lemma GroupStep<T>(done: seq<T>, r: T, key: T -> Option<Id>, m: map<Id, seq<T>>)
    requires forall k :: k in m <==> HasKey(done, key, k)
    requires forall k :: k in m ==> m[k] == Group(done, key, k)
    ensures forall k :: k in Push(m, key, r) <==> HasKey(done + [r], key, k)
    ensures forall k :: k in Push(m, key, r) ==> Push(m, key, r)[k] == Group(done + [r], key, k)
  {
    var m' := Push(m, key, r);
    forall k ensures k in m' <==> HasKey(done + [r], key, k) {
      HasKeySnoc(done, r, key, k);
    }
    forall k | k in m' ensures m'[k] == Group(done + [r], key, k) {
      GroupSnoc(done, r, key, k);
      if k !in m {
        FilterNone(done, (y: T) => key(y) == Some(k));
      }
    }
  }

  /**
   * The grouping loop: one pass over the rows, appending each keyed row
   * to its key's list; a key has a list exactly when some row carries it.
   */
  method GroupByKey<T>(rows: seq<T>, key: T -> Option<Id>) returns (m: map<Id, seq<T>>)
    ensures forall k :: k in m <==> HasKey(rows, key, k)
    ensures forall k :: k in m ==> m[k] == Group(rows, key, k)
  {
    m := map[];
    var i := 0;
    while i < |rows|
      invariant 0 <= i <= |rows|
      invariant forall k :: k in m <==> HasKey(rows[..i], key, k)
      invariant forall k :: k in m ==> m[k] == Group(rows[..i], key, k)
    {
      var r := rows[i];
      assert rows[..i + 1] == rows[..i] + [r];
      GroupStep(rows[..i], r, key, m);
      m := Push(m, key, r);
      i := i + 1;
    }
    assert rows[..|rows|] == rows;
  }

  /** A keyed total is the sum over that key's group: rows without a key, or with another, add nothing. */
  lemma {:induction false} KeyedSumIsGroupSum<T>(rows: seq<T>, key: T -> Option<Id>, value: T -> int, k: Id)
    ensures KeyedSum(rows, key, value, k) == Sum(Group(rows, key, k), value)
  {
    if |rows| > 0 {
      var init := rows[..|rows| - 1];
      var x := rows[|rows| - 1];
      assert rows == init + [x];
      KeyedSumIsGroupSum(init, key, value, k);
      GroupSnoc(init, x, key, k);
      SumAppend(Group(init, key, k), if key(x) == Some(k) then [x] else [], value);
    }
  }
}
