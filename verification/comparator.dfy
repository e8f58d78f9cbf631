/**
 The dashboard's quarterly comparator: given a company's records and the
 value a field has in the selected record, it finds that record in the series
 ordered newest first and reports the field's value one quarter earlier and
 one year earlier (`getComparison` in src/pages/Dashboard.tsx).
 */
module Comparator {
  import opened Common

  /** `a` belongs to a strictly later period than `b`. */
  predicate Later(a: Indicator, b: Indicator) {
    a.year > b.year || (a.year == b.year && a.quarterNumber > b.quarterNumber)
  }

  /** The sort callback: negative when `a` goes first (it is later). */
  function Compare(a: Indicator, b: Indicator): int {
    if a.year != b.year then b.year - a.year else b.quarterNumber - a.quarterNumber
  }

  /** Newest first: no record is later than one placed before it. */
  predicate SortedByPeriod(s: seq<Indicator>) {
    forall i, j :: 0 <= i < j < |s| ==> !Later(s[j], s[i])
  }

  /** Prepending a record that nothing after it is later than keeps a
      series sorted. */
  lemma SortedCons(a: Indicator, r: seq<Indicator>)
    requires SortedByPeriod(r)
    requires forall z :: z in r ==> !Later(z, a)
    ensures SortedByPeriod([a] + r)
  {
    var t := [a] + r;
    forall i, j | 0 <= i < j < |t| ensures !Later(t[j], t[i]) {
      if i == 0 {
        assert t[j] == r[j - 1];
      } else {
        assert t[i] == r[i - 1] && t[j] == r[j - 1];
      }
    }
  }

  /** Places `x` before the first record it does not follow, so that among
      records of the same period `x` stays first (`InsertIsStable`). */
  function Insert(x: Indicator, s: seq<Indicator>): (r: seq<Indicator>)
    requires SortedByPeriod(s)
    ensures SortedByPeriod(r)
    ensures multiset(r) == multiset(s) + multiset{x}
    ensures forall z :: z in r ==> z in s || z == x
  {
    if |s| == 0 then [x]
    else if Compare(x, s[0]) <= 0 then
      SortedCons(x, s);
      [x] + s
    else
      assert s == [s[0]] + s[1..];
      var rest := Insert(x, s[1..]);
      SortedCons(s[0], rest);
      [s[0]] + rest
  }

  /** `[...records].sort(compare)`: a stable sort newest first (`SortIsStable`). */
  function SortByPeriod(records: seq<Indicator>): (s: seq<Indicator>)
    ensures SortedByPeriod(s)
    ensures multiset(s) == multiset(records)
    ensures |s| == |records|
  {
    if |records| == 0 then []
    else
      assert records == [records[0]] + records[1..];
      Insert(records[0], SortByPeriod(records[1..]))
  }

  /** The records of one period, in the order `s` holds them. */
  function OfPeriod(s: seq<Indicator>, year: int, quarterNumber: int): seq<Indicator> {
    if |s| == 0 then []
    else OfPeriodHead(s[0], year, quarterNumber) + OfPeriod(s[1..], year, quarterNumber)
  }

  /** `[a]` when `a` is of the period, otherwise nothing. */
  function OfPeriodHead(a: Indicator, year: int, quarterNumber: int): seq<Indicator> {
    if a.year == year && a.quarterNumber == quarterNumber then [a] else []
  }

  lemma OfPeriodCons(a: Indicator, r: seq<Indicator>, year: int, quarterNumber: int)
    ensures OfPeriod([a] + r, year, quarterNumber) == OfPeriodHead(a, year, quarterNumber) + OfPeriod(r, year, quarterNumber)
  {
    assert ([a] + r)[1..] == r;
  }

  /** Inserting a record keeps the order of every period's records and puts
      the new one first among its own period. */
  lemma {:induction false} InsertIsStable(x: Indicator, s: seq<Indicator>, year: int, quarterNumber: int)
    requires SortedByPeriod(s)
    ensures OfPeriod(Insert(x, s), year, quarterNumber)
         == OfPeriodHead(x, year, quarterNumber) + OfPeriod(s, year, quarterNumber)
  {
    if |s| == 0 {
      OfPeriodCons(x, [], year, quarterNumber);
    } else if Compare(x, s[0]) <= 0 {
      OfPeriodCons(x, s, year, quarterNumber);
    } else {
      var h, t := s[0], s[1..];
      assert s == [h] + t;
      var rest := Insert(x, t);
      assert Insert(x, s) == [h] + rest;
      InsertIsStable(x, t, year, quarterNumber);
      OfPeriodCons(h, rest, year, quarterNumber);
      OfPeriodCons(h, t, year, quarterNumber);
      assert OfPeriodHead(h, year, quarterNumber) == [] || OfPeriodHead(x, year, quarterNumber) == [];
    }
  }

  /** The sort is stable: records of the same period keep their input order. */
  lemma {:induction false} SortIsStable(records: seq<Indicator>, year: int, quarterNumber: int)
    ensures OfPeriod(SortByPeriod(records), year, quarterNumber) == OfPeriod(records, year, quarterNumber)
  {
    if |records| > 0 {
      SortIsStable(records[1..], year, quarterNumber);
      InsertIsStable(records[0], SortByPeriod(records[1..]), year, quarterNumber);
    }
  }

  /** `s.findIndex(d => d[f] === v)`. */
  function MatchIndex(s: seq<Indicator>, f: Field, v: real): (r: Option<nat>)
    ensures r.Some? ==> r.value < |s| && s[r.value].Get(f) == Some(v)
    ensures r.Some? ==> forall j :: 0 <= j < r.value ==> s[j].Get(f) != Some(v)
    ensures r.None? ==> forall j :: 0 <= j < |s| ==> s[j].Get(f) != Some(v)
  {
    if |s| == 0 then None
    else if s[0].Get(f) == Some(v) then Some(0)
    else match MatchIndex(s[1..], f, v)
      case None => None
      case Some(i) => Some(i + 1)
  }

  /** `s.find(d => d.year === year && d.quarter_number === quarterNumber)`. */
  function FindPeriod(s: seq<Indicator>, year: int, quarterNumber: int): (r: Option<Indicator>)
    ensures r.Some? ==> r.value in s && r.value.year == year && r.value.quarterNumber == quarterNumber
    ensures r.Some? ==> exists k :: 0 <= k < |s| && s[k] == r.value && NoPeriodBefore(s, k, year, quarterNumber)
    ensures r.None? ==> forall d :: d in s ==> !(d.year == year && d.quarterNumber == quarterNumber)
  {
    if |s| == 0 then None
    else if s[0].year == year && s[0].quarterNumber == quarterNumber then
      assert NoPeriodBefore(s, 0, year, quarterNumber);
      Some(s[0])
    else
      var r := FindPeriod(s[1..], year, quarterNumber);
      assert r.Some? ==> exists k :: 0 <= k < |s| && s[k] == r.value && NoPeriodBefore(s, k, year, quarterNumber) by {
        if r.Some? {
          var k :| 0 <= k < |s[1..]| && s[1..][k] == r.value && NoPeriodBefore(s[1..], k, year, quarterNumber);
          assert s[k + 1] == r.value && NoPeriodBefore(s, k + 1, year, quarterNumber);
        }
      }
      r
  }

  /** No record before position `k` belongs to the period. */
  predicate NoPeriodBefore(s: seq<Indicator>, k: nat, year: int, quarterNumber: int)
    requires k <= |s|
  {
    forall j :: 0 <= j < k ==> !(s[j].year == year && s[j].quarterNumber == quarterNumber)
  }

  /** The result of a successful comparison; each part may be absent. */
  datatype Comparison = Comparison(previousQuarter: Option<real>, sameQuarterLastYear: Option<real>)

  /** Index, in the sorted series, of the record the comparison is about. */
  function TargetIndex(records: seq<Indicator>, current: Option<real>, f: Field): Option<nat>
  {
    if !Truthy(current) || |records| == 0 then None
    else MatchIndex(SortByPeriod(records), f, current.value)
  }

  /** Field value of the record right after index `i`, if there is one. */
  function PreviousValue(s: seq<Indicator>, i: nat, f: Field): Option<real>
  {
    if i + 1 < |s| then s[i + 1].Get(f) else None
  }

  /** Field value of the first record of the year before `t`'s, same quarter. */
  function LastYearValue(s: seq<Indicator>, t: Indicator, f: Field): Option<real>
  {
    var lastYear := FindPeriod(s, t.year - 1, t.quarterNumber);
    if lastYear.Some? then lastYear.value.Get(f) else None
  }

  function GetComparison(records: seq<Indicator>, current: Option<real>, f: Field): (r: Option<Comparison>)
    ensures !Truthy(current) || |records| == 0 ==> r.None?
    ensures r.Some? <==> Truthy(current) && exists d :: d in records && d.Get(f) == current
  {
    match TargetIndex(records, current, f)
    case None =>
      ghost var s := SortByPeriod(records);
      assert forall d :: d in records ==> d in multiset(s);
      None
    case Some(i) =>
      var s := SortByPeriod(records);
      assert s[i] in multiset(records);
      Some(Comparison(PreviousValue(s, i, f), LastYearValue(s, s[i], f)))
  }

  /** In a series sorted newest first, a record later than the one at `i`
      sits before it. */
  lemma LaterMeansEarlierIndex(s: seq<Indicator>, i: nat, k: nat)
    requires SortedByPeriod(s)
    requires i < |s| && k < |s|
    requires Later(s[k], s[i])
    ensures k < i
  {
  }

  /** Every record of the input has a position in the sorted series. */
  lemma InSorted(records: seq<Indicator>, d: Indicator) returns (k: nat)
    requires d in records
    ensures k < |SortByPeriod(records)| && SortByPeriod(records)[k] == d
  {
    var s := SortByPeriod(records);
    assert d in multiset(s);
    k :| 0 <= k < |s| && s[k] == d;
  }

  /** The target is a latest record holding the value: it has the value,
      and no record of a strictly later period holds it. */
  lemma {:induction false} TargetIsLatestMatch(records: seq<Indicator>, current: Option<real>, f: Field)
    requires TargetIndex(records, current, f).Some?
    ensures var s := SortByPeriod(records);
            var t := s[TargetIndex(records, current, f).value];
            && t in records
            && t.Get(f) == current
            && forall d :: d in records && d.Get(f) == current ==> !Later(d, t)
  {
    var s := SortByPeriod(records);
    var i := TargetIndex(records, current, f).value;
    assert s[i] in multiset(records);
    forall d | d in records && d.Get(f) == current
      ensures !Later(d, s[i])
    {
      var k := InSorted(records, d);
      if Later(d, s[i]) {
        LaterMeansEarlierIndex(s, i, k);
        assert false;
      }
    }
  }

  /** "Previous quarter" is read from the record right after the target:
      it is not later than the target and every strictly earlier record of
      the input is not later than it; when the target is the oldest record
      the previous value is absent. */
  lemma {:induction false} PreviousQuarterIsNextOlder(records: seq<Indicator>, current: Option<real>, f: Field)
    requires TargetIndex(records, current, f).Some?
    ensures var s := SortByPeriod(records);
            var i := TargetIndex(records, current, f).value;
            var r := GetComparison(records, current, f);
            && r.Some?
            && (i + 1 < |s| ==>
                  && r.value.previousQuarter == s[i + 1].Get(f)
                  && s[i + 1] in records
                  && !Later(s[i + 1], s[i])
                  && forall d :: d in records && Later(s[i], d) ==> !Later(d, s[i + 1]))
            && (i + 1 == |s| ==>
                  && r.value.previousQuarter.None?
                  && forall d :: d in records ==> !Later(s[i], d))
  {
    var s := SortByPeriod(records);
    var i := TargetIndex(records, current, f).value;
    ComparisonAt(records, current, f);
    SortKeepsRecords(records);
    NextOlderAmong(records, s, i);
  }

  /** In any sorted series holding the same records, the record after
      position `i` is the next older one. */
  lemma NextOlderAmong(records: seq<Indicator>, s: seq<Indicator>, i: nat)
    requires SortedByPeriod(s) && i < |s|
    requires forall d :: d in s <==> d in records
    ensures i + 1 < |s| ==>
              && s[i + 1] in records
              && !Later(s[i + 1], s[i])
              && forall d :: d in records && Later(s[i], d) ==> !Later(d, s[i + 1])
    ensures i + 1 == |s| ==> forall d :: d in records ==> !Later(s[i], d)
  {
    forall d | d in records
      ensures Later(s[i], d) ==> i + 1 < |s| && !Later(d, s[i + 1])
    {
      var k :| 0 <= k < |s| && s[k] == d;
      if Later(s[i], d) {
        assert i < k;
      }
    }
  }

  /** "Same quarter last year" comes from a record of the previous year with
      the same quarter number, and is absent when the input has none. */
  lemma {:induction false} SameQuarterLastYearIsYearBefore(records: seq<Indicator>, current: Option<real>, f: Field)
    requires TargetIndex(records, current, f).Some?
    ensures var t := SortByPeriod(records)[TargetIndex(records, current, f).value];
            var r := GetComparison(records, current, f);
            && r.Some?
            && (r.value.sameQuarterLastYear.Some? ==>
                  exists d :: d in records && d.year == t.year - 1 && d.quarterNumber == t.quarterNumber
                              && d.Get(f) == r.value.sameQuarterLastYear)
            && ((forall d :: d in records ==> !(d.year == t.year - 1 && d.quarterNumber == t.quarterNumber)) ==>
                  r.value.sameQuarterLastYear.None?)
            && TakesFirstOfPeriod(SortByPeriod(records), t.year - 1, t.quarterNumber, f, r.value.sameQuarterLastYear)
  {
    var s := SortByPeriod(records);
    var i := TargetIndex(records, current, f).value;
    var t := s[i];
    ComparisonAt(records, current, f);
    SortKeepsRecords(records);
    LastYearAmong(records, s, t, f);
  }

  /** The year-earlier lookup over any series holding the same records. */
  lemma LastYearAmong(records: seq<Indicator>, s: seq<Indicator>, t: Indicator, f: Field)
    requires forall d :: d in s <==> d in records
    ensures var v := LastYearValue(s, t, f);
            && (v.Some? ==>
                  exists d :: d in records && d.year == t.year - 1 && d.quarterNumber == t.quarterNumber
                              && d.Get(f) == v)
            && ((forall d :: d in records ==> !(d.year == t.year - 1 && d.quarterNumber == t.quarterNumber)) ==>
                  v.None?)
            && TakesFirstOfPeriod(s, t.year - 1, t.quarterNumber, f, v)
  {
    var found := FindPeriod(s, t.year - 1, t.quarterNumber);
    if found.Some? {
      assert found.value in records;
      var k :| 0 <= k < |s| && s[k] == found.value && NoPeriodBefore(s, k, t.year - 1, t.quarterNumber);
      assert FirstOfPeriod(s, k, t.year - 1, t.quarterNumber) && LastYearValue(s, t, f) == s[k].Get(f);
    } else {
      assert !exists d :: d in s && d.year == t.year - 1 && d.quarterNumber == t.quarterNumber;
    }
  }

  /** When `s` holds a record of the period, `v` is the field of the first
      such record. */
  predicate TakesFirstOfPeriod(s: seq<Indicator>, year: int, quarterNumber: int, f: Field, v: Option<real>) {
    (exists d :: d in s && d.year == year && d.quarterNumber == quarterNumber) ==>
      exists k :: 0 <= k < |s| && FirstOfPeriod(s, k, year, quarterNumber) && v == s[k].Get(f)
  }

  /** Position `k` holds the first record of the period in `s`. */
  predicate FirstOfPeriod(s: seq<Indicator>, k: int, year: int, quarterNumber: int)
  {
    0 <= k < |s| && s[k].year == year && s[k].quarterNumber == quarterNumber
    && NoPeriodBefore(s, k, year, quarterNumber)
  }

  /** The comparison reads the two neighbours of the target in the sorted series. */
  lemma ComparisonAt(records: seq<Indicator>, current: Option<real>, f: Field)
    requires TargetIndex(records, current, f).Some?
    ensures var s := SortByPeriod(records);
            var i := TargetIndex(records, current, f).value;
            i < |s| && GetComparison(records, current, f) == Some(Comparison(PreviousValue(s, i, f), LastYearValue(s, s[i], f)))
  {
  }

  /** Sorting neither adds nor drops a record. */
  lemma SortKeepsRecords(records: seq<Indicator>)
    ensures forall d :: d in SortByPeriod(records) <==> d in records
  {
    var s := SortByPeriod(records);
    forall d ensures d in s <==> d in records {
      assert d in s <==> d in multiset(s);
      assert d in records <==> d in multiset(records);
    }
  }
}
