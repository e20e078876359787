/**
 * The admin hub's "Performance Trends Over Time" series: every logged
 * score grouped by its date, the 30 greatest dates in ascending order, and
 * the mean score of each of those dates.
 */
module Trends {
  import opened Wrappers
  import opened Lists
  import opened Records
  import opened Order
  import opened Charts

  /** The number of dates the trend shows. */
  const TrendDays: nat := 30

  /** The scores logged on date `d`, in log order. */
  function ScoresOn(logs: seq<Attendance>, d: string): seq<int> {
    FlatMap((a: Attendance) => if a.date == d then [a.score] else [], logs)
  }

  lemma {:induction false} ScoresOnEmpty(logs: seq<Attendance>, d: string)
    ensures ScoresOn(logs, d) == [] <==> forall k | 0 <= k < |logs| :: logs[k].date != d
  {
    if logs != [] {
      ScoresOnEmpty(logs[1..], d);
      assert forall k | 1 <= k < |logs| :: logs[1..][k - 1] == logs[k];
    }
  }

  /** The index of the first session logged on date `d`, or `|logs|` when there is none. */
  function FirstOn(logs: seq<Attendance>, d: string): (p: nat)
    ensures p <= |logs|
  {
    if logs == [] then 0
    else if logs[0].date == d then 0
    else 1 + FirstOn(logs[1..], d)
  }

  /** The first index holds date `d`, and no earlier session does. */
  lemma {:induction false} FirstOnShape(logs: seq<Attendance>, d: string)
    ensures FirstOn(logs, d) < |logs| ==> logs[FirstOn(logs, d)].date == d
    ensures forall q | 0 <= q < FirstOn(logs, d) :: logs[q].date != d
  {
    if logs != [] && logs[0].date != d {
      FirstOnShape(logs[1..], d);
      assert forall q | 1 <= q < FirstOn(logs, d) :: logs[q] == logs[1..][q - 1];
    }
  }

  /** Logging one more session moves no date's first index, and gives a new date the last one. */
  lemma FirstOnStep(logs: seq<Attendance>, n: nat, d: string)
    requires n < |logs|
    ensures FirstOn(logs[..n], d) < n ==> FirstOn(logs[..n + 1], d) == FirstOn(logs[..n], d)
    ensures FirstOn(logs[..n], d) == n && logs[n].date == d ==> FirstOn(logs[..n + 1], d) == n
  {
    var p := FirstOn(logs[..n], d);
    var p' := FirstOn(logs[..n + 1], d);
    FirstOnShape(logs[..n], d);
    FirstOnShape(logs[..n + 1], d);
    if p < n {
      assert logs[..n + 1][p] == logs[..n][p];
      assert forall q | 0 <= q < p' && q < n :: logs[..n + 1][q] == logs[..n][q];
    } else if logs[n].date == d {
      assert forall q | 0 <= q < n :: logs[..n + 1][q] == logs[..n][q];
      assert logs[..n + 1][n].date == d;
    }
  }

  /** Each key is first logged before the next; a date seen again adds no key, a new date goes last. */
  predicate FirstSeenOrder(logs: seq<Attendance>, keys: seq<string>) {
    (forall i | 0 <= i < |keys| :: FirstOn(logs, keys[i]) < |logs|) &&
    (forall i, j | 0 <= i < j < |keys| :: FirstOn(logs, keys[i]) < FirstOn(logs, keys[j]))
  }

  /** The dates of the logs without repeats, each placed where it is first logged. */
  function FirstSeen(logs: seq<Attendance>): seq<string> {
    if logs == [] then []
    else
      var ks := FirstSeen(logs[..|logs| - 1]);
      var d := logs[|logs| - 1].date;
      if d in ks then ks else ks + [d]
  }

  /** `FirstSeen` lists the logged dates and nothing else, each once. */
  lemma {:induction false} FirstSeenMembers(logs: seq<Attendance>)
    ensures Distinct(FirstSeen(logs))
    ensures forall d :: d in FirstSeen(logs) <==> exists k :: 0 <= k < |logs| && logs[k].date == d
  {
    if logs != [] {
      var m := |logs| - 1;
      var pre := logs[..m];
      var ks := FirstSeen(pre);
      var d := logs[m].date;
      assert FirstSeen(logs) == if d in ks then ks else ks + [d];
      FirstSeenMembers(pre);
      forall e ensures e in FirstSeen(logs) <==> exists k :: 0 <= k < |logs| && logs[k].date == e {
        if e in ks {
          var k :| 0 <= k < m && pre[k].date == e;
          assert logs[k].date == e;
        }
        if exists k :: 0 <= k < |logs| && logs[k].date == e {
          var k :| 0 <= k < |logs| && logs[k].date == e;
          if k < m {
            assert pre[k].date == e;
          }
        }
      }
    }
  }

  /** `FirstSeen` lists every logged date, in the order of first occurrence. */
  lemma {:induction false} FirstSeenOrdered(logs: seq<Attendance>)
    ensures forall k | 0 <= k < |logs| :: logs[k].date in FirstSeen(logs)
    ensures FirstSeenOrder(logs, FirstSeen(logs))
  {
    if logs != [] {
      var m := |logs| - 1;
      var pre := logs[..m];
      var ks := FirstSeen(pre);
      var d := logs[m].date;
      assert FirstSeen(logs) == if d in ks then ks else ks + [d];
      FirstSeenOrdered(pre);
      forall k | 0 <= k < |logs| ensures logs[k].date in FirstSeen(logs) {
        if k < m {
          assert pre[k].date in ks;
        }
      }
      OrderStep(logs, m, ks);
      assert logs[..m + 1] == logs;
    }
  }

  lemma OrderStep(logs: seq<Attendance>, n: nat, keys: seq<string>)
    requires n < |logs|
    requires FirstSeenOrder(logs[..n], keys)
    requires forall k | 0 <= k < n :: logs[k].date in keys
    ensures FirstSeenOrder(logs[..n + 1], if logs[n].date in keys then keys else keys + [logs[n].date])
  {
    var d := logs[n].date;
    forall i | 0 <= i < |keys| ensures FirstOn(logs[..n + 1], keys[i]) == FirstOn(logs[..n], keys[i]) {
      FirstOnStep(logs, n, keys[i]);
    }
    if d !in keys {
      FirstOnShape(logs[..n], d);
      FirstOnStep(logs, n, d);
    }
  }

  /**
   * The `defaultdict(list)` the loop fills: its keys in the order they were
   * first seen, and for each key the scores appended under it.
   */
  method GroupByDate(logs: seq<Attendance>) returns (keys: seq<string>, groups: map<string, seq<int>>)
    ensures Distinct(keys)
    ensures forall i, j | 0 <= i < j < |keys| :: FirstOn(logs, keys[i]) < FirstOn(logs, keys[j])
    ensures forall d :: d in keys <==> d in groups
    ensures forall d :: d in groups <==> exists k :: 0 <= k < |logs| && logs[k].date == d
    ensures forall d | d in groups :: groups[d] == ScoresOn(logs, d)
  {
    keys := [];
    groups := map[];
    for n := 0 to |logs|
      invariant keys == FirstSeen(logs[..n])
      invariant forall d :: d in keys <==> d in groups
      invariant forall d | d in groups :: groups[d] == ScoresOn(logs[..n], d)
      invariant forall d | d !in groups :: ScoresOn(logs[..n], d) == []
    {
      var a := logs[n];
      assert logs[..n + 1] == logs[..n] + [a];
      forall d ensures ScoresOn(logs[..n + 1], d) == ScoresOn(logs[..n], d) + (if a.date == d then [a.score] else []) {
        FlatMapAppend((a: Attendance) => if a.date == d then [a.score] else [], logs[..n], a);
      }
      assert logs[..n + 1][..n] == logs[..n];
      if a.date in groups {
        groups := groups[a.date := groups[a.date] + [a.score]];
      } else {
        keys := keys + [a.date];
        groups := groups[a.date := [a.score]];
      }
    }
    assert logs[..|logs|] == logs;
    FirstSeenMembers(logs);
    FirstSeenOrdered(logs);
  }

  /**
   * The trend series, or nothing when no session is logged: the greatest
   * 30 dates in ascending order, with each date's mean score.
   */
  method DailyTrend(logs: seq<Attendance>) returns (r: Option<(seq<string>, seq<real>)>)
    ensures logs == [] <==> r.None?
    ensures r.Some? ==> var (dates, averages) := r.value;
      |averages| == |dates| &&
      (forall k | 0 <= k < |dates| :: ScoresOn(logs, dates[k]) != [] &&
        averages[k] == Mean(ScoresOn(logs, dates[k]))) &&
      exists keys :: Distinct(keys) &&
        (forall d :: d in keys <==> exists k :: 0 <= k < |logs| && logs[k].date == d) &&
        dates == LastK(Sort(keys), TrendDays)
  {
    if logs == [] {
      return None;
    }
    var keys, groups := GroupByDate(logs);
    var dates := LastK(Sort(keys), TrendDays);
    forall k | 0 <= k < |dates| ensures dates[k] in groups && ScoresOn(logs, dates[k]) != [] {
      assert dates[k] in multiset(Sort(keys));
      assert dates[k] in keys;
      var j :| 0 <= j < |logs| && logs[j].date == dates[k];
      ScoresOnEmpty(logs, dates[k]);
    }
    var averages := seq(|dates|, k requires 0 <= k < |dates| => Mean(groups[dates[k]]));
    r := Some((dates, averages));
  }

  /** Sorting distinct dates keeps them distinct and keeps the same dates. */
  lemma SortedKeys(keys: seq<string>)
    requires Distinct(keys)
    ensures var sorted := Sort(keys);
      |sorted| == |keys| && SortedStrings(sorted) && Distinct(sorted) &&
      forall d :: d in sorted <==> d in keys
  {
    var sorted := Sort(keys);
    assert |sorted| == |multiset(sorted)| == |keys|;
    DistinctPermutation(keys, sorted);
    forall d ensures d in sorted <==> d in keys {
      assert d in sorted <==> d in multiset(sorted);
    }
  }

  /** The last `k` of sorted distinct dates are strictly ascending. */
  lemma LastAscending(sorted: seq<string>, k: nat)
    requires k > 0 && SortedStrings(sorted) && Distinct(sorted)
    ensures var dates := LastK(sorted, k);
      forall i, j | 0 <= i < j < |dates| :: LessEq(dates[i], dates[j]) && dates[i] != dates[j]
  {
    var dates := LastK(sorted, k);
    var start := |sorted| - |dates|;
    assert dates == sorted[start..];
  }

  /** The last `k` elements are elements. */
  lemma LastMembers(sorted: seq<string>, k: nat)
    requires k > 0
    ensures forall d | d in LastK(sorted, k) :: d in sorted
  {
    var dates := LastK(sorted, k);
    assert dates == sorted[|sorted| - |dates|..];
  }

  /** No element of a sorted list left out of its last `k` comes after one kept. */
  lemma LastLatest(sorted: seq<string>, k: nat)
    requires k > 0 && SortedStrings(sorted)
    ensures var dates := LastK(sorted, k);
      forall d | d in sorted && d !in dates :: forall e | e in dates :: LessEq(d, e)
  {
    var dates := LastK(sorted, k);
    var start := |sorted| - |dates|;
    var before := sorted[..start];
    assert sorted == before + dates;
    forall i, j | 0 <= i < |before| && 0 <= j < |dates| ensures LessEq(before[i], dates[j]) {
      assert before[i] == sorted[i] && dates[j] == sorted[start + j];
    }
    forall d, e | d in before && e in dates ensures LessEq(d, e) {
      var i :| 0 <= i < |before| && before[i] == d;
      var j :| 0 <= j < |dates| && dates[j] == e;
    }
  }

  /**
   * What the trend's dates are, given the logged dates: distinct, in
   * ascending order, as many as there are dates up to 30, and no date
   * left out is later than a date shown.
   */
  lemma TrendDates(keys: seq<string>)
    requires Distinct(keys)
    ensures var dates := LastK(Sort(keys), TrendDays);
      |dates| == (if |keys| < TrendDays then |keys| else TrendDays) &&
      (forall i, j | 0 <= i < j < |dates| :: LessEq(dates[i], dates[j]) && dates[i] != dates[j]) &&
      (forall d | d in dates :: d in keys) &&
      (forall d | d in keys && d !in dates :: forall e | e in dates :: LessEq(d, e))
  {
    SortedKeys(keys);
    LastAscending(Sort(keys), TrendDays);
    LastMembers(Sort(keys), TrendDays);
    LastLatest(Sort(keys), TrendDays);
  }
}
