/**
 * The numbers behind the dashboard's charts: the four score bands of the
 * performance pies, the last-k windows of the velocity and analysis
 * charts, and the match/gap split of the skill-gap pie. Figure
 * construction itself is not modelled.
 */
module Charts {
  import opened Wrappers
  import opened Records

  datatype Band = Excellent | Good | Average | Poor

  /** The order in which the pies list the bands. */
  const BandOrder: seq<Band> := [Excellent, Good, Average, Poor]

  /** The band conditions as each generator writes them. */
  predicate InBand(b: Band, s: int) {
    match b
    case Excellent => s >= 8
    case Good => 6 <= s < 8
    case Average => 4 <= s < 6
    case Poor => s < 4
  }

  /** Every score satisfies exactly one band condition. */
  lemma BandPartition(s: int)
    ensures exists b :: InBand(b, s)
    ensures forall b1, b2 | InBand(b1, s) && InBand(b2, s) :: b1 == b2
  {
    if s >= 8 {
      assert InBand(Excellent, s);
    } else if s >= 6 {
      assert InBand(Good, s);
    } else if s >= 4 {
      assert InBand(Average, s);
    } else {
      assert InBand(Poor, s);
    }
  }

  /** `sum(1 for s in scores if <band condition>)`. */
  function CountIn(b: Band, scores: seq<int>): (n: nat)
    ensures n <= |scores|
  {
    if scores == [] then 0
    else (if InBand(b, scores[0]) then 1 else 0) + CountIn(b, scores[1..])
  }

  /** The pie's values, in the fixed band order. */
  function BandValues(scores: seq<int>): (values: seq<nat>)
    ensures |values| == |BandOrder|
    ensures forall k | 0 <= k < |values| :: values[k] == CountIn(BandOrder[k], scores)
  {
    [CountIn(Excellent, scores), CountIn(Good, scores), CountIn(Average, scores), CountIn(Poor, scores)]
  }

  /** The four counts account for every score exactly once. */
  lemma {:induction false} BandCountsSum(scores: seq<int>)
    ensures CountIn(Excellent, scores) + CountIn(Good, scores) + CountIn(Average, scores)
      + CountIn(Poor, scores) == |scores|
  {
    if scores != [] {
      BandCountsSum(scores[1..]);
    }
  }

  /** The scores the performance pie keeps: Python drops falsy scores, here the zeros. */
  function Truthy(scores: seq<int>): (r: seq<int>)
    ensures |r| <= |scores|
    ensures forall k | 0 <= k < |r| :: r[k] != 0 && r[k] in scores
    ensures forall s | s in scores && s != 0 :: s in r
    ensures multiset(r) == multiset(scores)[0 := 0]
  {
    if scores == [] then []
    else
      assert scores == [scores[0]] + scores[1..];
      if scores[0] != 0 then [scores[0]] + Truthy(scores[1..])
      else Truthy(scores[1..])
  }

  /** Dropping the zeros leaves the Excellent, Good and Average counts alone and takes them off Poor. */
  lemma {:induction false} TruthyBands(b: Band, scores: seq<int>)
    ensures CountIn(b, Truthy(scores)) == CountIn(b, scores) - (if b == Poor then multiset(scores)[0] else 0)
  {
    if scores != [] {
      TruthyBands(b, scores[1..]);
      assert scores == [scores[0]] + scores[1..];
      if scores[0] != 0 {
        assert Truthy(scores) == [scores[0]] + Truthy(scores[1..]);
      }
    }
  }

  /** Truthy keeps everything but the zeros: its length is the number of non-zero scores. */
  lemma {:induction false} TruthyLength(scores: seq<int>)
    ensures |Truthy(scores)| == |scores| - multiset(scores)[0]
  {
    if scores != [] {
      TruthyLength(scores[1..]);
      assert scores == [scores[0]] + scores[1..];
    }
  }

  /**
   * The performance pie: nothing for an empty history, otherwise the band
   * counts of the non-zero scores.
   */
  function PerformancePie(logs: seq<Attendance>): (values: Option<seq<nat>>)
    ensures logs == [] <==> values.None?
  {
    if logs == [] then None else Some(BandValues(Truthy(Scores(logs))))
  }

  lemma PerformancePieTotal(logs: seq<Attendance>)
    requires logs != []
    ensures var v := PerformancePie(logs).value;
      v[0] + v[1] + v[2] + v[3] == |Scores(logs)| - multiset(Scores(logs))[0]
  {
    BandCountsSum(Truthy(Scores(logs)));
    TruthyLength(Scores(logs));
  }

  /**
   * The performance pie as its bands describe it: every logged score is
   * counted, a zero score in the Poor band.
   */
  function PerformancePieAllScores(logs: seq<Attendance>): (values: Option<seq<nat>>)
    ensures logs == [] <==> values.None?
    ensures values.Some? ==> |values.value| == 4
    ensures values.Some? ==> values.value[0] + values.value[1] + values.value[2] + values.value[3] == |logs|
  {
    if logs == [] then None
    else
      BandCountsSum(Scores(logs));
      Some(BandValues(Scores(logs)))
  }

  /**
   * The pie as written differs from the corrected pie exactly in the Poor
   * slice, which is short by the number of sessions scored 0.
   */
  lemma PieDropsZeros(logs: seq<Attendance>)
    requires logs != []
    ensures var written := PerformancePie(logs).value;
      var corrected := PerformancePieAllScores(logs).value;
      written[..3] == corrected[..3] && written[3] + multiset(Scores(logs))[0] == corrected[3]
  {
    var scores := Scores(logs);
    TruthyBands(Excellent, scores);
    TruthyBands(Good, scores);
    TruthyBands(Average, scores);
    TruthyBands(Poor, scores);
  }

  /** A session scored 0 is missing from the pie as written, but counted as Poor by the velocity chart. */
  lemma ZeroScoreMissingFromPie()
    ensures var logs := [Attendance("intern", "2024-01-01", 0, 30)];
      PerformancePie(logs) == Some([0, 0, 0, 0]) &&
      PerformancePieAllScores(logs) == Some([0, 0, 0, 1]) &&
      VelocityChart(logs).value.2 == [0, 0, 0, 1]
  {
    var logs := [Attendance("intern", "2024-01-01", 0, 30)];
    assert Scores(logs) == [0];
    assert Truthy([0]) == [];
    assert LastK([0], 15) == [0];
    BandValuesOfZero();
  }

  lemma BandValuesOfZero()
    ensures BandValues([]) == [0, 0, 0, 0]
    ensures BandValues([0]) == [0, 0, 0, 1]
  {
    assert CountIn(Excellent, [0]) == 0 + CountIn(Excellent, []);
    assert CountIn(Good, [0]) == 0 + CountIn(Good, []);
    assert CountIn(Average, [0]) == 0 + CountIn(Average, []);
    assert CountIn(Poor, [0]) == 1 + CountIn(Poor, []);
  }

  /** Python's `xs[-k:]` for `k > 0`: the last `k` elements, or all of them. */
  function LastK<T>(xs: seq<T>, k: nat): (r: seq<T>)
    requires k > 0
    ensures |r| == if |xs| < k then |xs| else k
    ensures forall i | 0 <= i < |r| :: r[i] == xs[|xs| - |r| + i]
  {
    if |xs| <= k then xs else xs[|xs| - k..]
  }

  /** Windowing the dates, the scores or the durations picks the same sessions. */
  lemma WindowsAligned(logs: seq<Attendance>, k: nat)
    requires k > 0
    ensures |LastK(Dates(logs), k)| == |LastK(Scores(logs), k)| == |LastK(Durations(logs), k)|
      == |LastK(logs, k)|
    ensures forall i | 0 <= i < |LastK(logs, k)| ::
      LastK(Dates(logs), k)[i] == LastK(logs, k)[i].date &&
      LastK(Scores(logs), k)[i] == LastK(logs, k)[i].score &&
      LastK(Durations(logs), k)[i] == LastK(logs, k)[i].duration
  {
  }

  /**
   * The velocity chart: nothing for an empty history, otherwise the last
   * 15 dates and scores and the band counts of those scores, with no
   * filtering of zeros.
   */
  function VelocityChart(logs: seq<Attendance>): (r: Option<(seq<string>, seq<int>, seq<nat>)>)
    ensures logs == [] <==> r.None?
  {
    if logs == [] then None
    else
      var scores := LastK(Scores(logs), 15);
      Some((LastK(Dates(logs), 15), scores, BandValues(scores)))
  }

  lemma VelocityChartWindow(logs: seq<Attendance>)
    requires logs != []
    ensures var (dates, scores, values) := VelocityChart(logs).value;
      |dates| == |scores| == (if |logs| < 15 then |logs| else 15) &&
      values[0] + values[1] + values[2] + values[3] == |scores| &&
      forall i | 0 <= i < |scores| :: scores[i] == logs[|logs| - |scores| + i].score &&
        dates[i] == logs[|logs| - |scores| + i].date
  {
    BandCountsSum(LastK(Scores(logs), 15));
  }

  /** The analysis chart's windows: the last 10 dates, scores and durations. */
  function AnalysisWindows(logs: seq<Attendance>): (r: Option<(seq<string>, seq<int>, seq<int>)>)
    ensures logs == [] <==> r.None?
  {
    if logs == [] then None
    else Some((LastK(Dates(logs), 10), LastK(Scores(logs), 10), LastK(Durations(logs), 10)))
  }

  lemma AnalysisWindowsAligned(logs: seq<Attendance>)
    requires logs != []
    ensures var (dates, scores, durations) := AnalysisWindows(logs).value;
      |dates| == |scores| == |durations| == (if |logs| < 10 then |logs| else 10) &&
      forall i | 0 <= i < |scores| :: dates[i] == LastK(logs, 10)[i].date &&
        scores[i] == LastK(logs, 10)[i].score && durations[i] == LastK(logs, 10)[i].duration
  {
    WindowsAligned(logs, 10);
  }

  /** The skill-gap pie's values: the match, then what is left of 100, never negative. */
  function GapValues(similarity: real): (values: seq<real>)
    ensures |values| == 2 && values[0] == similarity && values[1] >= 0.0
    ensures similarity <= 100.0 ==> values[0] + values[1] == 100.0
    ensures similarity >= 100.0 ==> values[1] == 0.0
  {
    [similarity, if 100.0 - similarity > 0.0 then 100.0 - similarity else 0.0]
  }
}
