/**
 * The stored records the dashboards compute over, and the few list
 * operations on them that several views share.
 */
module Records {
  import opened Wrappers

  /** One logged learning session. */
  datatype Attendance = Attendance(internId: string, date: string, score: int, duration: int)

  /** An intern; `similarity` is present when the skill analysis holds one. */
  datatype Intern = Intern(id: string, name: string, onboarded: bool, assignedJobId: string,
                           similarity: Option<real>)

  /** The sessions of one intern, in the order they are stored. */
  function SessionsOf(logs: seq<Attendance>, id: string): (r: seq<Attendance>)
    ensures |r| <= |logs|
    ensures forall k | 0 <= k < |r| :: r[k].internId == id
  {
    if logs == [] then []
    else if logs[0].internId == id then [logs[0]] + SessionsOf(logs[1..], id)
    else SessionsOf(logs[1..], id)
  }

  /**
   * The sessions of an intern are exactly the stored sessions carrying that
   * intern's id, each as often as it is stored.
   */
  lemma {:induction false} SessionsOfMembers(logs: seq<Attendance>, id: string)
    ensures forall a :: multiset(SessionsOf(logs, id))[a] == if a.internId == id then multiset(logs)[a] else 0
    ensures forall a :: a in SessionsOf(logs, id) <==> a in logs && a.internId == id
  {
    if logs != [] {
      SessionsOfMembers(logs[1..], id);
      assert logs == [logs[0]] + logs[1..];
      assert multiset(logs) == multiset{logs[0]} + multiset(logs[1..]);
    }
  }

  function Sum(xs: seq<int>): int {
    if xs == [] then 0 else xs[0] + Sum(xs[1..])
  }

  function RealSum(xs: seq<real>): real {
    if xs == [] then 0.0 else xs[0] + RealSum(xs[1..])
  }

  lemma {:induction false} SumAppend(xs: seq<int>, x: int)
    ensures Sum(xs + [x]) == Sum(xs) + x
  {
    if xs != [] {
      SumAppend(xs[1..], x);
      assert (xs + [x])[1..] == xs[1..] + [x];
    }
  }

  lemma {:induction false} RealSumAppend(xs: seq<real>, x: real)
    ensures RealSum(xs + [x]) == RealSum(xs) + x
  {
    if xs != [] {
      RealSumAppend(xs[1..], x);
      assert (xs + [x])[1..] == xs[1..] + [x];
    }
  }

  /** The mean of a non-empty list of scores. */
  function Mean(xs: seq<int>): real
    requires xs != []
  {
    Sum(xs) as real / |xs| as real
  }

  /** A mean of scores between `lo` and `hi` is itself between them. */
  lemma MeanWithin(xs: seq<int>, lo: int, hi: int)
    requires xs != [] && forall k | 0 <= k < |xs| :: lo <= xs[k] <= hi
    ensures lo as real <= Mean(xs) <= hi as real
  {
    SumBounds(xs, lo, hi);
    MeanBounds(Sum(xs) as real, |xs|, lo as real, hi as real);
  }

  function Scores(logs: seq<Attendance>): (r: seq<int>)
    ensures |r| == |logs| && forall k | 0 <= k < |r| :: r[k] == logs[k].score
  {
    seq(|logs|, k requires 0 <= k < |logs| => logs[k].score)
  }

  function Dates(logs: seq<Attendance>): (r: seq<string>)
    ensures |r| == |logs| && forall k | 0 <= k < |r| :: r[k] == logs[k].date
  {
    seq(|logs|, k requires 0 <= k < |logs| => logs[k].date)
  }

  function Durations(logs: seq<Attendance>): (r: seq<int>)
    ensures |r| == |logs| && forall k | 0 <= k < |r| :: r[k] == logs[k].duration
  {
    seq(|logs|, k requires 0 <= k < |logs| => logs[k].duration)
  }

  /** The sum of values each within `[lo, hi]` lies within `[n * lo, n * hi]`. */
  lemma {:induction false} SumBounds(xs: seq<int>, lo: int, hi: int)
    requires forall k | 0 <= k < |xs| :: lo <= xs[k] <= hi
    ensures |xs| * lo <= Sum(xs) <= |xs| * hi
  {
    if xs != [] {
      SumBounds(xs[1..], lo, hi);
    }
  }

  lemma {:induction false} RealSumBounds(xs: seq<real>, lo: real, hi: real)
    requires forall k | 0 <= k < |xs| :: lo <= xs[k] <= hi
    ensures |xs| as real * lo <= RealSum(xs) <= |xs| as real * hi
  {
    if xs != [] {
      RealSumBounds(xs[1..], lo, hi);
    }
  }

  /** The mean of a non-empty list lies between any bounds of its values. */
  lemma MeanBounds(total: real, n: nat, lo: real, hi: real)
    requires n > 0 && n as real * lo <= total <= n as real * hi
    ensures lo <= total / n as real <= hi
  {
    var m := total / n as real;
    assert m * n as real == total;
  }
}
