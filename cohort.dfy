/**
 * The admin hub's cohort views: the intern counters and average score of
 * the cohort page, the leaderboard of top performers and the per-track
 * table of the analytics page.
 */
module Cohort {
  import opened Wrappers
  import opened Lists
  import opened Records

  /** The leaderboard's size. */
  const LeaderboardSize: nat := 10

  /** `sum(1 for x in xs if p(x))`. */
  function CountWhere<T>(p: T -> bool, xs: seq<T>): (n: nat)
    ensures n <= |xs|
  {
    if xs == [] then 0 else (if p(xs[0]) then 1 else 0) + CountWhere(p, xs[1..])
  }

  /** The count reaches the length exactly when all match, and 0 exactly when none does. */
  lemma {:induction false} CountWhereExtremes<T>(p: T -> bool, xs: seq<T>)
    ensures CountWhere(p, xs) == |xs| <==> forall k | 0 <= k < |xs| :: p(xs[k])
    ensures CountWhere(p, xs) == 0 <==> forall k | 0 <= k < |xs| :: !p(xs[k])
  {
    if xs != [] {
      CountWhereExtremes(p, xs[1..]);
      assert forall k | 1 <= k < |xs| :: xs[1..][k - 1] == xs[k];
    }
  }

  /** "Onboarded": interns whose onboarding is done. */
  function Onboarded(interns: seq<Intern>): (n: nat)
    ensures n <= |interns|
    ensures n == |interns| <==> forall k | 0 <= k < |interns| :: interns[k].onboarded
    ensures n == 0 <==> forall k | 0 <= k < |interns| :: !interns[k].onboarded
  {
    CountWhereExtremes((i: Intern) => i.onboarded, interns);
    CountWhere((i: Intern) => i.onboarded, interns)
  }

  /** "Active": interns with at least one logged session. */
  function Active(interns: seq<Intern>, logs: seq<Attendance>): (n: nat)
    ensures n <= |interns|
    ensures n == |interns| <==> forall k | 0 <= k < |interns| :: SessionsOf(logs, interns[k].id) != []
    ensures n == 0 <==> forall k | 0 <= k < |interns| :: SessionsOf(logs, interns[k].id) == []
  {
    CountWhereExtremes((i: Intern) => SessionsOf(logs, i.id) != [], interns);
    CountWhere((i: Intern) => SessionsOf(logs, i.id) != [], interns)
  }

  /** One leaderboard row; the track title and the rounding are not modelled. */
  datatype LeaderRow = LeaderRow(name: string, avgScore: real, sessions: nat, totalHours: real)

  /** The row an intern contributes: none without sessions. */
  function RowOf(logs: seq<Attendance>, intern: Intern): seq<LeaderRow> {
    var att := SessionsOf(logs, intern.id);
    if att == [] then []
    else [LeaderRow(intern.name, Mean(Scores(att)), |att|, Sum(Durations(att)) as real / 60.0)]
  }

  function Rows(interns: seq<Intern>, logs: seq<Attendance>): seq<LeaderRow> {
    FlatMap((i: Intern) => RowOf(logs, i), interns)
  }

  /** The loop that builds `intern_scores`, one row per intern with sessions. */
  method LeaderRows(interns: seq<Intern>, logs: seq<Attendance>) returns (rows: seq<LeaderRow>)
    ensures rows == Rows(interns, logs)
  {
    rows := [];
    for n := 0 to |interns|
      invariant rows == Rows(interns[..n], logs)
    {
      var intern := interns[n];
      RowsStep(interns, logs, n);
      var attendance := SessionsOf(logs, intern.id);
      if attendance != [] {
        var avgScore := Mean(Scores(attendance));
        var totalDuration := Sum(Durations(attendance));
        rows := rows + [LeaderRow(intern.name, avgScore, |attendance|, totalDuration as real / 60.0)];
      }
    }
    assert interns[..|interns|] == interns;
  }

  lemma RowsStep(interns: seq<Intern>, logs: seq<Attendance>, n: nat)
    requires n < |interns|
    ensures Rows(interns[..n + 1], logs) == Rows(interns[..n], logs) + RowOf(logs, interns[n])
    ensures var att := SessionsOf(logs, interns[n].id);
      RowOf(logs, interns[n]) == if att == [] then [] else
        [LeaderRow(interns[n].name, Mean(Scores(att)), |att|, Sum(Durations(att)) as real / 60.0)]
  {
    FlatMapAppend((i: Intern) => RowOf(logs, i), interns[..n], interns[n]);
    assert interns[..n + 1] == interns[..n] + [interns[n]];
  }

  /** Exactly the active interns get a row, each counting at least one session. */
  lemma {:induction false} RowsOfActive(interns: seq<Intern>, logs: seq<Attendance>)
    ensures |Rows(interns, logs)| == Active(interns, logs)
    ensures forall r | r in Rows(interns, logs) :: r.sessions >= 1
  {
    if interns != [] {
      RowsOfActive(interns[1..], logs);
    }
  }

  /** Rows in descending order of average score. */
  predicate Descending(rows: seq<LeaderRow>) {
    forall i, j | 0 <= i < j < |rows| :: rows[i].avgScore >= rows[j].avgScore
  }

  /** Insert a row into a descending list behind every row with a greater average. */
  function InsertRow(x: LeaderRow, rows: seq<LeaderRow>): (r: seq<LeaderRow>)
    requires Descending(rows)
    ensures Descending(r)
    ensures multiset(r) == multiset(rows) + multiset{x}
  {
    if rows == [] then [x]
    else if x.avgScore >= rows[0].avgScore then [x] + rows
    else
      assert rows == [rows[0]] + rows[1..];
      var rest := InsertRow(x, rows[1..]);
      InsertRowBehind(rows[0], rest, rows[1..], x);
      [rows[0]] + rest
  }

  lemma InsertRowBehind(y: LeaderRow, rest: seq<LeaderRow>, rows: seq<LeaderRow>, x: LeaderRow)
    requires Descending(rest) && Descending([y] + rows) && y.avgScore >= x.avgScore
    requires multiset(rest) == multiset(rows) + multiset{x}
    ensures Descending([y] + rest)
  {
    var r := [y] + rest;
    forall i, j | 0 <= i < j < |r| ensures r[i].avgScore >= r[j].avgScore {
      if i == 0 {
        var z := rest[j - 1];
        assert z in multiset(rest);
        if z != x {
          assert z in multiset(rows);
          var m :| 0 <= m < |rows| && rows[m] == z;
          assert ([y] + rows)[0] == y && ([y] + rows)[m + 1] == z;
        }
      } else {
        assert r[i] == rest[i - 1] && r[j] == rest[j - 1];
      }
    }
  }

  /** `sort_values('Avg Score', ascending=False)`: the same rows, best average first. */
  function SortDescending(rows: seq<LeaderRow>): (r: seq<LeaderRow>)
    ensures Descending(r)
    ensures multiset(r) == multiset(rows)
  {
    if rows == [] then []
    else
      assert rows == [rows[0]] + rows[1..];
      InsertRow(rows[0], SortDescending(rows[1..]))
  }

  /** The leaderboard: the best ten of the rows. */
  function Leaderboard(rows: seq<LeaderRow>): (top: seq<LeaderRow>)
    ensures |top| == if |rows| < LeaderboardSize then |rows| else LeaderboardSize
    ensures Descending(top)
    ensures forall r | r in top :: r in rows
    ensures multiset(top) <= multiset(rows)
  {
    var sorted := SortDescending(rows);
    assert |sorted| == |multiset(sorted)| == |rows|;
    var top := if |sorted| <= LeaderboardSize then sorted else sorted[..LeaderboardSize];
    assert sorted == top + sorted[|top|..];
    assert multiset(sorted) == multiset(top) + multiset(sorted[|top|..]);
    assert forall r | r in top :: r in multiset(sorted);
    top
  }

  /** A row left off the leaderboard has no better average than any row on it. */
  lemma LeaderboardKeepsBest(rows: seq<LeaderRow>)
    ensures forall r, t | r in rows && r !in Leaderboard(rows) && t in Leaderboard(rows) ::
      r.avgScore <= t.avgScore
  {
    var sorted := SortDescending(rows);
    assert |sorted| == |multiset(sorted)| == |rows|;
    var top := Leaderboard(rows);
    assert top == sorted[..|top|];
    forall r, t | r in rows && r !in top && t in top ensures r.avgScore <= t.avgScore {
      assert r in multiset(sorted);
      var i :| 0 <= i < |sorted| && sorted[i] == r;
      var j :| 0 <= j < |top| && top[j] == t;
      assert sorted[j] == t;
    }
  }

  /** The averages the cohort page takes the mean of, one per active intern. */
  function AverageScores(rows: seq<LeaderRow>): (r: seq<real>)
    ensures |r| == |rows| && forall k | 0 <= k < |rows| :: r[k] == rows[k].avgScore
  {
    seq(|rows|, k requires 0 <= k < |rows| => rows[k].avgScore)
  }

  lemma AverageScoresAppend(rows: seq<LeaderRow>, row: LeaderRow)
    ensures RealSum(AverageScores(rows + [row])) == RealSum(AverageScores(rows)) + row.avgScore
  {
    assert AverageScores(rows + [row]) == AverageScores(rows) + [row.avgScore];
    RealSumAppend(AverageScores(rows), row.avgScore);
  }

  lemma CohortStep(interns: seq<Intern>, logs: seq<Attendance>, n: nat)
    requires n < |interns|
    ensures var att := SessionsOf(logs, interns[n].id);
      |Rows(interns[..n + 1], logs)| == |Rows(interns[..n], logs)| + (if att == [] then 0 else 1) &&
      RealSum(AverageScores(Rows(interns[..n + 1], logs))) ==
        RealSum(AverageScores(Rows(interns[..n], logs))) + (if att == [] then 0.0 else Mean(Scores(att)))
  {
    RowsStep(interns, logs, n);
    var att := SessionsOf(logs, interns[n].id);
    if att != [] {
      var row := LeaderRow(interns[n].name, Mean(Scores(att)), |att|, Sum(Durations(att)) as real / 60.0);
      assert RowOf(logs, interns[n]) == [row];
      AverageScoresAppend(Rows(interns[..n], logs), row);
    } else {
      assert RowOf(logs, interns[n]) == [];
      assert Rows(interns[..n + 1], logs) == Rows(interns[..n], logs);
    }
  }

  /**
   * The "Avg Score" counter: the mean over active interns of each one's
   * mean score, or nothing ("N/A") when no intern is active. Zero scores,
   * which the page filters out of the sum, add nothing to it.
   */
  method CohortAverage(interns: seq<Intern>, logs: seq<Attendance>) returns (avg: Option<real>)
    ensures avg.None? <==> Active(interns, logs) == 0
    ensures avg.Some? ==>
      avg.value == RealSum(AverageScores(Rows(interns, logs))) / Active(interns, logs) as real
  {
    var total := 0.0;
    var count := 0;
    for n := 0 to |interns|
      invariant count == |Rows(interns[..n], logs)|
      invariant total == RealSum(AverageScores(Rows(interns[..n], logs)))
    {
      var intern := interns[n];
      CohortStep(interns, logs, n);
      var attendance := SessionsOf(logs, intern.id);
      if attendance != [] {
        total := total + Sum(Scores(attendance)) as real / |attendance| as real;
        count := count + 1;
      }
    }
    assert interns[..|interns|] == interns;
    RowsOfActive(interns, logs);
    if count > 0 {
      avg := Some(total / count as real);
    } else {
      avg := None;
    }
  }

  /** With every score between 0 and 10, so is each intern's mean and the cohort's. */
  lemma CohortAverageWithin(interns: seq<Intern>, logs: seq<Attendance>)
    requires forall k | 0 <= k < |logs| :: 0 <= logs[k].score <= 10
    requires Active(interns, logs) > 0
    ensures var rows := Rows(interns, logs);
      0.0 <= RealSum(AverageScores(rows)) / Active(interns, logs) as real <= 10.0
  {
    var rows := Rows(interns, logs);
    RowsOfActive(interns, logs);
    RowScoresWithin(interns, logs);
    RealSumBounds(AverageScores(rows), 0.0, 10.0);
    MeanBounds(RealSum(AverageScores(rows)), |rows|, 0.0, 10.0);
  }

  lemma {:induction false} RowScoresWithin(interns: seq<Intern>, logs: seq<Attendance>)
    requires forall k | 0 <= k < |logs| :: 0 <= logs[k].score <= 10
    ensures forall r | r in Rows(interns, logs) :: 0.0 <= r.avgScore <= 10.0
  {
    if interns != [] {
      RowScoresWithin(interns[1..], logs);
      var att := SessionsOf(logs, interns[0].id);
      if att != [] {
        SessionsOfMembers(logs, interns[0].id);
        MeanWithin(Scores(att), 0, 10);
      }
    }
  }

  /** One bar of the track chart. */
  datatype TrackRow = TrackRow(track: string, interns: nat, avgMatch: real)

  datatype Job = Job(id: string, title: string)

  /** `[i for i in interns if i['assigned_job_id'] == job['id']]`. */
  function Members(interns: seq<Intern>, jobId: string): (r: seq<Intern>)
    ensures |r| <= |interns|
    ensures forall k | 0 <= k < |r| :: r[k].assignedJobId == jobId
  {
    if interns == [] then []
    else (if interns[0].assignedJobId == jobId then [interns[0]] else []) + Members(interns[1..], jobId)
  }

  /** The similarities present among some interns, in order. */
  function Similarities(interns: seq<Intern>): seq<real> {
    FlatMap((i: Intern) => if i.similarity.Some? then [i.similarity.value] else [], interns)
  }

  /** "Avg Match": the mean of the similarities present, or 0 when none is. */
  function MatchAverage(members: seq<Intern>): real {
    var sims := Similarities(members);
    if |sims| > 0 then RealSum(sims) / |sims| as real else 0.0
  }

  lemma SimilaritiesStep(members: seq<Intern>, n: nat)
    requires n < |members|
    ensures Similarities(members[..n + 1]) == Similarities(members[..n]) +
      (if members[n].similarity.Some? then [members[n].similarity.value] else [])
  {
    FlatMapAppend((i: Intern) => if i.similarity.Some? then [i.similarity.value] else [],
      members[..n], members[n]);
    assert members[..n + 1] == members[..n] + [members[n]];
  }

  /** The averaging loop over a track's interns. */
  method AverageMatch(members: seq<Intern>) returns (avg: real)
    ensures avg == MatchAverage(members)
  {
    var total := 0.0;
    var count := 0;
    for n := 0 to |members|
      invariant total == RealSum(Similarities(members[..n]))
      invariant count == |Similarities(members[..n])|
    {
      var intern := members[n];
      SimilaritiesStep(members, n);
      if intern.similarity.Some? {
        assert Similarities(members[..n + 1]) == Similarities(members[..n]) + [intern.similarity.value];
        RealSumAppend(Similarities(members[..n]), intern.similarity.value);
        total := total + intern.similarity.value;
        count := count + 1;
      } else {
        assert Similarities(members[..n + 1]) == Similarities(members[..n]);
      }
    }
    assert members[..|members|] == members;
    avg := if count > 0 then total / count as real else 0.0;
  }

  /** With every similarity a percentage, so is the track's average match. */
  lemma MatchAverageWithin(members: seq<Intern>)
    requires forall k | 0 <= k < |members| :: members[k].similarity.Some? ==>
      0.0 <= members[k].similarity.value <= 100.0
    ensures 0.0 <= MatchAverage(members) <= 100.0
  {
    var sims := Similarities(members);
    SimilaritiesWithin(members);
    if |sims| > 0 {
      RealSumBounds(sims, 0.0, 100.0);
      MeanBounds(RealSum(sims), |sims|, 0.0, 100.0);
    }
  }

  lemma {:induction false} SimilaritiesWithin(members: seq<Intern>)
    requires forall k | 0 <= k < |members| :: members[k].similarity.Some? ==>
      0.0 <= members[k].similarity.value <= 100.0
    ensures forall k | 0 <= k < |Similarities(members)| :: 0.0 <= Similarities(members)[k] <= 100.0
  {
    if members != [] {
      SimilaritiesWithin(members[1..]);
      var head := if members[0].similarity.Some? then [members[0].similarity.value] else [];
      assert Similarities(members) == head + Similarities(members[1..]);
    }
  }

  /** The bar a job contributes: none when no intern is assigned to it. */
  function TrackRowOf(interns: seq<Intern>, job: Job): seq<TrackRow> {
    var members := Members(interns, job.id);
    if members == [] then [] else [TrackRow(job.title, |members|, MatchAverage(members))]
  }

  function TrackRows(jobs: seq<Job>, interns: seq<Intern>): seq<TrackRow> {
    FlatMap((j: Job) => TrackRowOf(interns, j), jobs)
  }

  /** The loop that builds `track_data`. */
  method TrackTable(jobs: seq<Job>, interns: seq<Intern>) returns (rows: seq<TrackRow>)
    ensures rows == TrackRows(jobs, interns)
  {
    rows := [];
    for n := 0 to |jobs|
      invariant rows == TrackRows(jobs[..n], interns)
    {
      var job := jobs[n];
      FlatMapAppend((j: Job) => TrackRowOf(interns, j), jobs[..n], job);
      assert jobs[..n + 1] == jobs[..n] + [job];
      var internsInTrack := Members(interns, job.id);
      if internsInTrack != [] {
        var avgSimilarity := AverageMatch(internsInTrack);
        rows := rows + [TrackRow(job.title, |internsInTrack|, avgSimilarity)];
      }
    }
    assert jobs[..|jobs|] == jobs;
  }

  /**
   * The table has a row for each job with an assigned intern, in job order,
   * counting at least one intern.
   */
  lemma {:induction false} TrackRowsShape(jobs: seq<Job>, interns: seq<Intern>)
    ensures |TrackRows(jobs, interns)| == CountWhere((j: Job) => Members(interns, j.id) != [], jobs)
    ensures forall r | r in TrackRows(jobs, interns) :: r.interns >= 1
  {
    if jobs != [] {
      TrackRowsShape(jobs[1..], interns);
      assert TrackRows(jobs, interns) == TrackRowOf(interns, jobs[0]) + TrackRows(jobs[1..], interns);
    }
  }

  /** A job's count is the number of interns assigned to it. */
  lemma {:induction false} MembersCount(interns: seq<Intern>, jobId: string)
    ensures |Members(interns, jobId)| == CountWhere((i: Intern) => i.assignedJobId == jobId, interns)
  {
    if interns != [] {
      MembersCount(interns[1..], jobId);
    }
  }
}
