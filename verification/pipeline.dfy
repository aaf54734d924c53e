/**
  The two stages together: the table the acquisition loop logs is the table
  the reconstruction step loads. Facts about the log (contiguous profile
  numbers, whole profiles in order) become facts about the point cloud.
 */
module Pipeline {

  import A = Acquisition
  import R = Reconstruct
  import opened Numbering

  /** The logged rows as the reconstruction step loads them, column for column. */
  function Load(rows: seq<A.Row>): seq<R.Row>
  {
    seq(|rows|, j requires 0 <= j < |rows| =>
          R.Row(rows[j].profile, rows[j].point, rows[j].x, rows[j].z, rows[j].intensity))
  }

  /**
    The distinct profile count the reconstruction finds in a log equals the
    number of accepted ticks; the log is empty exactly when no tick was
    accepted, which is the case the reconstruction rejects.
   */
  lemma LoggedProfileCount(resolution: nat, ticks: seq<A.Tick>)
    requires A.AllWellFormed(resolution, ticks)
    requires resolution > 0
    ensures var table := Load(A.Run(resolution, ticks).rows);
            && R.Profiles(table) == ProfileRange(|A.AcceptedFrames(resolution, ticks)|)
            && R.NumProfiles(table) == |A.AcceptedFrames(resolution, ticks)|
            && (|table| == 0 <==> |A.AcceptedFrames(resolution, ticks)| == 0)
  {
    var s := A.Run(resolution, ticks);
    var table := Load(s.rows);
    A.ProfileNumbersContiguous(resolution, ticks);
    A.CounterCountsAccepted(resolution, ticks);
    A.RowsAreAcceptedFramesInOrder(resolution, ticks);
    forall p | p in R.Profiles(table) ensures p in (set r <- s.rows :: r.profile) {
      var j :| 0 <= j < |table| && table[j].profile == p;
      assert s.rows[j] in s.rows;
    }
    forall p | p in (set r <- s.rows :: r.profile) ensures p in R.Profiles(table) {
      var j :| 0 <= j < |s.rows| && s.rows[j].profile == p;
      assert table[j] in table;
    }
    R.ContiguousProfilesCount(table, s.counter);
  }

  /**
    In the table loaded from a log with N >= 1 accepted profiles, row j
    belongs to profile j / resolution + 1, and the Y the reconstruction
    assigns to it, (Profile_Number - 1) * step, lies within [0, total).
   */
  lemma LoggedY(resolution: nat, ticks: seq<A.Tick>, total: real, j: nat)
    requires A.AllWellFormed(resolution, ticks)
    requires |A.AcceptedFrames(resolution, ticks)| > 0 && total > 0.0
    requires j < |A.Run(resolution, ticks).rows|
    ensures resolution > 0
    ensures var table := Load(A.Run(resolution, ticks).rows);
            var step := R.YStep(total, R.NumProfiles(table));
            && step.Ok?
            && |table| == |A.Run(resolution, ticks).rows|
            && table[j].profile == j / resolution + 1
            && 0.0 <= R.ProfileY(table[j].profile, step.value) < total
  {
    var rows := A.Run(resolution, ticks).rows;
    var table := Load(rows);
    A.RowNumbering(resolution, ticks, j);
    A.DivMonotone(0, j, resolution);
    var k: nat := j / resolution;
    assert rows[j].profile == k + 1;
    assert table[j].profile == rows[j].profile;
    LoggedProfileCount(resolution, ticks);
    R.RowY(table, total, |A.AcceptedFrames(resolution, ticks)|, j);
  }

  /**
    The Y the reconstruction assigns to the rows of a log never decreases
    with the row index, and it strictly increases from one profile's block
    of rows to the next.
   */
  lemma LoggedYsOrdered(resolution: nat, ticks: seq<A.Tick>, total: real, j1: nat, j2: nat)
    requires A.AllWellFormed(resolution, ticks)
    requires |A.AcceptedFrames(resolution, ticks)| > 0 && total > 0.0
    requires j1 <= j2 < |A.Run(resolution, ticks).rows|
    ensures resolution > 0
    ensures var table := Load(A.Run(resolution, ticks).rows);
            var step := R.YStep(total, R.NumProfiles(table));
            && step.Ok?
            && |table| == |A.Run(resolution, ticks).rows|
            && R.ProfileY(table[j1].profile, step.value) <= R.ProfileY(table[j2].profile, step.value)
            && (j1 / resolution < j2 / resolution <==>
                  R.ProfileY(table[j1].profile, step.value) < R.ProfileY(table[j2].profile, step.value))
  {
    var table := Load(A.Run(resolution, ticks).rows);
    var n := |A.AcceptedFrames(resolution, ticks)|;
    A.RowNumbering(resolution, ticks, j1);
    A.RowNumbering(resolution, ticks, j2);
    A.DivMonotone(j1, j2, resolution);
    LoggedProfileCount(resolution, ticks);
    R.RowY(table, total, n, j1);
    var p1, p2 := table[j1].profile, table[j2].profile;
    R.ProfileYOrder(p1, p2, R.YStep(total, R.NumProfiles(table)).value);
  }
}
