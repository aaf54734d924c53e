/**
  The real-time acquisition loop of the profile scanner: every animation tick
  reads one raw profile from the sensor, converts it, and — only when the read
  was complete and all three conversion channels were produced — numbers the
  profile, appends one CSV row per point and flushes the file every tenth
  profile.

  The device, the plot and the file are abstracted away: a tick is described
  by what the device returned (`Tick`), and the loop is a left fold of `Step`
  over the ticks, producing the profile counter, the data rows written after
  the CSV header and the flush events (`Logger`).
 */
module Acquisition {

  import opened Numbering

  /** Intensities arrive in an unsigned 16-bit array. */
  type UInt16 = i: int | 0 <= i < 0x1_0000

  /** Each point of a profile occupies 64 bytes of the raw profile buffer. */
  const BytesPerPoint: nat := 64

  /** The CSV file is flushed whenever the profile counter reaches a multiple of this. */
  const FlushEvery: nat := 10

  /** Column names of the first CSV row. */
  const HeaderColumns: seq<string> := ["Profile_Number", "Point_Index", "X", "Z", "Intensity"]

  /** Size in bytes of the raw profile buffer for a given resolution. */
  function BufferLength(resolution: nat): nat
  {
    resolution * BytesPerPoint
  }

  /** The three channel bits of the conversion routine's return value. */
  datatype ConvertFlags = ConvertFlags(x: bool, z: bool, maximum: bool)

  /**
    What one tick observed: the number of bytes the profile read returned,
    the conversion flags, and the converted x, z and intensity arrays.
   */
  datatype Tick = Tick(received: int, flags: ConvertFlags,
                       xs: seq<real>, zs: seq<real>, intensities: seq<UInt16>)

  /** The converted arrays are allocated with exactly `resolution` entries. */
  predicate WellFormed(resolution: nat, t: Tick)
  {
    |t.xs| == resolution && |t.zs| == resolution && |t.intensities| == resolution
  }

  /** Every tick of a sequence is well formed. */
  predicate AllWellFormed(resolution: nat, ticks: seq<Tick>)
  {
    forall j :: 0 <= j < |ticks| ==> WellFormed(resolution, ticks[j])
  }

  /** A tick is accepted when the whole buffer was read and X, Z and MAXIMUM were all converted. */
  predicate Accepted(resolution: nat, t: Tick)
  {
    && t.received == BufferLength(resolution)
    && t.flags.x && t.flags.z && t.flags.maximum
  }

  /** One CSV data row: (Profile_Number, Point_Index, X, Z, Intensity). */
  datatype Row = Row(profile: nat, point: nat, x: real, z: real, intensity: UInt16)

  /** One line of the CSV file. */
  datatype Record = HeaderRecord(columns: seq<string>) | DataRecord(row: Row)

  /**
    The loop's observable state: the profile counter, the data rows written
    after the header, and the counter value at each forced flush.
   */
  datatype Logger = Logger(counter: nat, rows: seq<Row>, flushes: seq<nat>)

  /** The state before the first tick: counter 0, header only, no flush. */
  const Start: Logger := Logger(0, [], [])

  /** The rows written for one accepted profile, point by point. */
  function FrameRows(profile: nat, t: Tick): seq<Row>
    requires |t.zs| == |t.xs| && |t.intensities| == |t.xs|
  {
    seq(|t.xs|, i requires 0 <= i < |t.xs| => Row(profile, i, t.xs[i], t.zs[i], t.intensities[i]))
  }

  /** One tick of the acquisition loop. */
  function Step(resolution: nat, s: Logger, t: Tick): (s': Logger)
    requires WellFormed(resolution, t)
    ensures Accepted(resolution, t) <==> s'.counter == s.counter + 1
    ensures !Accepted(resolution, t) ==> s' == s
    ensures Accepted(resolution, t) ==>
              && |s'.rows| == |s.rows| + resolution
              && s'.rows[..|s.rows|] == s.rows
              && forall i :: 0 <= i < resolution ==>
                   s'.rows[|s.rows| + i] == Row(s'.counter, i, t.xs[i], t.zs[i], t.intensities[i])
    ensures |s.flushes| <= |s'.flushes| <= |s.flushes| + 1
    ensures s'.flushes[..|s.flushes|] == s.flushes
    ensures |s'.flushes| == |s.flushes| + 1 <==> Accepted(resolution, t) && s'.counter % FlushEvery == 0
    ensures |s'.flushes| == |s.flushes| + 1 ==> s'.flushes[|s.flushes|] == s'.counter
  {
    if Accepted(resolution, t) then
      var k := s.counter + 1;
      Logger(k, s.rows + FrameRows(k, t), if k % FlushEvery == 0 then s.flushes + [k] else s.flushes)
    else
      s
  }

  /** The state after a sequence of ticks, starting from `Start`. */
  function Run(resolution: nat, ticks: seq<Tick>): (s: Logger)
    requires AllWellFormed(resolution, ticks)
    ensures s.counter <= |ticks|
    ensures |s.flushes| <= |ticks|
    decreases |ticks|
  {
    if |ticks| == 0 then Start
    else Step(resolution, Run(resolution, ticks[..|ticks| - 1]), ticks[|ticks| - 1])
  }

  /** The accepted ticks, in acquisition order: an independent description of which profiles are kept. */
  function AcceptedFrames(resolution: nat, ticks: seq<Tick>): (a: seq<Tick>)
    ensures |a| <= |ticks|
    ensures forall j :: 0 <= j < |a| ==> Accepted(resolution, a[j])
    ensures AllWellFormed(resolution, ticks) ==> AllWellFormed(resolution, a)
    decreases |ticks|
  {
    if |ticks| == 0 then []
    else
      var a := AcceptedFrames(resolution, ticks[..|ticks| - 1]);
      var t := ticks[|ticks| - 1];
      if Accepted(resolution, t) then a + [t] else a
  }

  /**
    The accepted ticks are exactly the ticks that pass both checks: each one
    comes from the ticks, and no passing tick is dropped.
   */
  lemma {:induction false} AcceptedFramesExact(resolution: nat, ticks: seq<Tick>)
    ensures forall t :: t in AcceptedFrames(resolution, ticks) ==> t in ticks
    ensures forall j :: 0 <= j < |ticks| && Accepted(resolution, ticks[j]) ==>
              ticks[j] in AcceptedFrames(resolution, ticks)
    decreases |ticks|
  {
    if |ticks| > 0 {
      var init := ticks[..|ticks| - 1];
      AcceptedFramesExact(resolution, init);
      forall j | 0 <= j < |init| ensures init[j] == ticks[j] {
      }
    }
  }

  /** The whole CSV file: the header row, then the data rows. */
  function Csv(s: Logger): seq<Record>
  {
    [HeaderRecord(HeaderColumns)] + seq(|s.rows|, i requires 0 <= i < |s.rows| => DataRecord(s.rows[i]))
  }

  /** The total reported at shutdown is the number of accepted ticks. */
  lemma {:induction false} CounterCountsAccepted(resolution: nat, ticks: seq<Tick>)
    requires AllWellFormed(resolution, ticks)
    ensures Run(resolution, ticks).counter == |AcceptedFrames(resolution, ticks)|
    decreases |ticks|
  {
    if |ticks| > 0 {
      CounterCountsAccepted(resolution, ticks[..|ticks| - 1]);
    }
  }

  /** The rows of the given profiles laid end to end, numbered 1, 2, 3, ... */
  function Layout(resolution: nat, frames: seq<Tick>): (rows: seq<Row>)
    requires AllWellFormed(resolution, frames)
    ensures |rows| == resolution * |frames|
    decreases |frames|
  {
    if |frames| == 0 then []
    else
      var n := |frames|;
      assert resolution * n == resolution * (n - 1) + resolution;
      Layout(resolution, frames[..n - 1]) + FrameRows(n, frames[n - 1])
  }

  /**
    The logged rows are exactly the accepted profiles, numbered 1, 2, 3, ...
    in acquisition order, each contributing all of its points in order.
   */
  lemma {:induction false} RowsAreAcceptedFramesInOrder(resolution: nat, ticks: seq<Tick>)
    requires AllWellFormed(resolution, ticks)
    ensures Run(resolution, ticks).rows == Layout(resolution, AcceptedFrames(resolution, ticks))
    decreases |ticks|
  {
    if |ticks| > 0 {
      var init := ticks[..|ticks| - 1];
      var t := ticks[|ticks| - 1];
      assert AllWellFormed(resolution, init);
      RowsAreAcceptedFramesInOrder(resolution, init);
      CounterCountsAccepted(resolution, init);
      if Accepted(resolution, t) {
        var a := AcceptedFrames(resolution, init);
        assert (a + [t])[..|a|] == a;
      }
    }
  }

  /**
    Profile k+1 occupies positions k*resolution .. k*resolution + resolution - 1
    of the layout, point by point, with that profile's converted values.
   */
  lemma {:induction false} LayoutAt(resolution: nat, frames: seq<Tick>, k: nat, i: nat)
    requires AllWellFormed(resolution, frames)
    requires k < |frames| && i < resolution
    ensures k * resolution + i < |Layout(resolution, frames)|
    ensures Layout(resolution, frames)[k * resolution + i]
            == Row(k + 1, i, frames[k].xs[i], frames[k].zs[i], frames[k].intensities[i])
    decreases |frames|
  {
    var n := |frames|;
    var init := frames[..n - 1];
    assert AllWellFormed(resolution, init);
    var prefix := Layout(resolution, init);
    assert |prefix| == (n - 1) * resolution;
    if k == n - 1 {
      assert Layout(resolution, frames)[k * resolution + i] == FrameRows(n, frames[n - 1])[i];
    } else {
      LayoutAt(resolution, init, k, i);
      assert init[k] == frames[k];
    }
  }

  /** Multiplying by the same factor preserves strict order, so it can be cancelled. */
  lemma MulCancel(x: nat, y: nat, d: nat)
    requires x * d < y * d
    ensures x < y
  {
  }

  /** Euclidean quotient by a positive divisor is monotone. */
  lemma DivMonotone(a: nat, b: nat, d: nat)
    requires a <= b && d > 0
    ensures a / d <= b / d
  {
    var qa, qb := a / d, b / d;
    assert qa * d <= a;
    assert b < qb * d + d;
    assert qa * d < (qb + 1) * d;
    MulCancel(qa, qb + 1, d);
  }

  /** A position below n * d splits into a block below n and an offset below d. */
  lemma SplitPosition(j: nat, d: nat, n: nat)
    requires j < d * n
    ensures d > 0
    ensures j / d < n && j % d < d
    ensures (j / d) * d + j % d == j
  {
  }

  /** Position j of a layout is point j % resolution of profile j / resolution + 1. */
  lemma LayoutNumbering(resolution: nat, frames: seq<Tick>, j: nat)
    requires AllWellFormed(resolution, frames)
    requires j < |Layout(resolution, frames)|
    ensures resolution > 0
    ensures var k, i := j / resolution, j % resolution;
            && k < |frames|
            && Layout(resolution, frames)[j]
               == Row(k + 1, i, frames[k].xs[i], frames[k].zs[i], frames[k].intensities[i])
  {
    SplitPosition(j, resolution, |frames|);
    LayoutAt(resolution, frames, j / resolution, j % resolution);
  }

  /** A layout of n profiles uses exactly the profile numbers 1 .. n. */
  lemma LayoutProfiles(resolution: nat, frames: seq<Tick>)
    requires AllWellFormed(resolution, frames)
    requires resolution > 0
    ensures (set r <- Layout(resolution, frames) :: r.profile) == ProfileRange(|frames|)
  {
    var rows := Layout(resolution, frames);
    var used := set r <- rows :: r.profile;
    forall p | p in used ensures p in ProfileRange(|frames|) {
      var j :| 0 <= j < |rows| && rows[j].profile == p;
      LayoutNumbering(resolution, frames, j);
    }
    forall p | p in ProfileRange(|frames|) ensures p in used {
      LayoutAt(resolution, frames, p - 1, 0);
      assert rows[(p - 1) * resolution + 0] in rows;
    }
  }

  /**
    Row j of the log belongs to profile j / resolution + 1, is its point
    j % resolution, and carries that point's converted values.
   */
  lemma RowNumbering(resolution: nat, ticks: seq<Tick>, j: nat)
    requires AllWellFormed(resolution, ticks)
    requires j < |Run(resolution, ticks).rows|
    ensures resolution > 0
    ensures var a := AcceptedFrames(resolution, ticks);
            var k, i := j / resolution, j % resolution;
            && k < |a|
            && Run(resolution, ticks).rows[j]
               == Row(k + 1, i, a[k].xs[i], a[k].zs[i], a[k].intensities[i])
  {
    RowsAreAcceptedFramesInOrder(resolution, ticks);
    LayoutNumbering(resolution, AcceptedFrames(resolution, ticks), j);
  }

  /**
    The Profile_Number values in the log are exactly 1 .. N for N accepted
    ticks: no gaps and no value outside, whatever ticks were rejected.
   */
  lemma ProfileNumbersContiguous(resolution: nat, ticks: seq<Tick>)
    requires AllWellFormed(resolution, ticks)
    requires resolution > 0
    ensures var s := Run(resolution, ticks);
            (set r <- s.rows :: r.profile) == ProfileRange(s.counter)
  {
    CounterCountsAccepted(resolution, ticks);
    RowsAreAcceptedFramesInOrder(resolution, ticks);
    LayoutProfiles(resolution, AcceptedFrames(resolution, ticks));
  }

  /** Every row of profile k precedes every row of a later profile. */
  lemma ProfilesNondecreasing(resolution: nat, ticks: seq<Tick>, j1: nat, j2: nat)
    requires AllWellFormed(resolution, ticks)
    requires j1 <= j2 < |Run(resolution, ticks).rows|
    ensures Run(resolution, ticks).rows[j1].profile <= Run(resolution, ticks).rows[j2].profile
  {
    RowNumbering(resolution, ticks, j1);
    RowNumbering(resolution, ticks, j2);
    DivMonotone(j1, j2, resolution);
  }

  /** The CSV holds the header row followed by resolution * N data rows. */
  lemma {:induction false} CsvShape(resolution: nat, ticks: seq<Tick>)
    requires AllWellFormed(resolution, ticks)
    ensures var s := Run(resolution, ticks);
            var csv := Csv(s);
            && |csv| == 1 + resolution * s.counter
            && csv[0] == HeaderRecord(["Profile_Number", "Point_Index", "X", "Z", "Intensity"])
            && forall j :: 0 < j < |csv| ==> csv[j].DataRecord?
  {
    CounterCountsAccepted(resolution, ticks);
    RowsAreAcceptedFramesInOrder(resolution, ticks);
  }

  /**
    Flushes happen at counters 10, 20, 30, ...: after N accepted ticks there
    have been exactly N / 10 of them.
   */
  lemma {:induction false} FlushSchedule(resolution: nat, ticks: seq<Tick>)
    requires AllWellFormed(resolution, ticks)
    ensures var s := Run(resolution, ticks);
            && |s.flushes| == s.counter / FlushEvery
            && forall f :: 0 <= f < |s.flushes| ==> s.flushes[f] == FlushEvery * (f + 1)
    decreases |ticks|
  {
    if |ticks| > 0 {
      var init := ticks[..|ticks| - 1];
      assert AllWellFormed(resolution, init);
      FlushSchedule(resolution, init);
    }
  }

  /** The counter value at the last forced flush, or 0 before the first one. */
  function LastFlush(s: Logger): nat
  {
    if |s.flushes| == 0 then 0 else s.flushes[|s.flushes| - 1]
  }

  /** At any moment fewer than ten accepted profiles are waiting for a forced flush. */
  lemma UnflushedBelowTen(resolution: nat, ticks: seq<Tick>)
    requires AllWellFormed(resolution, ticks)
    ensures var s := Run(resolution, ticks);
            LastFlush(s) <= s.counter < LastFlush(s) + FlushEvery
  {
    FlushSchedule(resolution, ticks);
  }

  /** Rows and flushes are append-only, and the counter never goes back. */
  lemma {:induction false} RunAppendOnly(resolution: nat, ticks: seq<Tick>, m: nat)
    requires AllWellFormed(resolution, ticks)
    requires m <= |ticks|
    ensures AllWellFormed(resolution, ticks[..m])
    ensures var before, after := Run(resolution, ticks[..m]), Run(resolution, ticks);
            && before.counter <= after.counter
            && |before.rows| <= |after.rows| && after.rows[..|before.rows|] == before.rows
            && |before.flushes| <= |after.flushes| && after.flushes[..|before.flushes|] == before.flushes
    decreases |ticks|
  {
    assert AllWellFormed(resolution, ticks[..m]);
    if m < |ticks| {
      var init := ticks[..|ticks| - 1];
      assert AllWellFormed(resolution, init);
      RunAppendOnly(resolution, init, m);
      assert init[..m] == ticks[..m];
    } else {
      assert ticks[..m] == ticks;
    }
  }
}
