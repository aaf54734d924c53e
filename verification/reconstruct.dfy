/**
  The offline reconstruction step: load the logged profile table, count the
  distinct profile numbers, spread the known total travel distance evenly
  over them to give every row a scan-axis coordinate Y, and write the points
  as an ASCII PLY file with one (X, Y, Z) vertex per row.

  Numbers are exact reals; the file is modelled as a sequence of structured
  lines rather than text.
 */
module Reconstruct {

  import Decimal
  import opened Numbering

  datatype Option<T> = None | Some(value: T)

  /** The only failure: no profile at all, so the step would divide by zero. */
  datatype Error = DivisionByZero

  datatype Result<T> = Ok(value: T) | Err(error: Error)

  /** One row of the loaded table. */
  datatype Row = Row(profile: int, point: int, x: real, z: real, intensity: int)

  /** A row with its reconstructed scan-axis coordinate added. */
  datatype YRow = YRow(row: Row, y: real)

  /** One point of the cloud. */
  datatype Vertex = Vertex(x: real, y: real, z: real)

  /** One line of the PLY file: a header line, or a vertex line. */
  datatype PlyLine = HeaderLine(text: string) | VertexLine(v: Vertex)

  /** The scan-stage travel, in millimetres, over the whole acquisition. */
  const TotalYDistance: real := 65.0

  /** The number of header lines before the first vertex. */
  const HeaderSize: nat := 7

  /** The header line that carries the vertex count starts with this text. */
  const VertexCountPrefix: string := "element vertex "

  /** The distinct profile numbers of a table. */
  function Profiles(table: seq<Row>): set<int>
  {
    set r <- table :: r.profile
  }

  /** The number of distinct profile numbers of a table. */
  function NumProfiles(table: seq<Row>): nat
  {
    |Profiles(table)|
  }

  /** Counts the distinct profile numbers in one pass over the table. */
  method CountProfiles(table: seq<Row>) returns (n: nat)
    ensures n == NumProfiles(table)
    ensures n == 0 <==> |table| == 0
    ensures n <= |table|
  {
    var seen: set<int> := {};
    var i := 0;
    while i < |table|
      invariant 0 <= i <= |table|
      invariant seen == Profiles(table[..i])
      invariant |seen| <= i
      invariant i > 0 ==> table[0].profile in seen
    {
      assert table[..i + 1] == table[..i] + [table[i]];
      seen := seen + {table[i].profile};
      i := i + 1;
    }
    assert table[..i] == table;
    n := |seen|;
  }

  /** The distance between consecutive profiles; undefined for zero profiles. */
  function YStep(total: real, count: nat): (r: Result<real>)
    ensures r.Ok? <==> count > 0
    ensures r.Err? ==> r.error == DivisionByZero
    ensures r.Ok? ==> r.value * (count as real) == total
  {
    if count == 0 then Err(DivisionByZero) else Ok(total / count as real)
  }

  /** The scan-axis coordinate of a profile number. */
  function ProfileY(profile: int, step: real): real
  {
    (profile - 1) as real * step
  }

  /** Adds the Y column to every row. */
  function AddY(table: seq<Row>, step: real): (rows: seq<YRow>)
    ensures |rows| == |table|
    ensures forall i :: 0 <= i < |rows| ==> rows[i].row == table[i]
    ensures forall i :: 0 <= i < |rows| ==>
              rows[i].y == ProfileY(table[i].profile, step)
  {
    seq(|table|, i requires 0 <= i < |table| => YRow(table[i], ProfileY(table[i].profile, step)))
  }

  /** The (X, Y, Z) columns of a row. */
  function VertexOf(r: YRow): Vertex
  {
    Vertex(r.row.x, r.y, r.row.z)
  }

  /** The fixed PLY header for a cloud of n vertices. */
  function HeaderLines(n: nat): seq<PlyLine>
  {
    [ HeaderLine("ply"),
      HeaderLine("format ascii 1.0"),
      HeaderLine(VertexCountPrefix + Decimal.Show(n)),
      HeaderLine("property float x"),
      HeaderLine("property float y"),
      HeaderLine("property float z"),
      HeaderLine("end_header") ]
  }

  /** One vertex line per vertex, in order. */
  function VertexLines(vs: seq<Vertex>): seq<PlyLine>
  {
    seq(|vs|, i requires 0 <= i < |vs| => VertexLine(vs[i]))
  }

  /** The vertex count a header line declares, if it is a well-formed count line. */
  function DeclaredCount(line: PlyLine): Option<nat>
  {
    if line.HeaderLine?
       && |VertexCountPrefix| <= |line.text|
       && line.text[..|VertexCountPrefix|] == VertexCountPrefix
       && Decimal.Canonical(line.text[|VertexCountPrefix|..])
    then Some(Decimal.Parse(line.text[|VertexCountPrefix|..]))
    else None
  }

  /**
    A reader for the files this step writes: checks the fixed header lines,
    reads the declared vertex count, and accepts only a body of exactly that
    many vertex lines.
   */
  function ParsePly(lines: seq<PlyLine>): Option<seq<Vertex>>
  {
    if |lines| < HeaderSize then None
    else
      var count := DeclaredCount(lines[2]);
      if || lines[0] != HeaderLine("ply")
         || lines[1] != HeaderLine("format ascii 1.0")
         || count.None?
         || lines[3..HeaderSize] != [ HeaderLine("property float x"),
                                      HeaderLine("property float y"),
                                      HeaderLine("property float z"),
                                      HeaderLine("end_header") ]
         || |lines| != HeaderSize + count.value
         || exists i :: HeaderSize <= i < |lines| && !lines[i].VertexLine?
      then None
      else Some(seq(count.value, i requires 0 <= i < count.value => lines[HeaderSize + i].v))
  }

  /** Writes the header and then one vertex line per vertex. */
  method WritePly(vs: seq<Vertex>) returns (lines: seq<PlyLine>)
    ensures |lines| == HeaderSize + |vs|
    ensures lines[..HeaderSize] == HeaderLines(|vs|)
    ensures forall i :: 0 <= i < |vs| ==> lines[HeaderSize + i] == VertexLine(vs[i])
    ensures ParsePly(lines) == Some(vs)
  {
    lines := HeaderLines(|vs|);
    var i := 0;
    while i < |vs|
      invariant 0 <= i <= |vs|
      invariant |lines| == HeaderSize + i
      invariant lines[..HeaderSize] == HeaderLines(|vs|)
      invariant forall j :: 0 <= j < i ==> lines[HeaderSize + j] == VertexLine(vs[j])
    {
      lines := lines + [VertexLine(vs[i])];
      i := i + 1;
    }
    assert lines == HeaderLines(|vs|) + VertexLines(vs);
    ParsePlyRoundTrip(vs);
  }

  /** A header followed by vertex lines reads back as exactly those vertices. */
  lemma ParsePlyRoundTrip(vs: seq<Vertex>)
    ensures ParsePly(HeaderLines(|vs|) + VertexLines(vs)) == Some(vs)
  {
    var lines := HeaderLines(|vs|) + VertexLines(vs);
    var text := VertexCountPrefix + Decimal.Show(|vs|);
    assert lines[2].text == text;
    assert text[..|VertexCountPrefix|] == VertexCountPrefix;
    assert text[|VertexCountPrefix|..] == Decimal.Show(|vs|);
    Decimal.ParseShow(|vs|);
    assert DeclaredCount(lines[2]) == Some(|vs|);
    assert lines[3..HeaderSize] == HeaderLines(|vs|)[3..];
    forall i | HeaderSize <= i < |lines| ensures lines[i].VertexLine? {
      assert lines[i] == VertexLines(vs)[i - HeaderSize];
    }
    var read := ParsePly(lines);
    assert read.Some? && |read.value| == |vs|;
    forall i | 0 <= i < |vs| ensures read.value[i] == vs[i] {
      assert lines[HeaderSize + i] == VertexLines(vs)[i];
    }
    assert read.value == vs;
  }

  /** The reader accepts nothing but a header followed by its vertex lines. */
  lemma ParsePlyOnlyWritten(lines: seq<PlyLine>, vs: seq<Vertex>)
    requires ParsePly(lines) == Some(vs)
    ensures lines == HeaderLines(|vs|) + VertexLines(vs)
  {
    var t := lines[2].text;
    var digits := t[|VertexCountPrefix|..];
    Decimal.ShowParse(digits);
    assert t == VertexCountPrefix + digits;
    assert lines[..HeaderSize] == HeaderLines(|vs|);
    forall i | HeaderSize <= i < |lines|
      ensures lines[i] == (HeaderLines(|vs|) + VertexLines(vs))[i]
    {
      assert lines[i].VertexLine?;
    }
  }

  /**
    The whole step: count the profiles, compute the step, add Y, and write
    the vertices in row order. Fails with DivisionByZero on an empty table.
   */
  method Reconstruct(table: seq<Row>, total: real) returns (r: Result<seq<PlyLine>>)
    ensures r.Err? <==> |table| == 0
    ensures r.Err? ==> r.error == DivisionByZero
    ensures r.Ok? ==>
              var read := ParsePly(r.value);
              && read.Some?
              && |read.value| == |table|
              && forall i :: 0 <= i < |table| ==>
                   && read.value[i].x == table[i].x
                   && read.value[i].z == table[i].z
                   && read.value[i].y * (NumProfiles(table) as real)
                      == (table[i].profile - 1) as real * total
  {
    var count := CountProfiles(table);
    var step := YStep(total, count);
    if step.Err? {
      return Err(step.error);
    }
    var withY := AddY(table, step.value);
    var vs := seq(|withY|, i requires 0 <= i < |withY| => VertexOf(withY[i]));
    var lines := WritePly(vs);
    r := Ok(lines);
    forall i | 0 <= i < |table|
      ensures vs[i].y * (count as real) == (table[i].profile - 1) as real * total
    {
      calc {
        vs[i].y * (count as real);
        (table[i].profile - 1) as real * step.value * (count as real);
        (table[i].profile - 1) as real * (step.value * (count as real));
        (table[i].profile - 1) as real * total;
      }
    }
  }

  /** With total 65 and 10 profiles: profile 1 lies at 0 and profile 10 at 58.5. */
  lemma SixtyFiveOverTenProfiles()
    ensures YStep(TotalYDistance, 10) == Ok(6.5)
    ensures ProfileY(1, 6.5) == 0.0
    ensures ProfileY(10, 6.5) == 58.5
  {
  }

  /**
    Consecutive profile numbers are exactly one step apart, profile 1 lies at
    the origin, and Y divided by the step recovers the profile number.
   */
  lemma YIsUniform(profile: int, step: real)
    ensures ProfileY(1, step) == 0.0
    ensures ProfileY(profile + 1, step) - ProfileY(profile, step) == step
    ensures step != 0.0 ==> ProfileY(profile, step) / step + 1.0 == profile as real
  {
    if step != 0.0 {
      var k := (profile - 1) as real;
      assert ProfileY(profile, step) == k * step;
      var d := (k * step) / step;
      assert d * step == k * step;
      assert (d - k) * step == 0.0;
      assert d == k;
      assert k + 1.0 == profile as real;
    }
  }

  /** For a positive distance, Y strictly increases with the profile number. */
  lemma YStrictlyIncreasing(total: real, count: nat, p: int, q: int)
    requires total > 0.0 && count > 0
    requires p < q
    ensures ProfileY(p, YStep(total, count).value) < ProfileY(q, YStep(total, count).value)
  {
  }

  /** A table whose profile numbers are 1 .. n has n distinct profiles. */
  lemma ContiguousProfilesCount(table: seq<Row>, n: nat)
    requires Profiles(table) == ProfileRange(n)
    ensures NumProfiles(table) == n
  {
    ProfileRangeSize(n);
  }

  /** The last of n profiles lies at total * (n - 1) / n, short of the total. */
  lemma LastProfileY(total: real, n: nat)
    requires n > 0 && total > 0.0
    ensures ProfileY(n, total / n as real) == total * (n - 1) as real / n as real
    ensures total * (n - 1) as real / n as real < total
  {
  }

  /**
    When the profile numbers are 1 .. n and the distance is positive, every Y
    lies in [0, total * (n - 1) / n], strictly below the total, and the last
    profile reaches that maximum.
   */
  lemma YWithinTravel(table: seq<Row>, total: real, n: nat)
    requires Profiles(table) == ProfileRange(n)
    requires n > 0 && total > 0.0
    ensures YStep(total, NumProfiles(table)).Ok?
    ensures var step := YStep(total, NumProfiles(table)).value;
            && ProfileY(n, step) == total * (n - 1) as real / n as real
            && total * (n - 1) as real / n as real < total
            && forall i :: 0 <= i < |table| ==>
                 0.0 <= ProfileY(table[i].profile, step) <= ProfileY(n, step)
  {
    ContiguousProfilesCount(table, n);
    var step := total / n as real;
    assert step > 0.0;
    assert YStep(total, NumProfiles(table)).value == step;
    LastProfileY(total, n);
    forall i | 0 <= i < |table|
      ensures 0.0 <= ProfileY(table[i].profile, step) <= ProfileY(n, step)
    {
      assert table[i].profile in Profiles(table);
      ProfileYBounds(table[i].profile, n, step);
    }
  }

  /** Profiles 1 .. n lie between the origin and the n-th profile. */
  lemma ProfileYBounds(p: int, n: int, step: real)
    requires 1 <= p <= n && step >= 0.0
    ensures 0.0 <= ProfileY(p, step) <= ProfileY(n, step)
  {
  }

  /** With a positive step, Y orders rows as their profile numbers do. */
  lemma ProfileYOrder(p: int, q: int, step: real)
    requires p <= q && step > 0.0
    ensures ProfileY(p, step) <= ProfileY(q, step)
    ensures p < q <==> ProfileY(p, step) < ProfileY(q, step)
  {
  }

  /**
    In a table with profile numbers 1 .. n and a positive distance, the step
    is positive and every row lies in [0, total).
   */
  lemma RowY(table: seq<Row>, total: real, n: nat, j: nat)
    requires Profiles(table) == ProfileRange(n)
    requires n > 0 && total > 0.0
    requires j < |table|
    ensures YStep(total, NumProfiles(table)).Ok?
    ensures YStep(total, NumProfiles(table)).value > 0.0
    ensures 0.0 <= ProfileY(table[j].profile, YStep(total, NumProfiles(table)).value) < total
  {
    YWithinTravel(table, total, n);
    assert table[j] in table;
  }
}
