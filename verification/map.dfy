/**
 * The arena: a 40 x 40 floor fenced by four walls, plus one block for every
 * non-zero digit of the map text. Row i, column j of the text, holding digit
 * d, becomes a 2 x 2d x 2 block standing on the floor over grid cell (i, j).
 */
module Maps {
  import opened Results
  import opened Geometry
  import opened Objects

  const Width: real := 40.0
  const Length: real := 40.0
  const Unit: real := 2.0
  const WallHeight: real := Unit * 2.0

  /** The static geometry the player collides with; the floor plane is only drawn. */
  datatype Map = Map(objects: seq<Cuboid>)

  /** The four walls, in construction order: +x, -x, +z, -z. */
  function Walls(): (walls: seq<Cuboid>)
    ensures |walls| == 4
    ensures walls[0] == Cuboid(Vector3(21.0, 2.0, 0.0), Vector3(2.0, 4.0, 40.0), DarkGray)
    ensures walls[1] == Cuboid(Vector3(-21.0, 2.0, 0.0), Vector3(2.0, 4.0, 40.0), DarkGray)
    ensures walls[2] == Cuboid(Vector3(0.0, 2.0, 21.0), Vector3(40.0, 4.0, 2.0), DarkGray)
    ensures walls[3] == Cuboid(Vector3(0.0, 2.0, -21.0), Vector3(40.0, 4.0, 2.0), DarkGray)
  {
    var offset := Length / 2.0 + Unit / 2.0;
    [ NewCuboid(Vector3(offset, Unit, 0.0), Vector3(Unit, WallHeight, Width), DarkGray),
      NewCuboid(Vector3(-offset, Unit, 0.0), Vector3(Unit, WallHeight, Width), DarkGray),
      NewCuboid(Vector3(0.0, Unit, offset), Vector3(Length, WallHeight, Unit), DarkGray),
      NewCuboid(Vector3(0.0, Unit, -offset), Vector3(Length, WallHeight, Unit), DarkGray) ]
  }

  // ---------------------------------------------------------------------------
  // Splitting the text into lines
  // ---------------------------------------------------------------------------

  /** The index of the first newline in `s`, if any. */
  function FirstNewline(s: string): (r: Option<nat>)
    ensures r.Some? ==> r.value < |s| && s[r.value] == '\n' && '\n' !in s[..r.value]
    ensures r.None? ==> '\n' !in s
  {
    if s == [] then Option.None
    else if s[0] == '\n' then Some(0)
    else match FirstNewline(s[1..])
      case None => Option.None
      case Some(k) => assert s[..k + 1] == [s[0]] + s[1..][..k]; Some(k + 1)
  }

  /** A line ended by "\r\n" loses its carriage return too. */
  function StripCr(line: string): string {
    if line != [] && line[|line| - 1] == '\r' then line[..|line| - 1] else line
  }

  /**
   * `str::lines`: split after each newline, drop the newline and a carriage
   * return just before it; a last line without a newline is kept as it is,
   * and a text ending in a newline has no empty last line.
   */
  function Lines(s: string): (lines: seq<string>)
    ensures forall k :: 0 <= k < |lines| ==> '\n' !in lines[k]
    ensures s == [] <==> lines == []
    decreases |s|
  {
    if s == [] then []
    else match FirstNewline(s)
      case None => [s]
      case Some(k) => [StripCr(s[..k])] + Lines(s[k + 1..])
  }

  /** Each row followed by a newline. */
  function JoinLines(rows: seq<string>): string {
    if rows == [] then [] else rows[0] + "\n" + JoinLines(rows[1..])
  }

  /** Splitting rows joined with newlines gives the rows back, when no row holds a line break. */
  lemma {:induction false} LinesJoinLines(rows: seq<string>)
    requires forall k :: 0 <= k < |rows| ==> '\n' !in rows[k] && '\r' !in rows[k]
    ensures Lines(JoinLines(rows)) == rows
  {
    if rows != [] {
      var row := rows[0];
      var rest := JoinLines(rows[1..]);
      var s := JoinLines(rows);
      assert s == row + ("\n" + rest);
      NewlineAfterRow(row, rest);
      assert s[..|row|] == row;
      assert s[|row| + 1..] == rest;
      LinesJoinLines(rows[1..]);
      assert [row] + rows[1..] == rows;
    }
  }

  lemma NewlineAfterRow(row: string, rest: string)
    requires '\n' !in row && '\r' !in row
    ensures FirstNewline(row + ("\n" + rest)) == Some(|row|)
    ensures StripCr(row) == row
  {
    var s := row + ("\n" + rest);
    assert s[|row|] == '\n';
  }

  // ---------------------------------------------------------------------------
  // Digits and the blocks they describe
  // ---------------------------------------------------------------------------

  /** `char::to_digit(10)`. */
  function DigitValue(c: char): (r: Option<nat>)
    ensures r.Some? <==> '0' <= c <= '9'
    ensures r.Some? ==> r.value < 10 && r.value == c as int - '0' as int
  {
    if '0' <= c <= '9' then Some(c as int - '0' as int) else Option.None
  }

  predicate IsDigit(c: char) {
    '0' <= c <= '9'
  }

  predicate AllDigits(row: string) {
    forall j :: 0 <= j < |row| ==> IsDigit(row[j])
  }

  predicate AllDigitRows(rows: seq<string>) {
    forall i :: 0 <= i < |rows| ==> AllDigits(rows[i])
  }

  /** The block for digit `d` at row `i`, column `j`. */
  function CellCuboid(i: nat, j: nat, d: nat): (c: Cuboid)
    ensures c.pos == Vector3(2.0 * j as real - 19.0, d as real, 2.0 * i as real - 19.0)
    ensures c.size == Vector3(2.0, 2.0 * d as real, 2.0)
    ensures GetBoundingBox(c).min.y == 0.0
  {
    var half := Width / 2.0;
    var size := Vector3(Unit, Unit * d as real, Unit);
    NewCuboid(Vector3(j as real * Unit - half + Unit / 2.0, size.y / 2.0, i as real * Unit - half + Unit / 2.0), size, Red)
  }

  /** The blocks of row `i`, left to right. */
  function RowCuboids(i: nat, row: string): seq<Cuboid>
    requires AllDigits(row)
  {
    if row == [] then []
    else
      var d := DigitValue(row[|row| - 1]).value;
      RowCuboids(i, row[..|row| - 1]) + (if d != 0 then [CellCuboid(i, |row| - 1, d)] else [])
  }

  /** The blocks of all rows, top to bottom. */
  function GridCuboids(rows: seq<string>): seq<Cuboid>
    requires AllDigitRows(rows)
  {
    if rows == [] then []
    else GridCuboids(rows[..|rows| - 1]) + RowCuboids(|rows| - 1, rows[|rows| - 1])
  }

  /** Number of non-zero digits in a row. */
  function NonZeroInRow(row: string): nat {
    if row == [] then 0
    else NonZeroInRow(row[..|row| - 1]) + (if row[|row| - 1] != '0' then 1 else 0)
  }

  /** Number of non-zero digits in the grid. */
  function NonZeroInGrid(rows: seq<string>): nat {
    if rows == [] then 0 else NonZeroInGrid(rows[..|rows| - 1]) + NonZeroInRow(rows[|rows| - 1])
  }

  // ---------------------------------------------------------------------------
  // Map::default
  // ---------------------------------------------------------------------------

  /**
   * `Map::default` given the map text: the walls, then for every row and
   * every column the block of a non-zero digit. A character that is not a
   * decimal digit makes construction fail.
   */
  method BuildMap(text: string) returns (m: Option<Map>)
    ensures m.Some? <==> AllDigitRows(Lines(text))
    ensures m.Some? ==> m.value.objects == Walls() + GridCuboids(Lines(text))
    ensures m.Some? ==> m.value.objects[..4] == Walls() && |m.value.objects| == 4 + NonZeroInGrid(Lines(text))
  {
    var rows := Lines(text);
    var walls := Walls();
    var objects := walls;
    for i := 0 to |rows|
      invariant AllDigitRows(rows[..i])
      invariant objects == walls + GridCuboids(rows[..i])
    {
      var blocks := PushRow(i, rows[i], objects);
      if blocks.None? {
        return Option.None;
      }
      GridCuboidsStep(rows, i);
      objects := blocks.value;
    }
    assert rows[..|rows|] == rows;
    GridCuboidsCount(rows);
    m := Some(Map(objects));
  }

  /** The inner loop of `Map::default`: push the blocks of row `i` onto `objects`. */
  method PushRow(i: nat, row: string, objects: seq<Cuboid>) returns (r: Option<seq<Cuboid>>)
    ensures r.Some? <==> AllDigits(row)
    ensures r.Some? ==> r.value == objects + RowCuboids(i, row)
  {
    var pushed := objects;
    for j := 0 to |row|
      invariant AllDigits(row[..j])
      invariant pushed == objects + RowCuboids(i, row[..j])
    {
      var digit := DigitValue(row[j]);
      if digit.None? {
        return Option.None;
      }
      RowCuboidsStep(i, row, j);
      if digit.value != 0 {
        pushed := pushed + [CellCuboid(i, j, digit.value)];
      }
    }
    assert row[..|row|] == row;
    r := Some(pushed);
  }

  lemma RowCuboidsStep(i: nat, row: string, j: nat)
    requires j < |row| && AllDigits(row[..j]) && IsDigit(row[j])
    ensures AllDigits(row[..j + 1])
    ensures var d := DigitValue(row[j]).value;
      RowCuboids(i, row[..j + 1]) == RowCuboids(i, row[..j]) + (if d != 0 then [CellCuboid(i, j, d)] else [])
  {
    assert row[..j + 1][..j] == row[..j];
  }

  lemma GridCuboidsStep(rows: seq<string>, i: nat)
    requires i < |rows| && AllDigitRows(rows[..i]) && AllDigits(rows[i])
    ensures AllDigitRows(rows[..i + 1])
    ensures GridCuboids(rows[..i + 1]) == GridCuboids(rows[..i]) + RowCuboids(i, rows[i])
  {
    assert rows[..i + 1][..i] == rows[..i];
  }

  // ---------------------------------------------------------------------------
  // What the grid produces
  // ---------------------------------------------------------------------------

  lemma {:induction false} RowCuboidsCount(i: nat, row: string)
    requires AllDigits(row)
    ensures |RowCuboids(i, row)| == NonZeroInRow(row)
  {
    if row != [] {
      RowCuboidsCount(i, row[..|row| - 1]);
    }
  }

  /** One block per non-zero digit: zeros produce nothing. */
  lemma {:induction false} GridCuboidsCount(rows: seq<string>)
    requires AllDigitRows(rows)
    ensures |GridCuboids(rows)| == NonZeroInGrid(rows)
  {
    if rows != [] {
      GridCuboidsCount(rows[..|rows| - 1]);
      RowCuboidsCount(|rows| - 1, rows[|rows| - 1]);
    }
  }

  /** Every grid block stands on the floor. */
  lemma {:induction false} GridCuboidsOnFloor(rows: seq<string>)
    requires AllDigitRows(rows)
    ensures forall k :: 0 <= k < |GridCuboids(rows)| ==> GetBoundingBox(GridCuboids(rows)[k]).min.y == 0.0
  {
    if rows != [] {
      GridCuboidsOnFloor(rows[..|rows| - 1]);
      RowCuboidsOnFloor(|rows| - 1, rows[|rows| - 1]);
    }
  }

  lemma {:induction false} RowCuboidsOnFloor(i: nat, row: string)
    requires AllDigits(row)
    ensures forall k :: 0 <= k < |RowCuboids(i, row)| ==> GetBoundingBox(RowCuboids(i, row)[k]).min.y == 0.0
  {
    if row != [] {
      RowCuboidsOnFloor(i, row[..|row| - 1]);
    }
  }

  /** Where the block of cell (i, j) sits in the list: after every non-zero cell before it in row-major order. */
  function Rank(rows: seq<string>, i: nat, j: nat): nat
    requires i < |rows| && j <= |rows[i]|
  {
    NonZeroInGrid(rows[..i]) + NonZeroInRow(rows[i][..j])
  }

  lemma {:induction false} RowCuboidsPrefix(i: nat, row: string, n: nat)
    requires AllDigits(row) && n <= |row|
    ensures RowCuboids(i, row[..n]) <= RowCuboids(i, row)
    decreases |row|
  {
    if n < |row| {
      assert row[..|row| - 1][..n] == row[..n];
      RowCuboidsPrefix(i, row[..|row| - 1], n);
    } else {
      assert row[..n] == row;
    }
  }

  lemma {:induction false} GridCuboidsPrefix(rows: seq<string>, n: nat)
    requires AllDigitRows(rows) && n <= |rows|
    ensures GridCuboids(rows[..n]) <= GridCuboids(rows)
    decreases |rows|
  {
    if n < |rows| {
      assert rows[..|rows| - 1][..n] == rows[..n];
      GridCuboidsPrefix(rows[..|rows| - 1], n);
    } else {
      assert rows[..n] == rows;
    }
  }

  /** The cell at row i, column j with digit d > 0 yields the block `CellCuboid(i, j, d)`, at its rank. */
  lemma CellBlockAtRank(rows: seq<string>, i: nat, j: nat)
    requires AllDigitRows(rows)
    requires i < |rows| && j < |rows[i]| && rows[i][j] != '0'
    ensures Rank(rows, i, j) < |GridCuboids(rows)|
    ensures GridCuboids(rows)[Rank(rows, i, j)] == CellCuboid(i, j, DigitValue(rows[i][j]).value)
  {
    var row := rows[i];
    var d := DigitValue(row[j]).value;
    assert AllDigits(row);
    // The block is the last one of the row prefix that ends at column j.
    assert row[..j + 1][..j] == row[..j];
    assert RowCuboids(i, row[..j + 1]) == RowCuboids(i, row[..j]) + [CellCuboid(i, j, d)];
    RowCuboidsCount(i, row[..j]);
    RowCuboidsPrefix(i, row, j + 1);
    // The row's blocks follow the blocks of the rows above it.
    assert rows[..i + 1][..i] == rows[..i];
    assert GridCuboids(rows[..i + 1]) == GridCuboids(rows[..i]) + RowCuboids(i, row);
    GridCuboidsCount(rows[..i]);
    GridCuboidsPrefix(rows, i + 1);
  }

  lemma {:induction false} NonZeroInRowMonotone(row: string, a: nat, b: nat)
    requires a <= b <= |row|
    ensures NonZeroInRow(row[..a]) <= NonZeroInRow(row[..b])
    decreases b - a
  {
    if a < b {
      assert row[..b][..b - 1] == row[..b - 1];
      NonZeroInRowMonotone(row, a, b - 1);
    }
  }

  lemma {:induction false} NonZeroInGridMonotone(rows: seq<string>, a: nat, b: nat)
    requires a <= b <= |rows|
    ensures NonZeroInGrid(rows[..a]) <= NonZeroInGrid(rows[..b])
    decreases b - a
  {
    if a < b {
      assert rows[..b][..b - 1] == rows[..b - 1];
      NonZeroInGridMonotone(rows, a, b - 1);
    }
  }

  lemma NonZeroInRowWhole(row: string)
    ensures NonZeroInRow(row[..|row|]) == NonZeroInRow(row)
  {
    assert row[..|row|] == row;
  }

  /** Blocks come in row-major order: a cell before another in reading order has a smaller rank. */
  lemma RankRowMajor(rows: seq<string>, i: nat, j: nat, i': nat, j': nat)
    requires i < |rows| && j < |rows[i]| && rows[i][j] != '0'
    requires i' < |rows| && j' < |rows[i']|
    requires i < i' || (i == i' && j < j')
    ensures Rank(rows, i, j) < Rank(rows, i', j')
  {
    var row := rows[i];
    assert row[..j + 1][..j] == row[..j];
    assert NonZeroInRow(row[..j + 1]) == NonZeroInRow(row[..j]) + 1;
    if i == i' {
      NonZeroInRowMonotone(row, j + 1, j');
    } else {
      NonZeroInRowMonotone(row, j + 1, |row|);
      NonZeroInRowWhole(row);
      assert rows[..i + 1][..i] == rows[..i];
      assert NonZeroInGrid(rows[..i + 1]) == NonZeroInGrid(rows[..i]) + NonZeroInRow(row);
      NonZeroInGridMonotone(rows, i + 1, i');
    }
  }
}
