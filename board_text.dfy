/**
 * The board-text parsers: `orbStateFromString` of
 * lib/orbStateInitialization.ts and its twin `fromString` of
 * lib/useOrbReactionRunner.ts. A board is written one row per line,
 * cells separated by "|", each occupied cell as a side marker followed by
 * a digit.
 */
module BoardText {
  import opened Geometry
  import opened Text
  import opened OrbTypes

  /** `parseInt` of one character: its digit value, or NaN. */
  datatype ParsedCount = Digit(value: nat) | NaN

  /** One parsed placement; `pos.x` is the row and `pos.y` the cell within it. */
  datatype BoardOrb = BoardOrb(pos: Position, count: ParsedCount, side: Side)

  /** The side-1 marker of `fromString`: the up triangle. */
  const UpTriangle: string := "\U{25B2}"
  /** The down triangle, which the boards use for side 2. */
  const DownTriangle: string := "\U{25BC}"
  /**
   * The side-1 marker of `orbStateFromString`: the up triangle's UTF-8
   * bytes read as Windows-1252, three characters long.
   */
  const MisencodedTriangle: string := "\U{E2}\U{2013}\U{B2}"

  /** `parseInt(part[1])`: a missing or non-digit second character gives NaN. */
  function ParseCount(part: string): (r: ParsedCount)
    ensures r.Digit? <==> |part| >= 2 && '0' <= part[1] <= '9'
    ensures r.Digit? ==> r.value <= 9 && r.value as int + '0' as int == part[1] as int
  {
    if |part| >= 2 && '0' <= part[1] <= '9' then Digit(part[1] as int - '0' as int) else NaN
  }

  /** The parts that stand for an empty cell. */
  predicate Blank(part: string)
  {
    part == "  " || part == " " || part == ""
  }

  /** The placement a non-blank part at index `x` of kept line `y` yields. */
  function PartOrb(part: string, x: int, y: int, marker: string): BoardOrb
    requires !Blank(part)
  {
    BoardOrb(Pos(y, x), ParseCount(part), if [part[0]] == marker then 1 else 2)
  }

  /** The lines that contain a "|", in order. */
  function KeptLines(lines: seq<string>): (r: seq<string>)
    ensures |r| <= |lines|
  {
    if |lines| == 0 then []
    else
      var n := |lines| - 1;
      KeptLines(lines[..n]) + (if '|' in lines[n] then [lines[n]] else [])
  }

  /** Exactly the lines holding a "|" are kept. */
  lemma {:induction false} KeptLinesMembers(lines: seq<string>)
    ensures forall l :: l in KeptLines(lines) <==> l in lines && '|' in l
  {
    if |lines| > 0 {
      var n := |lines| - 1;
      KeptLinesMembers(lines[..n]);
      assert lines == lines[..n] + [lines[n]];
    }
  }

  /** The filter works line by line: the kept lines keep their order and multiplicity. */
  lemma {:induction false} KeptLinesAppend(a: seq<string>, b: seq<string>)
    ensures KeptLines(a + b) == KeptLines(a) + KeptLines(b)
    decreases |b|
  {
    if |b| == 0 {
      assert a + b == a;
    } else {
      var init := b[..|b| - 1];
      assert (a + b)[..|a + b| - 1] == a + init;
      assert (a + b)[|a + b| - 1] == b[|b| - 1];
      KeptLinesAppend(a, init);
    }
  }

  /** What the part in column `x` of kept line `y` contributes: nothing when blank. */
  function CellOrbs(part: string, x: int, y: int, marker: string): seq<BoardOrb>
  {
    if Blank(part) then [] else [PartOrb(part, x, y, marker)]
  }

  /** The placements of the parts of kept line `y`, in part order. */
  function RowOrbs(parts: seq<string>, y: int, marker: string): seq<BoardOrb>
  {
    if |parts| == 0 then []
    else
      var n := |parts| - 1;
      RowOrbs(parts[..n], y, marker) + CellOrbs(parts[n], n, y, marker)
  }

  /** The placements of all kept lines, line by line. */
  function GridOrbs(lines: seq<string>, marker: string): seq<BoardOrb>
  {
    if |lines| == 0 then []
    else
      var n := |lines| - 1;
      GridOrbs(lines[..n], marker) + RowOrbs(Split(lines[n], '|'), n, marker)
  }

  /** What both parsers compute from a board text, given their side-1 marker. */
  function BoardOrbs(str: string, marker: string): seq<BoardOrb>
  {
    GridOrbs(KeptLines(Split(str, '\n')), marker)
  }

  /**
   * The shared body of the two parsers: keep the lines holding a "|",
   * then for each part of each kept line skip the blank ones and push a
   * placement at (row, part index).
   */
  method ParseBoard(str: string, marker: string) returns (orbs: seq<BoardOrb>)
    ensures orbs == BoardOrbs(str, marker)
  {
    var lines := KeptLines(Split(str, '\n'));
    orbs := [];
    for y := 0 to |lines|
      invariant orbs == GridOrbs(lines[..y], marker)
    {
      var rowOrbs := ParseRow(Split(lines[y], '|'), y, marker);
      orbs := orbs + rowOrbs;
      assert lines[..y + 1][..y] == lines[..y];
    }
    assert lines[..|lines|] == lines;
  }

  /** The inner loop of the parsers: one placement per non-blank part of line `y`. */
  method ParseRow(lineParts: seq<string>, y: int, marker: string) returns (orbs: seq<BoardOrb>)
    ensures orbs == RowOrbs(lineParts, y, marker)
  {
    orbs := [];
    for x := 0 to |lineParts|
      invariant orbs == RowOrbs(lineParts[..x], y, marker)
    {
      var part := lineParts[x];
      assert lineParts[..x + 1][..x] == lineParts[..x];
      if part == "  " || part == " " || part == "" {
        continue;
      }
      var side: Side := if [part[0]] == marker then 1 else 2;
      var count := ParseCount(part);
      orbs := orbs + [BoardOrb(Pos(y, x), count, side)];
    }
    assert lineParts[..|lineParts|] == lineParts;
  }

  /** `orbStateFromString`, with the marker literal as the file spells it. */
  method OrbStateFromString(str: string) returns (orbs: seq<BoardOrb>)
    ensures orbs == BoardOrbs(str, MisencodedTriangle)
    ensures forall o :: o in orbs ==> o.side == 2
  {
    orbs := ParseBoard(str, MisencodedTriangle);
    MisencodedMarkerNeverMatches(str);
  }

  /** `fromString`, whose marker is the up triangle. */
  method FromString(str: string) returns (orbs: seq<BoardOrb>)
    ensures orbs == BoardOrbs(str, UpTriangle)
  {
    orbs := ParseBoard(str, UpTriangle);
  }

  // ------------------------------------------------------------ properties

  /** A row yields exactly its non-blank parts, each at (row, its index). */
  lemma {:induction false} RowOrbsMembers(parts: seq<string>, y: int, marker: string)
    ensures forall o :: o in RowOrbs(parts, y, marker) <==>
      exists x :: 0 <= x < |parts| && !Blank(parts[x]) && o == PartOrb(parts[x], x, y, marker)
  {
    if |parts| > 0 {
      var n := |parts| - 1;
      RowOrbsMembers(parts[..n], y, marker);
      assert forall x :: 0 <= x < n ==> parts[..n][x] == parts[x];
    }
  }

  /** Within a row the placements sit on that row, in increasing part index. */
  lemma {:induction false} RowOrbsOrdered(parts: seq<string>, y: int, marker: string)
    ensures forall i :: 0 <= i < |RowOrbs(parts, y, marker)| ==>
      RowOrbs(parts, y, marker)[i].pos.x == y && 0 <= RowOrbs(parts, y, marker)[i].pos.y < |parts|
    ensures forall i, j :: 0 <= i < j < |RowOrbs(parts, y, marker)| ==>
      RowOrbs(parts, y, marker)[i].pos.y < RowOrbs(parts, y, marker)[j].pos.y
  {
    if |parts| > 0 {
      var n := |parts| - 1;
      RowOrbsOrdered(parts[..n], y, marker);
      var a := RowOrbs(parts[..n], y, marker);
      var b := CellOrbs(parts[n], n, y, marker);
      var r := RowOrbs(parts, y, marker);
      assert r == a + b;
      forall i | 0 <= i < |r|
        ensures r[i].pos.x == y && 0 <= r[i].pos.y < |parts|
      {
        if i < |a| {
          assert r[i] == a[i];
        } else {
          assert r[i] == b[0];
        }
      }
      forall i, j | 0 <= i < j < |r|
        ensures r[i].pos.y < r[j].pos.y
      {
        if j < |a| {
          assert r[i] == a[i] && r[j] == a[j];
        } else {
          assert r[i] == a[i] && r[j] == b[0];
        }
      }
    }
  }

  /** At most one placement per part. */
  lemma {:induction false} RowOrbsBound(parts: seq<string>, y: int, marker: string)
    ensures |RowOrbs(parts, y, marker)| <= |parts|
  {
    if |parts| > 0 {
      RowOrbsBound(parts[..|parts| - 1], y, marker);
    }
  }

  /** The number of parts of all lines together. */
  function TotalParts(lines: seq<string>): nat
  {
    if |lines| == 0 then 0 else TotalParts(lines[..|lines| - 1]) + |Split(lines[|lines| - 1], '|')|
  }

  /** The parser yields at most one placement per part. */
  lemma {:induction false} GridOrbsBound(lines: seq<string>, marker: string)
    ensures |GridOrbs(lines, marker)| <= TotalParts(lines)
  {
    if |lines| > 0 {
      var n := |lines| - 1;
      GridOrbsBound(lines[..n], marker);
      RowOrbsBound(Split(lines[n], '|'), n, marker);
    }
  }

  /** `p` comes before `q` reading row by row. */
  predicate RowMajorBefore(p: Position, q: Position)
  {
    p.x < q.x || (p.x == q.x && p.y < q.y)
  }

  /**
   * Placements come out in row-major order: by kept line, then by part
   * index, and every row coordinate is the index of a kept line.
   */
  lemma {:induction false} GridOrbsRowMajor(lines: seq<string>, marker: string)
    ensures forall i :: 0 <= i < |GridOrbs(lines, marker)| ==> 0 <= GridOrbs(lines, marker)[i].pos.x < |lines|
    ensures forall i, j :: 0 <= i < j < |GridOrbs(lines, marker)| ==>
      RowMajorBefore(GridOrbs(lines, marker)[i].pos, GridOrbs(lines, marker)[j].pos)
  {
    if |lines| > 0 {
      var n := |lines| - 1;
      GridOrbsRowMajor(lines[..n], marker);
      RowOrbsOrdered(Split(lines[n], '|'), n, marker);
      var a := GridOrbs(lines[..n], marker);
      var b := RowOrbs(Split(lines[n], '|'), n, marker);
      var r := GridOrbs(lines, marker);
      assert r == a + b;
      forall i, j | 0 <= i < j < |r|
        ensures RowMajorBefore(r[i].pos, r[j].pos)
      {
        if j < |a| {
          assert r[i] == a[i] && r[j] == a[j];
        } else if i < |a| {
          assert r[i] == a[i] && r[j] == b[j - |a|];
        } else {
          assert r[i] == b[i - |a|] && r[j] == b[j - |a|];
        }
      }
      forall i | 0 <= i < |r|
        ensures 0 <= r[i].pos.x < |lines|
      {
        if i < |a| {
          assert r[i] == a[i];
        } else {
          assert r[i] == b[i - |a|];
        }
      }
    }
  }

  /** Part `x` of kept line `y` is not blank and yields `o`. */
  predicate YieldedBy(lines: seq<string>, y: int, x: int, marker: string, o: BoardOrb)
  {
    && 0 <= y < |lines| && 0 <= x < |Split(lines[y], '|')|
    && !Blank(Split(lines[y], '|')[x]) && o == PartOrb(Split(lines[y], '|')[x], x, y, marker)
  }

  /**
   * A placement comes from exactly one non-blank part: part `x` of kept
   * line `y` gives position (y, x), side 1 exactly when its first
   * character is the marker, and the `parseInt` of its second character.
   */
  lemma {:induction false} GridOrbsMembers(lines: seq<string>, marker: string)
    ensures forall o :: o in GridOrbs(lines, marker) <==> exists y, x :: YieldedBy(lines, y, x, marker, o)
  {
    if |lines| > 0 {
      var n := |lines| - 1;
      var init := lines[..n];
      var row := Split(lines[n], '|');
      GridOrbsMembers(init, marker);
      RowOrbsMembers(row, n, marker);
      forall o | o in GridOrbs(lines, marker)
        ensures exists y, x :: YieldedBy(lines, y, x, marker, o)
      {
        if o in GridOrbs(init, marker) {
          var y, x :| YieldedBy(init, y, x, marker, o);
          assert init[y] == lines[y];
          assert YieldedBy(lines, y, x, marker, o);
        } else {
          var x :| 0 <= x < |row| && !Blank(row[x]) && o == PartOrb(row[x], x, n, marker);
          assert YieldedBy(lines, n, x, marker, o);
        }
      }
      forall o, y, x | YieldedBy(lines, y, x, marker, o)
        ensures o in GridOrbs(lines, marker)
      {
        if y < n {
          assert init[y] == lines[y];
          assert YieldedBy(init, y, x, marker, o);
          assert o in GridOrbs(init, marker);
        } else {
          assert o in RowOrbs(row, n, marker);
        }
      }
    }
  }

  /**
   * One character never equals the three-character misencoded marker, so
   * `orbStateFromString` gives every placement side 2.
   */
  lemma MisencodedMarkerNeverMatches(str: string)
    ensures forall o :: o in BoardOrbs(str, MisencodedTriangle) ==> o.side == 2
  {
    var lines := KeptLines(Split(str, '\n'));
    GridOrbsMembers(lines, MisencodedTriangle);
  }

  /** With the up triangle, side 1 is the up triangle and everything else is side 2. */
  lemma UpTriangleSide(part: string, x: int, y: int)
    requires !Blank(part)
    ensures PartOrb(part, x, y, UpTriangle).side == 1 <==> part[0] == '\U{25B2}'
  {
  }

  // -------------------------------------------------------------- fixture

  /** The five rows of the `initialState` template literal, cell by cell. */
  const Row0Parts: seq<string> := ["  ", "  ", "  ", "\U{25BC}1", "  "]
  const Row1Parts: seq<string> := ["  ", "  ", "  ", "\U{25B2}1", "\U{25BC}1"]
  const Row2Parts: seq<string> := ["  ", "  ", "\U{25B2}1", "\U{25BC}4", "\U{25B2}1"]
  const Row3Parts: seq<string> := ["  ", "  ", "  ", "\U{25B2}1", "  "]
  const Row4Parts: seq<string> := ["  ", "  ", "  ", "  ", "  "]

  /** The five rows of the literal. */
  function InitialStateRows(): seq<string>
  {
    [Join(Row0Parts, '|'), Join(Row1Parts, '|'), Join(Row2Parts, '|'),
     Join(Row3Parts, '|'), Join(Row4Parts, '|')]
  }

  /**
   * The `initialState` template literal: a newline, then each row followed
   * by a newline, i.e. an empty first line, the rows and an empty last line.
   */
  function InitialStateText(): string
  {
    Join([""] + InitialStateRows() + [""], '\n')
  }

  /** The seven placements of the `initialState` board. */
  function InitialStateOrbs(): seq<BoardOrb>
  {
    [ BoardOrb(Pos(0, 3), Digit(1), 2),
      BoardOrb(Pos(1, 3), Digit(1), 1),
      BoardOrb(Pos(1, 4), Digit(1), 2),
      BoardOrb(Pos(2, 2), Digit(1), 1),
      BoardOrb(Pos(2, 3), Digit(4), 2),
      BoardOrb(Pos(2, 4), Digit(1), 1),
      BoardOrb(Pos(3, 3), Digit(1), 1) ]
  }

  /** A row of five cells, none holding a "|" or a newline. */
  predicate CleanCells(parts: seq<string>)
  {
    |parts| == 5 && forall i :: 0 <= i < 5 ==> '|' !in parts[i] && '\n' !in parts[i]
  }

  /** The cells the fixture uses hold neither separator. */
  lemma FixtureCellsClean()
    ensures CleanCells(Row0Parts) && CleanCells(Row1Parts) && CleanCells(Row2Parts)
    ensures CleanCells(Row3Parts) && CleanCells(Row4Parts)
  {
    var blank, up1, down1, down4 := "  ", "\U{25B2}1", "\U{25BC}1", "\U{25BC}4";
    assert '|' !in blank && '\n' !in blank;
    assert '|' !in up1 && '\n' !in up1;
    assert '|' !in down1 && '\n' !in down1;
    assert '|' !in down4 && '\n' !in down4;
    assert Row0Parts == [blank, blank, blank, down1, blank];
    assert Row1Parts == [blank, blank, blank, up1, down1];
    assert Row2Parts == [blank, blank, up1, down4, up1];
    assert Row3Parts == [blank, blank, blank, up1, blank];
    assert Row4Parts == [blank, blank, blank, blank, blank];
  }

  /** A row joined with "|" splits back into its cells, holds a "|" and holds no newline. */
  lemma RowSplits(parts: seq<string>)
    requires CleanCells(parts)
    ensures Split(Join(parts, '|'), '|') == parts
    ensures '|' in Join(parts, '|') && '\n' !in Join(parts, '|')
  {
    SplitJoin(parts, '|');
    JoinAvoids(parts, '|', '\n');
    assert Join(parts, '|')[|parts[0]|] == '|';
  }

  /** An empty line at either end is dropped. */
  lemma {:induction false} KeptFramed(rows: seq<string>)
    requires forall i :: 0 <= i < |rows| ==> '|' in rows[i]
    ensures KeptLines([""] + rows + [""]) == rows
  {
    var framed := [""] + rows + [""];
    assert framed[..|framed| - 1] == [""] + rows;
    KeptAfterBlank(rows);
  }

  lemma {:induction false} KeptAfterBlank(rows: seq<string>)
    requires forall i :: 0 <= i < |rows| ==> '|' in rows[i]
    ensures KeptLines([""] + rows) == rows
  {
    if |rows| == 0 {
      assert [""][..0] == [];
    } else {
      var n := |rows| - 1;
      assert ([""] + rows)[..n + 1] == [""] + rows[..n];
      KeptAfterBlank(rows[..n]);
      assert rows[..n] + [rows[n]] == rows;
    }
  }

  /** Rows holding a "|" and no newline, framed by empty lines, are kept as they are. */
  lemma FramedRowsKept(rows: seq<string>)
    requires forall i :: 0 <= i < |rows| ==> '|' in rows[i] && '\n' !in rows[i]
    ensures KeptLines(Split(Join([""] + rows + [""], '\n'), '\n')) == rows
  {
    var all := [""] + rows + [""];
    forall i | 0 <= i < |all|
      ensures '\n' !in all[i]
    {
      if 0 < i < |all| - 1 {
        assert all[i] == rows[i - 1];
      }
    }
    SplitJoin(all, '\n');
    KeptFramed(rows);
  }

  /** The fixture's rows split back into their cells. */
  lemma InitialRowsSplit()
    ensures var rows := InitialStateRows();
      Split(rows[0], '|') == Row0Parts && Split(rows[1], '|') == Row1Parts && Split(rows[2], '|') == Row2Parts
      && Split(rows[3], '|') == Row3Parts && Split(rows[4], '|') == Row4Parts
  {
    FixtureCellsClean();
    RowSplits(Row0Parts);
    RowSplits(Row1Parts);
    RowSplits(Row2Parts);
    RowSplits(Row3Parts);
    RowSplits(Row4Parts);
  }

  /** Each row of the fixture holds a "|" and no newline. */
  lemma InitialRowsClean()
    ensures forall i :: 0 <= i < |InitialStateRows()| ==>
      '|' in InitialStateRows()[i] && '\n' !in InitialStateRows()[i]
  {
    var rows := InitialStateRows();
    FixtureCellsClean();
    forall i | 0 <= i < |rows|
      ensures '|' in rows[i] && '\n' !in rows[i]
    {
      if i == 0 {
        assert rows[i] == Join(Row0Parts, '|');
        RowSplits(Row0Parts);
      } else if i == 1 {
        assert rows[i] == Join(Row1Parts, '|');
        RowSplits(Row1Parts);
      } else if i == 2 {
        assert rows[i] == Join(Row2Parts, '|');
        RowSplits(Row2Parts);
      } else if i == 3 {
        assert rows[i] == Join(Row3Parts, '|');
        RowSplits(Row3Parts);
      } else {
        assert rows[i] == Join(Row4Parts, '|');
        RowSplits(Row4Parts);
      }
    }
  }

  /** The fixture's kept lines are its five rows. */
  lemma InitialStateKeptLines()
    ensures KeptLines(Split(InitialStateText(), '\n')) == InitialStateRows()
  {
    InitialRowsClean();
    FramedRowsKept(InitialStateRows());
  }

  /** The placements one row of five cells yields, cell by cell. */
  lemma RowOrbsFive(parts: seq<string>, y: int, marker: string)
    requires |parts| == 5
    ensures RowOrbs(parts, y, marker)
         == CellOrbs(parts[0], 0, y, marker) + CellOrbs(parts[1], 1, y, marker) + CellOrbs(parts[2], 2, y, marker)
          + CellOrbs(parts[3], 3, y, marker) + CellOrbs(parts[4], 4, y, marker)
  {
    assert parts[..1][..0] == [];
    assert RowOrbs(parts[..1], y, marker) == CellOrbs(parts[0], 0, y, marker);
    assert parts[..2][..1] == parts[..1];
    assert RowOrbs(parts[..2], y, marker) == RowOrbs(parts[..1], y, marker) + CellOrbs(parts[1], 1, y, marker);
    assert parts[..3][..2] == parts[..2];
    assert RowOrbs(parts[..3], y, marker) == RowOrbs(parts[..2], y, marker) + CellOrbs(parts[2], 2, y, marker);
    assert parts[..4][..3] == parts[..3];
    assert RowOrbs(parts[..4], y, marker) == RowOrbs(parts[..3], y, marker) + CellOrbs(parts[3], 3, y, marker);
    assert parts[..4] == parts[..|parts| - 1];
  }

  /** The placements five kept lines yield, line by line. */
  lemma GridOrbsFive(lines: seq<string>, marker: string)
    requires |lines| == 5
    ensures GridOrbs(lines, marker)
         == RowOrbs(Split(lines[0], '|'), 0, marker) + RowOrbs(Split(lines[1], '|'), 1, marker)
          + RowOrbs(Split(lines[2], '|'), 2, marker) + RowOrbs(Split(lines[3], '|'), 3, marker)
          + RowOrbs(Split(lines[4], '|'), 4, marker)
  {
    assert lines[..1][..0] == [];
    assert GridOrbs(lines[..1], marker) == RowOrbs(Split(lines[0], '|'), 0, marker);
    assert lines[..2][..1] == lines[..1];
    assert GridOrbs(lines[..2], marker) == GridOrbs(lines[..1], marker) + RowOrbs(Split(lines[1], '|'), 1, marker);
    assert lines[..3][..2] == lines[..2];
    assert GridOrbs(lines[..3], marker) == GridOrbs(lines[..2], marker) + RowOrbs(Split(lines[2], '|'), 2, marker);
    assert lines[..4][..3] == lines[..3];
    assert GridOrbs(lines[..4], marker) == GridOrbs(lines[..3], marker) + RowOrbs(Split(lines[3], '|'), 3, marker);
    assert lines[..4] == lines[..|lines| - 1];
  }

  // The placements of each row of the fixture.

  lemma Row0Orbs()
    ensures RowOrbs(Row0Parts, 0, UpTriangle) == [BoardOrb(Pos(0, 3), Digit(1), 2)]
  {
    RowOrbsFive(Row0Parts, 0, UpTriangle);
  }

  lemma Row1Orbs()
    ensures RowOrbs(Row1Parts, 1, UpTriangle) == [BoardOrb(Pos(1, 3), Digit(1), 1), BoardOrb(Pos(1, 4), Digit(1), 2)]
  {
    RowOrbsFive(Row1Parts, 1, UpTriangle);
  }

  lemma Row2Orbs()
    ensures RowOrbs(Row2Parts, 2, UpTriangle) == [BoardOrb(Pos(2, 2), Digit(1), 1), BoardOrb(Pos(2, 3), Digit(4), 2), BoardOrb(Pos(2, 4), Digit(1), 1)]
  {
    RowOrbsFive(Row2Parts, 2, UpTriangle);
  }

  lemma Row3Orbs()
    ensures RowOrbs(Row3Parts, 3, UpTriangle) == [BoardOrb(Pos(3, 3), Digit(1), 1)]
  {
    RowOrbsFive(Row3Parts, 3, UpTriangle);
  }

  lemma Row4Orbs()
    ensures RowOrbs(Row4Parts, 4, UpTriangle) == []
  {
    RowOrbsFive(Row4Parts, 4, UpTriangle);
  }

  /** Row by row, the fixture's cells yield the seven placements. */
  lemma InitialRowOrbs()
    ensures RowOrbs(Row0Parts, 0, UpTriangle) + RowOrbs(Row1Parts, 1, UpTriangle) + RowOrbs(Row2Parts, 2, UpTriangle)
          + RowOrbs(Row3Parts, 3, UpTriangle) + RowOrbs(Row4Parts, 4, UpTriangle)
         == InitialStateOrbs()
  {
    Row0Orbs();
    Row1Orbs();
    Row2Orbs();
    Row3Orbs();
    Row4Orbs();
  }

  /** `fromString` turns the `initialState` fixture into exactly these seven placements. */
  lemma InitialStateParses()
    ensures BoardOrbs(InitialStateText(), UpTriangle) == InitialStateOrbs()
  {
    InitialStateKeptLines();
    InitialRowsSplit();
    var rows := InitialStateRows();
    var m := UpTriangle;
    assert BoardOrbs(InitialStateText(), m) == GridOrbs(rows, m);
    GridOrbsFive(rows, m);
    assert GridOrbs(rows, m)
        == RowOrbs(Row0Parts, 0, m) + RowOrbs(Row1Parts, 1, m) + RowOrbs(Row2Parts, 2, m)
         + RowOrbs(Row3Parts, 3, m) + RowOrbs(Row4Parts, 4, m);
    InitialRowOrbs();
  }
}
