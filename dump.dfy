/** The screen dumper: the emulator's grid (and, in the newer version, its
    scroll-back lines) written out as text with SGR sequences (ECMA-48 section
    8.3.117) that restore each cell's style and CUP sequences (ECMA-48 section
    8.3.21) that place the cursor. */
module Dump {
  import opened Sgr
  import Text

  /** The pieces a dump is made of, each rendered as text by `Render`. */
  datatype Piece =
    | Attrs(codes: seq<int>)      // ESC [ p1 ; p2 ; ... m
    | Chars(data: string)         // a cell's character
    | LineStart                   // "\n\r"
    | MoveTo(row: int, col: int)  // ESC [ row ; col H

  const Esc: char := '\U{1B}'

  function Params(codes: seq<int>): (r: seq<string>)
    ensures |r| == |codes|
    ensures forall i | 0 <= i < |codes| :: r[i] == Text.IntToString(codes[i])
  {
    if codes == [] then [] else [Text.IntToString(codes[0])] + Params(codes[1..])
  }

  function Render(p: Piece): string
  {
    match p
    case Attrs(codes) => [Esc, '['] + Text.Join(Params(codes), ";") + "m"
    case Chars(data) => data
    case LineStart => "\n\r"
    case MoveTo(row, col) => [Esc, '['] + Text.IntToString(row) + ";" + Text.IntToString(col) + "H"
  }

  /** The text of a dump: its pieces rendered one after the other. */
  function RenderAll(ps: seq<Piece>): string
  {
    if ps == [] then "" else RenderAll(ps[..|ps| - 1]) + Render(ps[|ps| - 1])
  }

  lemma {:induction false} RenderAllAppend(a: seq<Piece>, b: seq<Piece>)
    ensures RenderAll(a + b) == RenderAll(a) + RenderAll(b)
    decreases |b|
  {
    if b == [] {
      assert a + b == a;
    } else {
      var init, last := b[..|b| - 1], b[|b| - 1];
      assert (a + b)[..|a + b| - 1] == a + init;
      RenderAllAppend(a, init);
      Text.Assoc(RenderAll(a), RenderAll(init), Render(last));
    }
  }

  /** A control piece renders as a CSI sequence: ESC, '[', and the final byte of
      its command; a character piece renders as the character itself. */
  lemma RenderShape(p: Piece)
    ensures p.Attrs? ==> |Render(p)| >= 3 && Render(p)[..2] == [Esc, '['] && Render(p)[|Render(p)| - 1] == 'm'
    ensures p.MoveTo? ==> |Render(p)| >= 6 && Render(p)[..2] == [Esc, '['] && Render(p)[|Render(p)| - 1] == 'H'
    ensures p.Chars? ==> Render(p) == p.data
  {
  }

  /** The reset written at the start of a dump and at the end of each screen row. */
  lemma ResetText()
    ensures Render(Attrs([0])) == [Esc] + "[0m"
  {
  }

  /** The emulator's screen buffer: a dictionary from line number to the cells
      stored on that line, column by column. */
  type Grid = map<int, seq<Cell>>

  /** `screen.buffer[y]`: a line never written (or removed) holds no cells. */
  function RowOf(grid: Grid, y: int): seq<Cell>
  {
    if y in grid then grid[y] else []
  }

  /** `screen.buffer[y][x]`: lines and cells never written read as the blank cell. */
  function CellAt(grid: Grid, y: int, x: int): Cell
  {
    if 0 <= x < |RowOf(grid, y)| then RowOf(grid, y)[x] else BlankCell
  }

  /** Row `y` of a screen `columns` wide. */
  function ScreenRow(grid: Grid, y: int, columns: nat): seq<Cell>
  {
    seq(columns, x => CellAt(grid, y, x))
  }

  lemma ScreenRowAt(grid: Grid, y: int, columns: nat)
    ensures |ScreenRow(grid, y, columns)| == columns
    ensures forall x | 0 <= x < columns :: ScreenRow(grid, y, columns)[x] == CellAt(grid, y, x)
  {
  }

  /** The first `lines` rows of a screen `columns` wide, top to bottom. */
  function ScreenRows(grid: Grid, lines: nat, columns: nat): (r: seq<seq<Cell>>)
    ensures |r| == lines
  {
    if lines == 0 then [] else ScreenRows(grid, lines - 1, columns) + [ScreenRow(grid, lines - 1, columns)]
  }

  /** Row `y` of the first `lines` screen rows is screen row `y`. */
  lemma {:induction false} ScreenRowsAt(grid: Grid, lines: nat, columns: nat, y: int)
    requires 0 <= y < lines
    ensures |ScreenRows(grid, lines, columns)| == lines
    ensures ScreenRows(grid, lines, columns)[y] == ScreenRow(grid, y, columns)
  {
    if y < lines - 1 {
      ScreenRowsAt(grid, lines - 1, columns, y);
    } else if lines > 1 {
      ScreenRowsAt(grid, lines - 1, columns, 0);
    }
  }

  /** All screen rows are `columns` wide. */
  lemma ScreenRowsWidth(grid: Grid, lines: nat, columns: nat)
    ensures |ScreenRows(grid, lines, columns)| == lines
    ensures forall y | 0 <= y < lines :: |ScreenRows(grid, lines, columns)[y]| == columns
  {
    if lines > 0 {
      ScreenRowsAt(grid, lines, columns, 0);
    }
    forall y | 0 <= y < lines
      ensures |ScreenRows(grid, lines, columns)[y]| == columns
    {
      ScreenRowsAt(grid, lines, columns, y);
      ScreenRowAt(grid, y, columns);
    }
  }

  /** The cells of several lines, one line after the other. */
  function Flatten(lines: seq<seq<Cell>>): seq<Cell>
  {
    if lines == [] then [] else Flatten(lines[..|lines| - 1]) + lines[|lines| - 1]
  }

  /** Rows of one width hold that width times their number of cells. */
  lemma {:induction false} FlattenLength(rows: seq<seq<Cell>>, columns: nat)
    requires forall y | 0 <= y < |rows| :: |rows[y]| == columns
    ensures |Flatten(rows)| == |rows| * columns
  {
    if rows != [] {
      var n := |rows|;
      FlattenLength(rows[..n - 1], columns);
      assert n * columns == (n - 1) * columns + columns;
    }
  }

  /** Rows of one width flatten in row-major order: cell (y, x) is at `y * columns + x`. */
  lemma {:induction false} FlattenIndex(rows: seq<seq<Cell>>, columns: nat, y: int, x: int)
    requires forall k | 0 <= k < |rows| :: |rows[k]| == columns
    requires 0 <= y < |rows| && 0 <= x < columns
    ensures y * columns + x < |Flatten(rows)|
    ensures Flatten(rows)[y * columns + x] == rows[y][x]
  {
    var n := |rows|;
    var init := rows[..n - 1];
    FlattenLength(init, columns);
    FlattenLength(rows, columns);
    if y < n - 1 {
      FlattenIndex(init, columns, y, x);
    } else {
      assert y * columns == (n - 1) * columns;
    }
  }

  /** The screen's cells, row by row: `lines * columns` of them, and cell (y, x)
      of the buffer at `y * columns + x`. */
  lemma ScreenCellsAt(grid: Grid, lines: nat, columns: nat, y: int, x: int)
    requires 0 <= y < lines && 0 <= x < columns
    ensures |Flatten(ScreenRows(grid, lines, columns))| == lines * columns
    ensures y * columns + x < |Flatten(ScreenRows(grid, lines, columns))|
    ensures Flatten(ScreenRows(grid, lines, columns))[y * columns + x] == CellAt(grid, y, x)
  {
    ScreenRowsWidth(grid, lines, columns);
    ScreenRowsAt(grid, lines, columns, y);
    ScreenRowAt(grid, y, columns);
    FlattenLength(ScreenRows(grid, lines, columns), columns);
    FlattenIndex(ScreenRows(grid, lines, columns), columns, y, x);
  }

  /** The pieces for one cell: its SGR parameters, when there are any, then its
      character; and the tracked style afterwards. */
  function CellPieces(fgT: ColourTable, bgT: ColourTable, c: Cell, st: Style): (seq<Piece>, Style)
  {
    var (codes, st') := AttributeChanges(fgT, bgT, c, st);
    ((if codes == [] then [] else [Attrs(codes)]) + [Chars(c.data)], st')
  }

  /** The pieces for the cells of a line, left to right, with the tracked style
      carried from cell to cell. */
  function RowPieces(fgT: ColourTable, bgT: ColourTable, cells: seq<Cell>, st: Style): (seq<Piece>, Style)
  {
    if cells == [] then ([], st)
    else
      var (ps, s) := RowPieces(fgT, bgT, cells[..|cells| - 1], st);
      var (qs, s') := CellPieces(fgT, bgT, cells[|cells| - 1], s);
      (ps + qs, s')
  }

  /** The scroll-back lines, each after a line start, the tracked style carried
      across lines (no reset between them). */
  function ScrollbackPieces(fgT: ColourTable, bgT: ColourTable, lines: seq<seq<Cell>>, st: Style): (seq<Piece>, Style)
  {
    if lines == [] then ([], st)
    else
      var (ps, s) := ScrollbackPieces(fgT, bgT, lines[..|lines| - 1], st);
      var (qs, s') := RowPieces(fgT, bgT, lines[|lines| - 1], s);
      (ps + [LineStart] + qs, s')
  }

  /** Screen rows, each after a line start and followed by a reset, which also
      resets the tracked style. */
  function ScreenPieces(fgT: ColourTable, bgT: ColourTable, rows: seq<seq<Cell>>, st: Style)
    : (r: (seq<Piece>, Style))
    ensures r.1 == if rows == [] then st else Plain
  {
    if rows == [] then ([], st)
    else
      var (ps, s) := ScreenPieces(fgT, bgT, rows[..|rows| - 1], st);
      var (qs, _) := RowPieces(fgT, bgT, rows[|rows| - 1], s);
      (ps + [LineStart] + qs + [Attrs([0])], Plain)
  }

  /** `dump_screen_state` of the newer interface: a reset, the scroll-back lines,
      the `lines` screen rows, and the cursor placed on the last row. */
  function ScrollbackDump(fgT: ColourTable, bgT: ColourTable, scrollback: seq<seq<Cell>>,
                          grid: Grid, lines: nat, columns: nat): seq<Piece>
  {
    var (sb, s) := ScrollbackPieces(fgT, bgT, scrollback, Plain);
    var (sc, _) := ScreenPieces(fgT, bgT, ScreenRows(grid, lines, columns), s);
    [Attrs([0])] + sb + sc + [MoveTo(lines, 1)]
  }

  /** Screen rows as the older dumpers write them: row `y` (from 0) placed with a
      cursor move to the start of terminal row `y + 1` and followed by a reset. */
  function PositionedRows(fgT: ColourTable, bgT: ColourTable, rows: seq<seq<Cell>>): seq<Piece>
  {
    if rows == [] then []
    else PositionedRows(fgT, bgT, rows[..|rows| - 1]) + [MoveTo(|rows|, 1)]
         + RowPieces(fgT, bgT, rows[|rows| - 1], Plain).0 + [Attrs([0])]
  }

  /** `dump_screen_state` of the older interfaces. */
  function PositionedDump(fgT: ColourTable, bgT: ColourTable, grid: Grid, lines: nat, columns: nat): seq<Piece>
  {
    [Attrs([0])] + PositionedRows(fgT, bgT, ScreenRows(grid, lines, columns)) + [MoveTo(lines, 1)]
  }

  // ----- What a terminal shows when it reads a dump -----

  /** One piece as a terminal reads it: SGR parameters change its style, a
      character is drawn in the current style, line starts and cursor moves
      leave the style alone. */
  function Step(fgT: ColourTable, bgT: ColourTable, drawn: seq<(string, Style)>, st: Style, p: Piece)
    : (seq<(string, Style)>, Style)
  {
    match p
    case Attrs(codes) => (drawn, ApplySgr(fgT, bgT, st, codes))
    case Chars(data) => (drawn + [(data, st)], st)
    case LineStart => (drawn, st)
    case MoveTo(_, _) => (drawn, st)
  }

  /** The characters a terminal draws while reading `ps` from style `st`, each with
      the style it is drawn in, and the terminal's style at the end. */
  function Paint(fgT: ColourTable, bgT: ColourTable, ps: seq<Piece>, st: Style): (seq<(string, Style)>, Style)
  {
    if ps == [] then ([], st)
    else
      var r := Paint(fgT, bgT, ps[..|ps| - 1], st);
      Step(fgT, bgT, r.0, r.1, ps[|ps| - 1])
  }

  lemma StepPrefix(fgT: ColourTable, bgT: ColourTable, pre: seq<(string, Style)>, drawn: seq<(string, Style)>,
                   st: Style, p: Piece)
    ensures Step(fgT, bgT, pre + drawn, st, p)
         == (pre + Step(fgT, bgT, drawn, st, p).0, Step(fgT, bgT, drawn, st, p).1)
  {
    if p.Chars? {
      assert pre + drawn + [(p.data, st)] == pre + (drawn + [(p.data, st)]);
    }
  }

  lemma {:induction false} PaintAppend(fgT: ColourTable, bgT: ColourTable, a: seq<Piece>, b: seq<Piece>, st: Style)
    ensures Paint(fgT, bgT, a + b, st)
         == (Paint(fgT, bgT, a, st).0 + Paint(fgT, bgT, b, Paint(fgT, bgT, a, st).1).0,
             Paint(fgT, bgT, b, Paint(fgT, bgT, a, st).1).1)
    decreases |b|
  {
    var pa := Paint(fgT, bgT, a, st);
    if b == [] {
      assert a + b == a;
      assert pa.0 + [] == pa.0;
    } else {
      var init, last := b[..|b| - 1], b[|b| - 1];
      assert (a + b)[..|a + b| - 1] == a + init;
      PaintAppend(fgT, bgT, a, init, st);
      var pi := Paint(fgT, bgT, init, pa.1);
      StepPrefix(fgT, bgT, pa.0, pi.0, pi.1, last);
    }
  }

  /** The characters of `cells` in the styles the terminal is meant to show them in. */
  function Styled(fgT: ColourTable, bgT: ColourTable, cells: seq<Cell>): seq<(string, Style)>
  {
    if cells == [] then []
    else Styled(fgT, bgT, cells[..|cells| - 1]) + [(cells[|cells| - 1].data, Shown(fgT, bgT, cells[|cells| - 1]))]
  }

  /** Each cell is drawn once, in order, in the style it is shown in. */
  lemma {:induction false} StyledAt(fgT: ColourTable, bgT: ColourTable, cells: seq<Cell>)
    ensures |Styled(fgT, bgT, cells)| == |cells|
    ensures forall i | 0 <= i < |cells| :: Styled(fgT, bgT, cells)[i] == (cells[i].data, Shown(fgT, bgT, cells[i]))
  {
    if cells != [] {
      StyledAt(fgT, bgT, cells[..|cells| - 1]);
    }
  }

  lemma StyledSnoc(fgT: ColourTable, bgT: ColourTable, init: seq<Cell>, c: Cell)
    ensures Styled(fgT, bgT, init + [c]) == Styled(fgT, bgT, init) + [(c.data, Shown(fgT, bgT, c))]
  {
    assert (init + [c])[..|init|] == init;
  }

  lemma {:induction false} StyledAppend(fgT: ColourTable, bgT: ColourTable, a: seq<Cell>, b: seq<Cell>)
    ensures Styled(fgT, bgT, a + b) == Styled(fgT, bgT, a) + Styled(fgT, bgT, b)
    decreases |b|
  {
    if b == [] {
      assert a + b == a;
    } else {
      var init, last := b[..|b| - 1], b[|b| - 1];
      assert a + b == (a + init) + [last];
      StyledSnoc(fgT, bgT, a + init, last);
      StyledAppend(fgT, bgT, a, init);
      Text.Assoc(Styled(fgT, bgT, a), Styled(fgT, bgT, init), [(last.data, Shown(fgT, bgT, last))]);
    }
  }

  /** A cell's pieces draw its character in the style it is shown in, and leave the
      terminal in the style the dumper tracks. */
  lemma CellPaints(fgT: ColourTable, bgT: ColourTable, c: Cell, st: Style)
    requires TablesOk(fgT, bgT) && Reachable(fgT, bgT, st)
    ensures var (ps, st') := CellPieces(fgT, bgT, c, st);
      Paint(fgT, bgT, ps, st) == ([(c.data, Shown(fgT, bgT, c))], st') && st' == Shown(fgT, bgT, c)
  {
    var (codes, st') := AttributeChanges(fgT, bgT, c, st);
    ChangesReachTracked(fgT, bgT, c, st);
    TrackedIsShown(fgT, bgT, c, st);
    var ps := CellPieces(fgT, bgT, c, st).0;
    if codes == [] {
      assert ps == [Chars(c.data)];
      assert ps[..0] == [];
      assert st' == ApplySgr(fgT, bgT, st, codes) == st;
      assert Paint(fgT, bgT, ps, st) == ([] + [(c.data, st)], st);
      assert [] + [(c.data, st)] == [(c.data, Shown(fgT, bgT, c))];
      assert CellPieces(fgT, bgT, c, st).1 == Shown(fgT, bgT, c);
    } else {
      assert ps == [Attrs(codes), Chars(c.data)];
      assert ps[..1] == [Attrs(codes)];
      assert ps[..1][..0] == [];
      assert Paint(fgT, bgT, ps[..1], st) == ([], st');
      assert Paint(fgT, bgT, ps, st) == ([] + [(c.data, st')], st');
      assert [] + [(c.data, st')] == [(c.data, Shown(fgT, bgT, c))];
      assert CellPieces(fgT, bgT, c, st).1 == Shown(fgT, bgT, c);
    }
  }

  /** A line's pieces draw its characters in the styles they are shown in; the
      tracked style stays one the terminal is in and one the tables can name. */
  lemma {:induction false} RowPaints(fgT: ColourTable, bgT: ColourTable, cells: seq<Cell>, st: Style)
    requires TablesOk(fgT, bgT) && Reachable(fgT, bgT, st)
    ensures Paint(fgT, bgT, RowPieces(fgT, bgT, cells, st).0, st)
         == (Styled(fgT, bgT, cells), RowPieces(fgT, bgT, cells, st).1)
    ensures Reachable(fgT, bgT, RowPieces(fgT, bgT, cells, st).1)
    decreases |cells|
  {
    if cells != [] {
      var init, c := cells[..|cells| - 1], cells[|cells| - 1];
      assert init + [c] == cells;
      var ri := RowPieces(fgT, bgT, init, st);
      RowPaints(fgT, bgT, init, st);
      var rc := CellPieces(fgT, bgT, c, ri.1);
      CellPaints(fgT, bgT, c, ri.1);
      TrackedIsShown(fgT, bgT, c, ri.1);
      assert RowPieces(fgT, bgT, cells, st) == (ri.0 + rc.0, rc.1);
      PaintAppend(fgT, bgT, ri.0, rc.0, st);
      assert Paint(fgT, bgT, ri.0 + rc.0, st) == (Styled(fgT, bgT, init) + [(c.data, Shown(fgT, bgT, c))], rc.1);
      StyledSnoc(fgT, bgT, init, c);
    }
  }

  lemma {:induction false} ScrollbackPaints(fgT: ColourTable, bgT: ColourTable, lines: seq<seq<Cell>>, st: Style)
    requires TablesOk(fgT, bgT) && Reachable(fgT, bgT, st)
    ensures Paint(fgT, bgT, ScrollbackPieces(fgT, bgT, lines, st).0, st)
         == (Styled(fgT, bgT, Flatten(lines)), ScrollbackPieces(fgT, bgT, lines, st).1)
    ensures Reachable(fgT, bgT, ScrollbackPieces(fgT, bgT, lines, st).1)
    decreases |lines|
  {
    if lines != [] {
      var init, line := lines[..|lines| - 1], lines[|lines| - 1];
      assert Flatten(lines) == Flatten(init) + line;
      StyledAppend(fgT, bgT, Flatten(init), line);
      var ri := ScrollbackPieces(fgT, bgT, init, st);
      ScrollbackPaints(fgT, bgT, init, st);
      var rl := RowPieces(fgT, bgT, line, ri.1);
      RowPaints(fgT, bgT, line, ri.1);
      LineStartPaints(fgT, bgT, ri.0, st);
      PaintAppend(fgT, bgT, ri.0 + [LineStart], rl.0, st);
    }
  }

  /** A line start draws nothing and leaves the style alone. */
  lemma LineStartPaints(fgT: ColourTable, bgT: ColourTable, ps: seq<Piece>, st: Style)
    ensures Paint(fgT, bgT, ps + [LineStart], st) == Paint(fgT, bgT, ps, st)
  {
    assert (ps + [LineStart])[..|ps|] == ps;
  }

  /** A cursor move draws nothing and leaves the style alone. */
  lemma MoveToPaints(fgT: ColourTable, bgT: ColourTable, ps: seq<Piece>, row: int, col: int, st: Style)
    ensures Paint(fgT, bgT, ps + [MoveTo(row, col)], st) == Paint(fgT, bgT, ps, st)
  {
    assert (ps + [MoveTo(row, col)])[..|ps|] == ps;
  }

  /** A reset draws nothing and leaves the terminal in the plain style. */
  lemma ResetPaints(fgT: ColourTable, bgT: ColourTable, ps: seq<Piece>, st: Style)
    ensures Paint(fgT, bgT, ps + [Attrs([0])], st) == (Paint(fgT, bgT, ps, st).0, Plain)
  {
    assert (ps + [Attrs([0])])[..|ps|] == ps;
    assert [0][..0] == [];
  }

  /** A screen row as both dumpers frame it: an opening line start or cursor move,
      the row's pieces, then a reset. */
  lemma FramedRowPaints(fgT: ColourTable, bgT: ColourTable, ps: seq<Piece>, opener: Piece, row: seq<Cell>,
                        st: Style, drawn: seq<(string, Style)>, s: Style)
    requires TablesOk(fgT, bgT) && Reachable(fgT, bgT, s)
    requires opener == LineStart || opener.MoveTo?
    requires Paint(fgT, bgT, ps, st) == (drawn, s)
    ensures Paint(fgT, bgT, ps + [opener] + RowPieces(fgT, bgT, row, s).0 + [Attrs([0])], st)
         == (drawn + Styled(fgT, bgT, row), Plain)
  {
    var rr := RowPieces(fgT, bgT, row, s);
    RowPaints(fgT, bgT, row, s);
    if opener == LineStart {
      LineStartPaints(fgT, bgT, ps, st);
    } else {
      MoveToPaints(fgT, bgT, ps, opener.row, opener.col, st);
    }
    PaintAppend(fgT, bgT, ps + [opener], rr.0, st);
    ResetPaints(fgT, bgT, ps + [opener] + rr.0, st);
  }

  lemma {:induction false} ScreenPaints(fgT: ColourTable, bgT: ColourTable, rows: seq<seq<Cell>>, st: Style)
    requires TablesOk(fgT, bgT) && Reachable(fgT, bgT, st)
    ensures Draws(fgT, bgT, ScreenPieces(fgT, bgT, rows, st).0, st, Flatten(rows), ScreenPieces(fgT, bgT, rows, st).1)
  {
    if rows != [] {
      var init := rows[..|rows| - 1];
      var ri := ScreenPieces(fgT, bgT, init, st);
      ScreenPaints(fgT, bgT, init, st);
      NextRowPaints(fgT, bgT, ri.0, st, LineStart, Flatten(init), ri.1, rows[|rows| - 1]);
    } else {
      assert Styled(fgT, bgT, Flatten(rows)) == [];
    }
  }

  /** The opening reset and the scroll-back lines draw the scroll-back cells. */
  lemma ScrollbackPartPaints(fgT: ColourTable, bgT: ColourTable, scrollback: seq<seq<Cell>>, st: Style)
    requires TablesOk(fgT, bgT)
    ensures Paint(fgT, bgT, [Attrs([0])] + ScrollbackPieces(fgT, bgT, scrollback, Plain).0, st)
         == (Styled(fgT, bgT, Flatten(scrollback)), ScrollbackPieces(fgT, bgT, scrollback, Plain).1)
    ensures Reachable(fgT, bgT, ScrollbackPieces(fgT, bgT, scrollback, Plain).1)
  {
    ResetPaints(fgT, bgT, [], st);
    assert [] + [Attrs([0])] == [Attrs([0])];
    ScrollbackPaints(fgT, bgT, scrollback, Plain);
    assert Paint(fgT, bgT, [Attrs([0])], st) == ([], Plain);
    PaintAppend(fgT, bgT, [Attrs([0])], ScrollbackPieces(fgT, bgT, scrollback, Plain).0, st);
    assert [] + Styled(fgT, bgT, Flatten(scrollback)) == Styled(fgT, bgT, Flatten(scrollback));
  }

  /** Replaying the newer dump from any style draws every scroll-back cell and then
      every screen cell, row by row, each in the style it is shown in. */
  lemma ScrollbackDumpReplays(fgT: ColourTable, bgT: ColourTable, scrollback: seq<seq<Cell>>,
                              grid: Grid, lines: nat, columns: nat, st: Style)
    requires TablesOk(fgT, bgT)
    ensures Paint(fgT, bgT, ScrollbackDump(fgT, bgT, scrollback, grid, lines, columns), st).0
         == Styled(fgT, bgT, Flatten(scrollback) + Flatten(ScreenRows(grid, lines, columns)))
  {
    var rows := ScreenRows(grid, lines, columns);
    StyledAppend(fgT, bgT, Flatten(scrollback), Flatten(rows));
    var rs := ScrollbackPieces(fgT, bgT, scrollback, Plain);
    var pre := [Attrs([0])] + rs.0;
    ScrollbackPartPaints(fgT, bgT, scrollback, st);
    var sc := ScreenPieces(fgT, bgT, rows, rs.1).0;
    ScreenPaints(fgT, bgT, rows, rs.1);
    PaintAppend(fgT, bgT, pre, sc, st);
    MoveToPaints(fgT, bgT, pre + sc, lines, 1, st);
  }

  /** Replaying `ps` from style `st` draws `cells`, each in the style it is shown
      in, and leaves the terminal in style `s`. */
  predicate Draws(fgT: ColourTable, bgT: ColourTable, ps: seq<Piece>, st: Style, cells: seq<Cell>, s: Style)
  {
    Paint(fgT, bgT, ps, st) == (Styled(fgT, bgT, cells), s)
  }

  /** A framed row after pieces that drew `before` draws `before` followed by that
      row, and ends plain. */
  lemma NextRowPaints(fgT: ColourTable, bgT: ColourTable, ps: seq<Piece>, st: Style, opener: Piece,
                      before: seq<Cell>, s: Style, row: seq<Cell>)
    requires TablesOk(fgT, bgT) && Reachable(fgT, bgT, s)
    requires opener == LineStart || opener.MoveTo?
    requires Draws(fgT, bgT, ps, st, before, s)
    ensures Draws(fgT, bgT, ps + [opener] + RowPieces(fgT, bgT, row, s).0 + [Attrs([0])], st, before + row, Plain)
  {
    FramedRowPaints(fgT, bgT, ps, opener, row, st, Styled(fgT, bgT, before), s);
    StyledAppend(fgT, bgT, before, row);
  }

  lemma {:induction false} PositionedRowsPaint(fgT: ColourTable, bgT: ColourTable, rows: seq<seq<Cell>>)
    requires TablesOk(fgT, bgT)
    ensures Draws(fgT, bgT, PositionedRows(fgT, bgT, rows), Plain, Flatten(rows), Plain)
  {
    if rows != [] {
      var init := rows[..|rows| - 1];
      PositionedRowsPaint(fgT, bgT, init);
      NextRowPaints(fgT, bgT, PositionedRows(fgT, bgT, init), Plain, MoveTo(|rows|, 1),
                    Flatten(init), Plain, rows[|rows| - 1]);
    } else {
      assert Styled(fgT, bgT, Flatten(rows)) == [];
    }
  }

  /** Replaying an older dump from any style draws exactly the `lines` by `columns`
      screen cells, row by row, each in the style it is shown in. */
  lemma PositionedDumpReplays(fgT: ColourTable, bgT: ColourTable, grid: Grid, lines: nat, columns: nat,
                              st: Style)
    requires TablesOk(fgT, bgT)
    ensures Paint(fgT, bgT, PositionedDump(fgT, bgT, grid, lines, columns), st).0
         == Styled(fgT, bgT, Flatten(ScreenRows(grid, lines, columns)))
    ensures |Paint(fgT, bgT, PositionedDump(fgT, bgT, grid, lines, columns), st).0| == lines * columns
  {
    var rows := ScreenRows(grid, lines, columns);
    ScreenRowsWidth(grid, lines, columns);
    FlattenLength(rows, columns);
    StyledAt(fgT, bgT, Flatten(rows));
    var ps := PositionedRows(fgT, bgT, rows);
    ResetPaints(fgT, bgT, [], st);
    assert [] + [Attrs([0])] == [Attrs([0])];
    PositionedRowsPaint(fgT, bgT, rows);
    PaintAppend(fgT, bgT, [Attrs([0])], ps, st);
    MoveToPaints(fgT, bgT, [Attrs([0])] + ps, lines, 1, st);
  }

  // ----- The dumpers as they run -----

  lemma RenderAllSnoc(ps: seq<Piece>, p: Piece)
    ensures RenderAll(ps + [p]) == RenderAll(ps) + Render(p)
  {
    assert (ps + [p])[..|ps|] == ps;
  }

  lemma Regroup(a: seq<Piece>, b: seq<Piece>, c: seq<Piece>, d: seq<Piece>, e: seq<Piece>)
    ensures a + b + c + d + e == a + (b + c + d + e)
    ensures a + b + c + d == a + (b + c + d)
  {
  }

  /** The text of a framed row is the texts of its parts. */
  lemma RenderFramed(before: seq<Piece>, opener: Piece, cells: seq<Piece>)
    ensures RenderAll(before + [opener] + cells + [Attrs([0])])
         == RenderAll(before) + Render(opener) + RenderAll(cells) + Render(Attrs([0]))
  {
    RenderAllSnoc(before, opener);
    RenderAllAppend(before + [opener], cells);
    RenderAllSnoc(before + [opener] + cells, Attrs([0]));
  }

  /** The text of a cell: its SGR sequence when it has parameters, then its character. */
  lemma CellText(fgT: ColourTable, bgT: ColourTable, before: seq<Piece>, c: Cell, st: Style)
    ensures var codes := AttributeChanges(fgT, bgT, c, st).0;
      RenderAll(before + CellPieces(fgT, bgT, c, st).0)
      == RenderAll(before) + (if codes == [] then "" else Render(Attrs(codes))) + c.data
  {
    var codes := AttributeChanges(fgT, bgT, c, st).0;
    if codes == [] {
      assert before + CellPieces(fgT, bgT, c, st).0 == before + [Chars(c.data)];
      RenderAllSnoc(before, Chars(c.data));
      assert RenderAll(before) + "" == RenderAll(before);
    } else {
      assert before + CellPieces(fgT, bgT, c, st).0 == before + [Attrs(codes)] + [Chars(c.data)];
      RenderAllSnoc(before, Attrs(codes));
      RenderAllSnoc(before + [Attrs(codes)], Chars(c.data));
    }
  }

  /** One more cell of a line. */
  lemma RowStep(fgT: ColourTable, bgT: ColourTable, cells: seq<Cell>, x: nat, st: Style)
    requires x < |cells|
    ensures var r := RowPieces(fgT, bgT, cells[..x], st);
      RowPieces(fgT, bgT, cells[..x + 1], st)
      == (r.0 + CellPieces(fgT, bgT, cells[x], r.1).0, CellPieces(fgT, bgT, cells[x], r.1).1)
  {
    assert cells[..x + 1][..x] == cells[..x];
  }

  /** The inner loop over the cells of a line: each cell's SGR sequence, when it
      has parameters, then its character. */
  method WriteRow(fgT: ColourTable, bgT: ColourTable, cells: seq<Cell>, st: Style)
    returns (text: string, st': Style)
    ensures text == RenderAll(RowPieces(fgT, bgT, cells, st).0)
    ensures st' == RowPieces(fgT, bgT, cells, st).1
  {
    text, st' := "", st;
    var x := 0;
    while x < |cells|
      invariant 0 <= x <= |cells|
      invariant text == RenderAll(RowPieces(fgT, bgT, cells[..x], st).0)
      invariant st' == RowPieces(fgT, bgT, cells[..x], st).1
    {
      RowStep(fgT, bgT, cells, x, st);
      CellText(fgT, bgT, RowPieces(fgT, bgT, cells[..x], st).0, cells[x], st');
      var attrs, next := GetAttributeChanges(fgT, bgT, cells[x], st');
      if attrs != [] {
        text := text + Render(Attrs(attrs));
      }
      text := text + cells[x].data;
      st' := next;
      x := x + 1;
    }
    assert cells[..x] == cells;
  }

  /** One more scroll-back line. */
  lemma ScrollbackStep(fgT: ColourTable, bgT: ColourTable, lines: seq<seq<Cell>>, y: nat, st: Style)
    requires y < |lines|
    ensures var r := ScrollbackPieces(fgT, bgT, lines[..y], st);
      ScrollbackPieces(fgT, bgT, lines[..y + 1], st)
      == (r.0 + [LineStart] + RowPieces(fgT, bgT, lines[y], r.1).0, RowPieces(fgT, bgT, lines[y], r.1).1)
  {
    assert lines[..y + 1][..y] == lines[..y];
  }

  /** One more screen row: its text follows the text of the rows before it. */
  lemma ScreenStep(fgT: ColourTable, bgT: ColourTable, rows: seq<seq<Cell>>, row: nat, st: Style)
    requires row < |rows|
    ensures var r := ScreenPieces(fgT, bgT, rows[..row], st);
      RenderAll(ScreenPieces(fgT, bgT, rows[..row + 1], st).0)
      == RenderAll(r.0) + Render(LineStart) + RenderAll(RowPieces(fgT, bgT, rows[row], r.1).0) + Render(Attrs([0]))
    ensures ScreenPieces(fgT, bgT, rows[..row + 1], st).1 == Plain
  {
    assert rows[..row + 1][..row] == rows[..row];
    var r := ScreenPieces(fgT, bgT, rows[..row], st);
    RenderFramed(r.0, LineStart, RowPieces(fgT, bgT, rows[row], r.1).0);
  }

  /** The text of a scroll-back line: a line start, then its cells. */
  lemma RenderLine(before: seq<Piece>, cells: seq<Piece>)
    ensures RenderAll(before + [LineStart] + cells) == RenderAll(before) + "\n\r" + RenderAll(cells)
  {
    RenderAllSnoc(before, LineStart);
    RenderAllAppend(before + [LineStart], cells);
  }

  lemma RenderAllSingle(p: Piece)
    ensures RenderAll([p]) == Render(p)
  {
    assert [p][..0] == [];
    assert "" + Render(p) == Render(p);
  }

  /** The text of a piece, two runs of pieces and a last piece. */
  lemma RenderParts(first: Piece, a: seq<Piece>, b: seq<Piece>, last: Piece)
    ensures RenderAll([first] + a + b + [last]) == Render(first) + RenderAll(a) + RenderAll(b) + Render(last)
  {
    RenderAllSingle(first);
    RenderAllAppend([first], a);
    RenderAllAppend([first] + a, b);
    RenderAllSnoc([first] + a + b, last);
  }

  /** The scroll-back part of the newer dump, line by line, carrying the tracked
      style from line to line. */
  method WriteScrollback(fgT: ColourTable, bgT: ColourTable, scrollback: seq<seq<Cell>>, st: Style)
    returns (text: string, s: Style)
    ensures text == RenderAll(ScrollbackPieces(fgT, bgT, scrollback, st).0)
    ensures s == ScrollbackPieces(fgT, bgT, scrollback, st).1
  {
    text := "";
    s := st;
    assert scrollback[..0] == [];
    var y := 0;
    while y < |scrollback|
      invariant 0 <= y <= |scrollback|
      invariant text == RenderAll(ScrollbackPieces(fgT, bgT, scrollback[..y], st).0)
      invariant s == ScrollbackPieces(fgT, bgT, scrollback[..y], st).1
    {
      ScrollbackStep(fgT, bgT, scrollback, y, st);
      RenderLine(ScrollbackPieces(fgT, bgT, scrollback[..y], st).0, RowPieces(fgT, bgT, scrollback[y], s).0);
      var line, next := WriteRow(fgT, bgT, scrollback[y], s);
      text := text + Render(LineStart) + line;
      s := next;
      y := y + 1;
    }
    assert scrollback[..y] == scrollback;
  }

  /** The screen part of the newer dump, row by row, each row closed by a reset. */
  method WriteScreen(fgT: ColourTable, bgT: ColourTable, grid: Grid, lines: nat, columns: nat, st: Style)
    returns (text: string)
    ensures text == RenderAll(ScreenPieces(fgT, bgT, ScreenRows(grid, lines, columns), st).0)
  {
    ghost var rows := ScreenRows(grid, lines, columns);
    text := "";
    var current := st;
    assert rows[..0] == [];
    var row := 0;
    while row < lines
      invariant 0 <= row <= lines
      invariant text == RenderAll(ScreenPieces(fgT, bgT, rows[..row], st).0)
      invariant current == ScreenPieces(fgT, bgT, rows[..row], st).1
    {
      ScreenRowsAt(grid, lines, columns, row);
      ScreenStep(fgT, bgT, rows, row, st);
      var line, _ := WriteRow(fgT, bgT, ScreenRow(grid, row, columns), current);
      text := text + Render(LineStart) + line + Render(Attrs([0]));
      current := Plain;
      row := row + 1;
    }
    assert rows[..lines] == rows;
  }

  /** `dump_screen_state` of the newer interface: a reset, the scroll-back, the
      screen, and the final cursor move. */
  method DumpWithScrollback(fgT: ColourTable, bgT: ColourTable, scrollback: seq<seq<Cell>>,
                            grid: Grid, lines: nat, columns: nat) returns (buf: string)
    ensures buf == RenderAll(ScrollbackDump(fgT, bgT, scrollback, grid, lines, columns))
  {
    var sb, s := WriteScrollback(fgT, bgT, scrollback, Plain);
    var sc := WriteScreen(fgT, bgT, grid, lines, columns, s);
    buf := Render(Attrs([0])) + sb + sc + Render(MoveTo(lines, 1));
    ghost var sbp := ScrollbackPieces(fgT, bgT, scrollback, Plain).0;
    ghost var scp := ScreenPieces(fgT, bgT, ScreenRows(grid, lines, columns), s).0;
    RenderParts(Attrs([0]), sbp, scp, MoveTo(lines, 1));
    assert ScrollbackDump(fgT, bgT, scrollback, grid, lines, columns) == [Attrs([0])] + sbp + scp + [MoveTo(lines, 1)];
  }

  /** `dump_screen_state` of the older interfaces, building its text piece by piece. */
  method DumpPositioned(fgT: ColourTable, bgT: ColourTable, grid: Grid, lines: nat, columns: nat)
    returns (buf: string)
    ensures buf == RenderAll(PositionedDump(fgT, bgT, grid, lines, columns))
  {
    buf := Render(Attrs([0]));
    assert [Attrs([0])][..0] == [];
    var current := Plain;
    ghost var rows := ScreenRows(grid, lines, columns);
    assert rows[..0] == [];
    var y := 0;
    while y < lines
      invariant 0 <= y <= lines
      invariant buf == RenderAll([Attrs([0])] + PositionedRows(fgT, bgT, rows[..y]))
      invariant current == Plain
    {
      assert rows[..y + 1][..y] == rows[..y];
      ScreenRowsAt(grid, lines, columns, y);
      ghost var r := PositionedRows(fgT, bgT, rows[..y]);
      ghost var cells := RowPieces(fgT, bgT, ScreenRow(grid, y, columns), Plain).0;
      RenderFramed([Attrs([0])] + r, MoveTo(y + 1, 1), cells);
      Regroup([Attrs([0])], r, [MoveTo(y + 1, 1)], cells, [Attrs([0])]);
      var text, _ := WriteRow(fgT, bgT, ScreenRow(grid, y, columns), current);
      buf := buf + Render(MoveTo(y + 1, 1)) + text + Render(Attrs([0]));
      current := Plain;
      y := y + 1;
    }
    assert rows[..lines] == rows;
    RenderAllSnoc([Attrs([0])] + PositionedRows(fgT, bgT, rows), MoveTo(lines, 1));
    buf := buf + Render(MoveTo(lines, 1));
  }
  /** A run of pieces between a reset and a cursor move renders between their texts. */
  lemma FramedText(a: seq<Piece>, b: seq<Piece>, row: int)
    ensures var t, e := RenderAll([Attrs([0])] + a + b + [MoveTo(row, 1)]), Render(MoveTo(row, 1));
      |t| >= 4 + |e| && t[..4] == [Esc] + "[0m" && t[|t| - |e|..] == e
  {
    ResetText();
    RenderParts(Attrs([0]), a, b, MoveTo(row, 1));
    var r, x, y, e := Render(Attrs([0])), RenderAll(a), RenderAll(b), Render(MoveTo(row, 1));
    var t := r + x + y + e;
    assert |r| == 4;
    assert t[..4] == r;
    assert t[|t| - |e|..] == e;
  }

  /** Both dumps are framed the same way: their text opens with the reset `ESC[0m`
      and closes with the cursor move `ESC[{lines};1H`. */
  lemma DumpFrames(fgT: ColourTable, bgT: ColourTable, scrollback: seq<seq<Cell>>,
                   grid: Grid, lines: nat, columns: nat)
    ensures var t, e := RenderAll(PositionedDump(fgT, bgT, grid, lines, columns)), Render(MoveTo(lines, 1));
      |t| >= 4 + |e| && t[..4] == [Esc] + "[0m" && t[|t| - |e|..] == e
    ensures var t, e := RenderAll(ScrollbackDump(fgT, bgT, scrollback, grid, lines, columns)), Render(MoveTo(lines, 1));
      |t| >= 4 + |e| && t[..4] == [Esc] + "[0m" && t[|t| - |e|..] == e
  {
    var rows := PositionedRows(fgT, bgT, ScreenRows(grid, lines, columns));
    assert PositionedDump(fgT, bgT, grid, lines, columns) == [Attrs([0])] + rows + [] + [MoveTo(lines, 1)];
    FramedText(rows, [], lines);
    var (sb, s) := ScrollbackPieces(fgT, bgT, scrollback, Plain);
    var (sc, _) := ScreenPieces(fgT, bgT, ScreenRows(grid, lines, columns), s);
    FramedText(sb, sc, lines);
  }
}
