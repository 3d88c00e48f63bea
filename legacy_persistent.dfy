/** The process wrapper of the oldest layout: an emulator screen kept beside a
    wrapped process, dumped as a text string rather than encoded bytes. */
module LegacyPersistent {
  import opened Sgr
  import Dump
  import LegacyBase

  /** `PersistentInterface` of the process wrapper. The wrapped process is not part
      of this model; the colour tables are the emulator's `FG_ANSI` and `BG_ANSI`. */
  class PersistentInterface {
    const screen: LegacyBase.Screen
    const fgT: ColourTable
    const bgT: ColourTable

    /** `__init__`: a blank screen of the requested size. */
    constructor (cols: nat, rows: nat, fgT: ColourTable, bgT: ColourTable)
      ensures fresh(screen)
      ensures screen.columns == cols && screen.lines == rows && screen.buffer == map[]
      ensures screen.cursorY == 0 && screen.cursorX == 0
      ensures this.fgT == fgT && this.bgT == bgT
    {
      screen := new LegacyBase.Screen(cols, rows);
      this.fgT, this.bgT := fgT, bgT;
    }

    /** `dump_screen_state(screen)`: a reset, then each row placed with a cursor move
        to its first column, its cells with the style changes they need, and a
        reset; then the cursor moved to the start of the last row. */
    method DumpScreenState(s: LegacyBase.Screen) returns (buf: string)
      ensures buf == Dump.RenderAll(Dump.PositionedDump(fgT, bgT, s.buffer, s.lines, s.columns))
    {
      buf := Dump.DumpPositioned(fgT, bgT, s.buffer, s.lines, s.columns);
    }

    /** `get_screen_display`: the dump of the wrapper's own screen. */
    method GetScreenDisplay() returns (buf: string)
      ensures buf == Dump.RenderAll(Dump.PositionedDump(fgT, bgT, screen.buffer, screen.lines, screen.columns))
    {
      buf := DumpScreenState(screen);
    }

    /** `get_cursor_position`: the row first, then the column. */
    function GetCursorPosition(): (r: (int, int))
      reads this, screen
      ensures r.0 == screen.cursorY && r.1 == screen.cursorX
    {
      (screen.cursorY, screen.cursorX)
    }
  }
}
