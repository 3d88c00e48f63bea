/** The older interface base classes: the same three states with integer codes, an
    unguarded shutdown, output refused unless running and never converted, the
    same geometry negotiation, reference counting without an opt-out, a byte
    scroll-back of a million bytes, and a screen dump that places every row with
    a cursor move. */
module LegacyBase {
  import opened Results
  import opened Bytes
  import opened Events
  import opened Geometry
  import Window
  import opened Sgr
  import Dump

  /** Every field of an older `Interface`. */
  datatype Fields = Fields(
    state: InterfaceState,
    title: string,
    referenceCount: int,
    receiveCallbacks: set<CallbackId>,
    sendCallbacks: set<CallbackId>,
    shutdownCallbacks: set<CallbackId>,
    titleCallbacks: set<CallbackId>,
    termClients: map<string, Metadata>,
    rows: int,
    cols: int,
    effects: seq<Effect>)

  function Registered(cb: Option<CallbackId>): set<CallbackId>
  {
    if cb.Some? then {cb.value} else {}
  }

  /** The unguarded `shutdown`: whatever the state, the interface ends up shut down
      and every shutdown callback is called again. */
  function AfterLegacyShutdown(s: InterfaceState): (t: InterfaceState)
    ensures Rank(s) <= Rank(t) && t != Initialized
  {
    InterfaceState.Shutdown
  }

  /** Unlike the newer guarded shutdown, the older one also closes an interface that
      never started; the two agree on every interface that did start, and repeating
      the older one changes nothing more. */
  lemma ShutdownVersionsDiffer(s: InterfaceState)
    ensures AfterLegacyShutdown(s) == AfterShutdown(s) <==> s != Initialized
    ensures AfterLegacyShutdown(AfterLegacyShutdown(s)) == AfterLegacyShutdown(s)
  {
  }

  /** The older `Interface`. */
  class Interface {
    var state: InterfaceState
    var title: string
    var referenceCount: int
    var receiveCallbacks: set<CallbackId>
    var sendCallbacks: set<CallbackId>
    var shutdownCallbacks: set<CallbackId>
    var titleCallbacks: set<CallbackId>
    var termClients: map<string, Metadata>
    var rows: int
    var cols: int
    var effects: seq<Effect>

    ghost function AllFields(): Fields
      reads this
    {
      Fields(state, title, referenceCount, receiveCallbacks, sendCallbacks, shutdownCallbacks,
             titleCallbacks, termClients, rows, cols, effects)
    }

    constructor (onReceive: Option<CallbackId>, onSend: Option<CallbackId>, onShutdown: Option<CallbackId>,
                 onTitle: Option<CallbackId>, cols: int, rows: int)
      ensures AllFields() == Fields(Initialized, "", 0, Registered(onReceive), Registered(onSend),
                                    Registered(onShutdown), Registered(onTitle), map[], rows, cols, [])
    {
      title := "";
      referenceCount := 0;
      state := Initialized;
      receiveCallbacks, sendCallbacks := Registered(onReceive), Registered(onSend);
      shutdownCallbacks, titleCallbacks := Registered(onShutdown), Registered(onTitle);
      termClients := map[];
      this.cols := cols;
      this.rows := rows;
      effects := [];
    }

    predicate IsRunning()
      reads this
    {
      state == Started
    }

    predicate IsShutdown()
      reads this
    {
      state == InterfaceState.Shutdown
    }

    /** `launch`: a fresh interface is marked running, its `launch_interface` hook
        runs, and the answer is true; in any other state nothing changes and the
        answer is false. */
    method Launch() returns (launched: bool)
      modifies this
      ensures launched <==> old(state) == Initialized
      ensures AllFields() == old(AllFields()).(state := AfterStart(old(state)),
                                               effects := old(effects) + if launched then [StartHook] else [])
    {
      if state != Initialized {
        return false;
      }
      state := Started;
      effects := effects + [StartHook];
      return true;
    }

    /** `start`: launches a fresh interface and does nothing otherwise. Returns
        whether the interface was started. */
    method Start() returns (started: bool)
      modifies this
      ensures started <==> old(state) == Initialized
      ensures started ==> IsRunning()
      ensures AllFields() == old(AllFields()).(state := AfterStart(old(state)),
                                               effects := old(effects) + if started then [StartHook] else [])
    {
      if state != Initialized {
        return false;
      }
      started := Launch();
    }

    /** `shutdown`: unguarded, so every call marks the interface shut down and calls
        the shutdown callbacks again. */
    method Shutdown()
      modifies this
      ensures IsShutdown()
      ensures AllFields() == old(AllFields()).(state := AfterLegacyShutdown(old(state)),
                                               effects := old(effects) + [ShutdownNotified(shutdownCallbacks)])
    {
      state := InterfaceState.Shutdown;
      effects := effects + [ShutdownNotified(shutdownCallbacks)];
    }

    /** `on_send_to_xterm`. */
    method OnSendToXterm(cb: CallbackId)
      modifies this
      ensures AllFields() == old(AllFields()).(sendCallbacks := old(sendCallbacks) + {cb})
    {
      sendCallbacks := sendCallbacks + {cb};
    }

    /** `on_receive_from_xterm`. */
    method OnReceiveFromXterm(cb: CallbackId)
      modifies this
      ensures AllFields() == old(AllFields()).(receiveCallbacks := old(receiveCallbacks) + {cb})
    {
      receiveCallbacks := receiveCallbacks + {cb};
    }

    /** `on_shutdown`. */
    method OnShutdown(cb: CallbackId)
      modifies this
      ensures AllFields() == old(AllFields()).(shutdownCallbacks := old(shutdownCallbacks) + {cb})
    {
      shutdownCallbacks := shutdownCallbacks + {cb};
    }

    /** `on_set_title`. */
    method OnSetTitle(cb: CallbackId)
      modifies this
      ensures AllFields() == old(AllFields()).(titleCallbacks := old(titleCallbacks) + {cb})
    {
      titleCallbacks := titleCallbacks + {cb};
    }

    /** `on_set_title_handle`: the title is recorded before the title callbacks are
        called with it. */
    method OnSetTitleHandle(t: string)
      modifies this
      ensures AllFields() == old(AllFields()).(title := t, effects := old(effects) + [TitleNotified(titleCallbacks, t)])
    {
      title := t;
      effects := effects + [TitleNotified(titleCallbacks, t)];
    }

    /** `send_to_xterm`: refused unless running (so also after shutdown); empty data
        is dropped; otherwise every send callback gets the bytes as they are. */
    method SendToXterm(data: seq<byte>) returns (o: Outcome)
      modifies this
      ensures o == if old(state) == Started then Pass else Fail(InterfaceNotStarted)
      ensures AllFields() == old(AllFields()).(effects := old(effects) +
          if o.Pass? && data != [] then [Sent(sendCallbacks, data)] else [])
    {
      if state != Started {
        return Fail(InterfaceNotStarted);
      }
      if data == [] {
        return Pass;
      }
      effects := effects + [Sent(sendCallbacks, data)];
      return Pass;
    }

    /** `receive_from_xterm`: every receive callback gets the data, in any state. */
    method ReceiveFromXterm(data: seq<byte>)
      modifies this
      ensures AllFields() == old(AllFields()).(effects := old(effects) + [Received(receiveCallbacks, data)])
    {
      effects := effects + [Received(receiveCallbacks, data)];
    }

    /** `term_client_metadata_update`: the client's report is merged into its entry,
        then the size becomes the smallest `rows` and `cols` over every tracked client
        and `set_size` is called with it; a client without either key makes the call
        raise `KeyError` after the merge. */
    method TermClientMetadataUpdate(clientId: string, data: Metadata) returns (o: Outcome)
      modifies this
      ensures termClients == Merge(old(termClients), clientId, data)
      ensures o.Pass? <==> AllReport(termClients, termClients.Keys, "rows") && AllReport(termClients, termClients.Keys, "cols")
      ensures o.Fail? ==> o.error == KeyError && AllFields() == old(AllFields()).(termClients := termClients)
      ensures o.Pass? ==> IsMinOver(termClients, termClients.Keys, "rows", rows)
      ensures o.Pass? ==> IsMinOver(termClients, termClients.Keys, "cols", cols)
      ensures o.Pass? ==> AllFields() == old(AllFields()).(termClients := termClients, rows := rows, cols := cols,
                                                          effects := old(effects) + [Resized(rows, cols)])
    {
      var merged := Merge(termClients, clientId, data);
      assert clientId in merged;
      var r := MinimumGeometry(merged);
      if r.Err? {
        termClients := merged;
        return Fail(KeyError);
      }
      SetGeometry(merged, r.value.0, r.value.1);
      return Pass;
    }

    /** The tail of `term_client_metadata_update`: the new client table and size are
        stored and `set_size` is called. */
    method SetGeometry(clients: map<string, Metadata>, newRows: int, newCols: int)
      modifies this
      ensures AllFields() == old(AllFields()).(termClients := clients, rows := newRows, cols := newCols,
                                               effects := old(effects) + [Resized(newRows, newCols)])
    {
      termClients, rows, cols, effects := clients, newRows, newCols, effects + [Resized(newRows, newCols)];
    }

    /** `reference_increment`. */
    method ReferenceIncrement()
      modifies this
      ensures AllFields() == old(AllFields()).(referenceCount := old(referenceCount) + 1)
    {
      referenceCount := referenceCount + 1;
    }

    /** `reference_decrement`: a shutdown is scheduled whenever the new count is at
        most zero; there is no way to opt out. */
    method ReferenceDecrement()
      modifies this
      ensures referenceCount == old(referenceCount) - 1
      ensures AllFields() == old(AllFields()).(referenceCount := referenceCount,
          effects := old(effects) + if referenceCount <= 0 then [ShutdownScheduled] else [])
    {
      referenceCount := referenceCount - 1;
      if referenceCount <= 0 {
        effects := effects + [ShutdownScheduled];
      }
    }
  }

  /** The class attribute `scrollback_buffer_size` of the older `BufferedInterface`. */
  const LegacyScrollbackSize: int := 1_000_000

  /** The older `BufferedInterface`: keeps the newest million bytes it sent. */
  class BufferedInterface {
    const base: Interface
    var scrollbackBuffer: seq<byte>
    /** Every byte accepted for sending so far. */
    ghost var sent: seq<byte>

    ghost predicate Valid()
      reads this
    {
      scrollbackBuffer == Window.KeepLast(sent, LegacyScrollbackSize)
    }

    constructor (onReceive: Option<CallbackId>, onSend: Option<CallbackId>, onShutdown: Option<CallbackId>,
                 onTitle: Option<CallbackId>, cols: int, rows: int)
      ensures Valid() && fresh(base) && scrollbackBuffer == [] && sent == []
      ensures base.AllFields() == Fields(Initialized, "", 0, Registered(onReceive), Registered(onSend),
                                         Registered(onShutdown), Registered(onTitle), map[], rows, cols, [])
    {
      base := new Interface(onReceive, onSend, onShutdown, onTitle, cols, rows);
      scrollbackBuffer := [];
      sent := [];
    }

    /** `send_to_xterm`: refused unless running; empty data is dropped; otherwise
        the data is added to the buffer, which is cut back to a million bytes, and
        handed on as the base class does. */
    method SendToXterm(data: seq<byte>) returns (o: Outcome)
      requires Valid()
      modifies this, base
      ensures Valid()
      ensures o == if old(base.state) == Started then Pass else Fail(InterfaceNotStarted)
      ensures o.Pass? && data != [] ==> sent == old(sent) + data
      ensures o.Pass? && data != [] ==> scrollbackBuffer == Window.KeepLast(old(scrollbackBuffer) + data, LegacyScrollbackSize)
      ensures |scrollbackBuffer| <= LegacyScrollbackSize
      ensures o.Fail? || data == [] ==> scrollbackBuffer == old(scrollbackBuffer) && sent == old(sent)
      ensures base.AllFields() == old(base.AllFields()).(effects := old(base.effects) +
          if o.Pass? && data != [] then [Sent(base.sendCallbacks, data)] else [])
    {
      if base.state != Started {
        return Fail(InterfaceNotStarted);
      }
      if data == [] {
        return Pass;
      }
      var buf := scrollbackBuffer + data;
      var delta := LegacyScrollbackSize - |buf|;
      if delta < 0 {
        buf := buf[-delta..];
      }
      Window.KeepLastAppend(sent, data, LegacyScrollbackSize);
      scrollbackBuffer := buf;
      sent := sent + data;
      o := base.SendToXterm(data);
    }

    /** `get_screen_display`: the newest bytes sent. */
    function GetScreenDisplay(): (r: seq<byte>)
      requires Valid()
      reads this
      ensures r == Window.KeepLast(sent, LegacyScrollbackSize)
      ensures |r| <= LegacyScrollbackSize
    {
      scrollbackBuffer
    }
  }

  /** The emulator screen of the older interfaces as the dumper sees it. */
  class Screen {
    var buffer: Dump.Grid
    const lines: nat
    const columns: nat
    var cursorY: int
    var cursorX: int

    constructor (columns: nat, lines: nat)
      ensures this.columns == columns && this.lines == lines
      ensures buffer == map[] && cursorY == 0 && cursorX == 0
    {
      this.columns := columns;
      this.lines := lines;
      buffer := map[];
      cursorY, cursorX := 0, 0;
    }
  }

  /** The older `PersistentInterface`. The colour tables are the emulator's
      `FG_ANSI` and `BG_ANSI`. */
  class PersistentInterface {
    const base: Interface
    const screen: Screen
    const fgT: ColourTable
    const bgT: ColourTable

    constructor (onReceive: Option<CallbackId>, onSend: Option<CallbackId>, onShutdown: Option<CallbackId>,
                 onTitle: Option<CallbackId>, cols: nat, rows: nat, fgT: ColourTable, bgT: ColourTable)
      ensures fresh(base) && fresh(screen)
      ensures base.AllFields() == Fields(Initialized, "", 0, Registered(onReceive), Registered(onSend),
                                         Registered(onShutdown), Registered(onTitle), map[], rows, cols, [])
      ensures screen.columns == cols && screen.lines == rows && screen.buffer == map[]
      ensures this.fgT == fgT && this.bgT == bgT
    {
      base := new Interface(onReceive, onSend, onShutdown, onTitle, cols, rows);
      screen := new Screen(cols, rows);
      this.fgT, this.bgT := fgT, bgT;
    }

    /** `dump_screen_state(screen)`: a reset, then each row placed with a cursor move
        to its first column and followed by a reset, then the cursor moved to the
        start of the last row. */
    method DumpScreenState(s: Screen) returns (buf: string)
      ensures buf == Dump.RenderAll(Dump.PositionedDump(fgT, bgT, s.buffer, s.lines, s.columns))
    {
      buf := Dump.DumpPositioned(fgT, bgT, s.buffer, s.lines, s.columns);
    }

    /** `get_screen_display`: the dump of this interface's own screen. */
    method GetScreenDisplay() returns (buf: string)
      ensures buf == Dump.RenderAll(Dump.PositionedDump(fgT, bgT, screen.buffer, screen.lines, screen.columns))
    {
      buf := DumpScreenState(screen);
    }

    /** `get_cursor_position`: the row first, then the column. */
    function GetCursorPosition(): (r: (int, int))
      reads this, screen
      ensures r.0 == screen.cursorY && r.1 == screen.cursorX
    {
      (screen.cursorY, screen.cursorX)
    }
  }
}
