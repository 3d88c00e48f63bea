/** The newer interface base classes: the lifecycle, output with its state guards
    and end-of-line conversion, fan-out to registered callbacks, geometry
    negotiation, reference counting, the byte scroll-back of `BufferedInterface`,
    the line scroll-back of `EventsScreen.index`, and the screen dump of
    `PersistentInterface`. */
module SiobaBase {
  import opened Results
  import opened Bytes
  import opened Events
  import opened Geometry
  import Window
  import opened Sgr
  import Dump

  // ----- InterfaceConfig -----

  /** The fields of this module's `InterfaceConfig`, `None` meaning "not set". */
  datatype Settings = Settings(rows: Option<int>, cols: Option<int>, encoding: Option<string>, convertEol: Option<bool>)

  const NoSettings := Settings(None, None, None, None)

  /** `DEFAULT_CONFIG`. */
  const DefaultSettings := Settings(Some(24), Some(80), Some("utf-8"), Some(false))

  /** `a` updated by `b`: every field `b` sets replaces the one in `a`. */
  function Overlay(a: Settings, b: Settings): Settings
  {
    Settings(if b.rows.Some? then b.rows else a.rows,
             if b.cols.Some? then b.cols else a.cols,
             if b.encoding.Some? then b.encoding else a.encoding,
             if b.convertEol.Some? then b.convertEol else a.convertEol)
  }

  /** Updating with nothing set changes nothing, updating with oneself changes
      nothing, and two updates in a row act as one update with the later one's
      fields winning. */
  lemma OverlayLaws(a: Settings, b: Settings, c: Settings)
    ensures Overlay(a, NoSettings) == a && Overlay(a, a) == a
    ensures Overlay(Overlay(a, b), c) == Overlay(a, Overlay(b, c))
    ensures Overlay(NoSettings, b) == b
  {
  }

  function OrNone(o: Option<Settings>): Settings
  {
    if o.Some? then o.value else NoSettings
  }

  /** The configuration an interface is built with: the defaults, then the class's
      `default_config`, then the `interface_config` argument. Every field ends up
      set, and the last layer that sets a field decides it. */
  function Layered(classDefault: Option<Settings>, given: Option<Settings>): (r: Settings)
    ensures r.rows.Some? && r.cols.Some? && r.encoding.Some? && r.convertEol.Some?
    ensures OrNone(given).rows.Some? ==> r.rows == OrNone(given).rows
    ensures OrNone(given).rows.None? && OrNone(classDefault).rows.Some? ==> r.rows == OrNone(classDefault).rows
    ensures OrNone(given).rows.None? && OrNone(classDefault).rows.None? ==> r.rows == Some(24)
    ensures OrNone(given).cols.Some? ==> r.cols == OrNone(given).cols
    ensures OrNone(given).cols.None? && OrNone(classDefault).cols.Some? ==> r.cols == OrNone(classDefault).cols
    ensures OrNone(given).cols.None? && OrNone(classDefault).cols.None? ==> r.cols == Some(80)
    ensures OrNone(given).encoding.Some? ==> r.encoding == OrNone(given).encoding
    ensures OrNone(given).encoding.None? && OrNone(classDefault).encoding.Some? ==> r.encoding == OrNone(classDefault).encoding
    ensures OrNone(given).encoding.None? && OrNone(classDefault).encoding.None? ==> r.encoding == Some("utf-8")
    ensures OrNone(given).convertEol.Some? ==> r.convertEol == OrNone(given).convertEol
    ensures OrNone(given).convertEol.None? && OrNone(classDefault).convertEol.Some? ==> r.convertEol == OrNone(classDefault).convertEol
    ensures OrNone(given).convertEol.None? && OrNone(classDefault).convertEol.None? ==> r.convertEol == Some(false)
  {
    Overlay(Overlay(DefaultSettings, OrNone(classDefault)), OrNone(given))
  }

  /** This module's dataclass `InterfaceConfig`, updated in place. */
  class InterfaceConfig {
    var rows: Option<int>
    var cols: Option<int>
    var encoding: Option<string>
    var convertEol: Option<bool>

    function Values(): Settings
      reads this
    {
      Settings(rows, cols, encoding, convertEol)
    }

    constructor (v: Settings)
      ensures Values() == v
    {
      rows, cols, encoding, convertEol := v.rows, v.cols, v.encoding, v.convertEol;
    }

    /** `update`: copies every field that is set in `options`. */
    method Update(options: InterfaceConfig)
      modifies this
      ensures Values() == Overlay(old(Values()), old(options.Values()))
    {
      var o := options.Values();
      if o.rows.Some? { rows := o.rows; }
      if o.cols.Some? { cols := o.cols; }
      if o.encoding.Some? { encoding := o.encoding; }
      if o.convertEol.Some? { convertEol := o.convertEol; }
    }

    /** `copy`: a new instance with the same field values. */
    method Copy() returns (c: InterfaceConfig)
      ensures fresh(c) && c.Values() == Values()
    {
      c := new InterfaceConfig(Values());
    }
  }

  // ----- Interface -----

  /** The bytes handed to the send callbacks: with `convertEol` set, every `\r`
      becomes `\r\n`. Nothing is lost, since collapsing each `\r\n` back gives the
      data written. */
  function Outgoing(convertEol: Option<bool>, data: seq<byte>): (r: seq<byte>)
    ensures convertEol != Some(true) ==> r == data
    ensures convertEol == Some(true) ==> CollapseCrLf(r) == data
    ensures CR !in data ==> r == data
  {
    CollapseExpandsCr(data);
    if convertEol == Some(true) then ReplaceByte(data, CR, CRLF) else data
  }

  /** The conversion is blind to what follows: an `\r\n` already in the data
      becomes `\r\n\n`. */
  lemma OutgoingDoublesLineFeed()
    ensures Outgoing(Some(true), CRLF) == [CR, LF, LF]
  {
    assert ReplaceByte([LF], CR, CRLF) == [LF];
  }

  /** `get_terminal_metadata`: the client's dictionary, or an empty one for a client
      never seen. */
  function ClientMetadata(clients: map<string, Metadata>, id: string): (r: Metadata)
    ensures id !in clients ==> r == map[]
    ensures id in clients ==> r == clients[id]
  {
    if id in clients then clients[id] else map[]
  }

  /** After a client reports, reading its metadata back gives every value it reported
      and keeps what it reported earlier under other keys; other clients' metadata
      is untouched. */
  lemma MetadataRoundTrip(clients: map<string, Metadata>, id: string, data: Metadata, other: string)
    ensures data.Keys <= ClientMetadata(Merge(clients, id, data), id).Keys
    ensures forall k | k in data :: ClientMetadata(Merge(clients, id, data), id)[k] == data[k]
    ensures forall k | k in ClientMetadata(clients, id) && k !in data ::
              ClientMetadata(Merge(clients, id, data), id)[k] == ClientMetadata(clients, id)[k]
    ensures other != id ==> ClientMetadata(Merge(clients, id, data), other) == ClientMetadata(clients, other)
  {
    MergeFields(clients, id, data);
  }

  /** The singleton set of a callback passed to the constructor, if one was. */
  function Registered(cb: Option<CallbackId>): set<CallbackId>
  {
    if cb.Some? then {cb.value} else {}
  }

  /** Every field of an `Interface` except its configuration object. */
  datatype Fields = Fields(
    state: InterfaceState,
    title: string,
    referenceCount: int,
    receiveCallbacks: set<CallbackId>,
    sendCallbacks: set<CallbackId>,
    shutdownCallbacks: set<CallbackId>,
    titleCallbacks: set<CallbackId>,
    termClients: map<string, Metadata>,
    autoShutdown: bool,
    rows: int,
    cols: int,
    effects: seq<Effect>)

  /** `Interface`: the controller between an I/O backend and the terminal widgets
      attached to it. What its callbacks are handed is recorded in `effects`. */
  class Interface {
    var state: InterfaceState
    var title: string
    var referenceCount: int
    const config: InterfaceConfig
    var receiveCallbacks: set<CallbackId>
    var sendCallbacks: set<CallbackId>
    var shutdownCallbacks: set<CallbackId>
    var titleCallbacks: set<CallbackId>
    var termClients: map<string, Metadata>
    var autoShutdown: bool
    var rows: int
    var cols: int
    var effects: seq<Effect>

    ghost function AllFields(): Fields
      reads this
    {
      Fields(state, title, referenceCount, receiveCallbacks, sendCallbacks, shutdownCallbacks,
             titleCallbacks, termClients, autoShutdown, rows, cols, effects)
    }

    /** `__init__`, for a class whose `default_config` is `classDefault`. */
    constructor (onReceive: Option<CallbackId>, onSend: Option<CallbackId>, onShutdown: Option<CallbackId>,
                 onTitle: Option<CallbackId>, cols: int, rows: int, autoShutdown: bool,
                 classDefault: Option<Settings>, interfaceConfig: Option<Settings>)
      ensures fresh(config)
      ensures config.Values() == Layered(classDefault, interfaceConfig)
      ensures AllFields() == Fields(Initialized, "", 0, Registered(onReceive), Registered(onSend),
                                    Registered(onShutdown), Registered(onTitle), map[], autoShutdown, rows, cols, [])
    {
      var c := new InterfaceConfig(DefaultSettings);
      if classDefault.Some? {
        var d := new InterfaceConfig(classDefault.value);
        c.Update(d);
      }
      if interfaceConfig.Some? {
        var g := new InterfaceConfig(interfaceConfig.value);
        c.Update(g);
      }
      config := c;
      title := "";
      referenceCount := 0;
      state := Initialized;
      receiveCallbacks, sendCallbacks := Registered(onReceive), Registered(onSend);
      shutdownCallbacks, titleCallbacks := Registered(onShutdown), Registered(onTitle);
      termClients := map[];
      this.autoShutdown := autoShutdown;
      this.cols := cols;
      this.rows := rows;
      effects := [];
    }

    /** `is_running`. */
    predicate IsRunning()
      reads this
    {
      state == Started
    }

    /** `is_shutdown`. */
    predicate IsShutdown()
      reads this
    {
      state == InterfaceState.Shutdown
    }

    /** `start`: only a fresh interface starts; it is marked running before its
        `start_interface` hook runs. Returns whether the interface was started. */
    method Start() returns (started: bool)
      modifies this
      ensures started <==> old(state) == Initialized
      ensures started ==> IsRunning()
      ensures AllFields() == old(AllFields()).(state := AfterStart(old(state)),
                                               effects := old(effects) + if started then [StartHook] else [])
    {
      if state != Initialized {
        return false;
      }
      state := Started;
      effects := effects + [StartHook];
      return true;
    }

    /** `shutdown`: only a running interface shuts down: its `shutdown_interface`
        hook runs, it is marked shut down, then every shutdown callback is called.
        A second call does nothing. */
    method Shutdown()
      modifies this
      ensures old(IsRunning()) ==> IsShutdown() && !IsRunning()
      ensures AllFields() == old(AllFields()).(state := AfterShutdown(old(state)),
          effects := old(effects) + if old(state) == Started then [ShutdownHook, ShutdownNotified(shutdownCallbacks)] else [])
    {
      if state != Started {
        return;
      }
      effects := effects + [ShutdownHook];
      state := InterfaceState.Shutdown;
      effects := effects + [ShutdownNotified(shutdownCallbacks)];
    }

    /** `on_send_to_control`. */
    method OnSendToControl(cb: CallbackId)
      modifies this
      ensures AllFields() == old(AllFields()).(sendCallbacks := old(sendCallbacks) + {cb})
    {
      sendCallbacks := sendCallbacks + {cb};
    }

    /** `on_receive_from_control`. */
    method OnReceiveFromControl(cb: CallbackId)
      modifies this
      ensures AllFields() == old(AllFields()).(receiveCallbacks := old(receiveCallbacks) + {cb})
    {
      receiveCallbacks := receiveCallbacks + {cb};
    }

    /** `on_shutdown`. */
    method OnShutdown(cb: CallbackId)
      modifies this
      ensures AllFields() == old(AllFields()).(shutdownCallbacks := old(shutdownCallbacks) + {cb})
    {
      shutdownCallbacks := shutdownCallbacks + {cb};
    }

    /** `on_set_terminal_title`. */
    method OnSetTerminalTitle(cb: CallbackId)
      modifies this
      ensures AllFields() == old(AllFields()).(titleCallbacks := old(titleCallbacks) + {cb})
    {
      titleCallbacks := titleCallbacks + {cb};
    }

    /** `send_to_control`: refused before start and after shutdown; empty data is
        dropped; otherwise every send callback gets the same bytes, with `\r`
        widened to `\r\n` when `convertEol` is set. */
    method SendToControl(data: seq<byte>) returns (o: Outcome)
      modifies this
      ensures old(state) == Initialized ==> o == Fail(InterfaceNotStarted)
      ensures old(state) == InterfaceState.Shutdown ==> o == Fail(TerminalClosed)
      ensures old(state) == Started ==> o == Pass
      ensures AllFields() == old(AllFields()).(effects := old(effects) +
          if old(state) == Started && data != [] then [Sent(sendCallbacks, Outgoing(config.convertEol, data))] else [])
    {
      if state == Initialized {
        return Fail(InterfaceNotStarted);
      } else if state == InterfaceState.Shutdown {
        return Fail(TerminalClosed);
      }
      if data == [] {
        return Pass;
      }
      var out := data;
      if config.convertEol == Some(true) {
        out := ReplaceByte(data, CR, CRLF);
      }
      effects := effects + [Sent(sendCallbacks, out)];
      return Pass;
    }

    /** `receive_from_control`: every receive callback gets the data, in any state. */
    method ReceiveFromControl(data: seq<byte>)
      modifies this
      ensures AllFields() == old(AllFields()).(effects := old(effects) + [Received(receiveCallbacks, data)])
    {
      effects := effects + [Received(receiveCallbacks, data)];
    }

    /** `on_set_terminal_title_handle`: the title is recorded before the title
        callbacks are called with it. */
    method OnSetTerminalTitleHandle(t: string)
      modifies this
      ensures AllFields() == old(AllFields()).(title := t, effects := old(effects) + [TitleNotified(titleCallbacks, t)])
    {
      title := t;
      effects := effects + [TitleNotified(titleCallbacks, t)];
    }

    /** `update_terminal_metadata`: the client's report is merged into its entry, then
        the size becomes the smallest `rows` and `cols` over every tracked client
        (with no lower bound) and `set_terminal_size` is called with it. A client
        without either key makes the call raise `KeyError` after the merge, with the
        size unchanged. */
    method UpdateTerminalMetadata(clientId: string, data: Metadata) returns (o: Outcome)
      modifies this
      ensures termClients == Merge(old(termClients), clientId, data)
      ensures o.Pass? <==> AllReport(termClients, termClients.Keys, "rows") && AllReport(termClients, termClients.Keys, "cols")
      ensures o.Fail? ==> o.error == KeyError && AllFields() == old(AllFields()).(termClients := termClients)
      ensures o.Pass? ==> IsMinOver(termClients, termClients.Keys, "rows", rows)
      ensures o.Pass? ==> IsMinOver(termClients, termClients.Keys, "cols", cols)
      ensures o.Pass? ==> AllFields() == old(AllFields()).(termClients := termClients, rows := rows, cols := cols,
                                                          effects := old(effects) + [Resized(rows, cols)])
    {
      var merged := Merge(termClients, clientId, data);
      assert clientId in merged;
      var r := MinimumGeometry(merged);
      if r.Err? {
        termClients := merged;
        return Fail(KeyError);
      }
      SetGeometry(merged, r.value.0, r.value.1);
      return Pass;
    }

    /** The tail of `update_terminal_metadata`: the new client table and size are
        stored and `set_terminal_size` is called. */
    method SetGeometry(clients: map<string, Metadata>, newRows: int, newCols: int)
      modifies this
      ensures AllFields() == old(AllFields()).(termClients := clients, rows := newRows, cols := newCols,
                                               effects := old(effects) + [Resized(newRows, newCols)])
    {
      termClients, rows, cols, effects := clients, newRows, newCols, effects + [Resized(newRows, newCols)];
    }

    /** `get_terminal_metadata`. */
    function GetTerminalMetadata(clientId: string): (r: Metadata)
      reads this
      ensures r == ClientMetadata(termClients, clientId)
    {
      if clientId in termClients then termClients[clientId] else map[]
    }

    /** `reference_increment`. */
    method ReferenceIncrement()
      modifies this
      ensures AllFields() == old(AllFields()).(referenceCount := old(referenceCount) + 1)
    {
      referenceCount := referenceCount + 1;
    }

    /** `reference_decrement`: the count may go below zero; a shutdown is scheduled
        exactly when the new count is at most zero and `auto_shutdown` is set. */
    method ReferenceDecrement()
      modifies this
      ensures referenceCount == old(referenceCount) - 1
      ensures AllFields() == old(AllFields()).(referenceCount := referenceCount,
          effects := old(effects) + if referenceCount <= 0 && autoShutdown then [ShutdownScheduled] else [])
    {
      referenceCount := referenceCount - 1;
      if referenceCount <= 0 && autoShutdown {
        effects := effects + [ShutdownScheduled];
      }
    }
  }

  // ----- BufferedInterface -----

  /** `BufferedInterface`: an interface that also keeps the newest bytes it sent. */
  class BufferedInterface {
    const base: Interface
    var scrollbackBuffer: seq<byte>
    const scrollbackBufferSize: int
    /** Every byte accepted for sending so far. */
    ghost var sent: seq<byte>

    /** The buffer always holds exactly the newest `scrollback_buffer_size` bytes
        of everything sent. */
    ghost predicate Valid()
      reads this
    {
      scrollbackBuffer == Window.KeepLast(sent, scrollbackBufferSize)
    }

    constructor (scrollbackBufferSize: int, onReceive: Option<CallbackId>, onSend: Option<CallbackId>,
                 onShutdown: Option<CallbackId>, onTitle: Option<CallbackId>, cols: int, rows: int, autoShutdown: bool)
      ensures Valid() && fresh(base) && fresh(base.config)
      ensures this.scrollbackBufferSize == scrollbackBufferSize && scrollbackBuffer == [] && sent == []
      ensures base.config.Values() == DefaultSettings
      ensures base.AllFields() == Fields(Initialized, "", 0, Registered(onReceive), Registered(onSend),
                                         Registered(onShutdown), Registered(onTitle), map[], autoShutdown, rows, cols, [])
    {
      base := new Interface(onReceive, onSend, onShutdown, onTitle, cols, rows, autoShutdown, None, None);
      this.scrollbackBufferSize := scrollbackBufferSize;
      scrollbackBuffer := [];
      sent := [];
    }

    /** `send_to_control`: refused unless running (so also after shutdown); empty
        data is dropped; otherwise the raw data is added to the buffer, which is cut
        back to its size limit, and then handed on as the base class does. */
    method SendToControl(data: seq<byte>) returns (o: Outcome)
      requires Valid()
      modifies this, base
      ensures Valid()
      ensures o == if old(base.state) == Started then Pass else Fail(InterfaceNotStarted)
      ensures o.Pass? && data != [] ==> sent == old(sent) + data
      ensures o.Pass? && data != [] ==> scrollbackBuffer == Window.KeepLast(old(scrollbackBuffer) + data, scrollbackBufferSize)
      ensures |scrollbackBuffer| <= if scrollbackBufferSize < 0 then 0 else scrollbackBufferSize
      ensures o.Fail? || data == [] ==> scrollbackBuffer == old(scrollbackBuffer) && sent == old(sent)
      ensures base.AllFields() == old(base.AllFields()).(effects := old(base.effects) +
          if o.Pass? && data != [] then [Sent(base.sendCallbacks, Outgoing(base.config.convertEol, data))] else [])
    {
      if base.state != Started {
        return Fail(InterfaceNotStarted);
      }
      if data == [] {
        return Pass;
      }
      var buf := scrollbackBuffer + data;
      var delta := scrollbackBufferSize - |buf|;
      if delta < 0 {
        buf := if -delta <= |buf| then buf[-delta..] else [];
      }
      Window.KeepLastAppend(sent, data, scrollbackBufferSize);
      scrollbackBuffer := buf;
      sent := sent + data;
      o := base.SendToControl(data);
    }

    /** `get_terminal_buffer`: the newest bytes sent. */
    function GetTerminalBuffer(): (r: seq<byte>)
      requires Valid()
      reads this
      ensures r == Window.KeepLast(sent, scrollbackBufferSize)
    {
      scrollbackBuffer
    }
  }

  // ----- EventsScreen -----

  /** The lines `top` .. `end - 1` each replaced by the line below them. */
  function ShiftedUp(grid: Dump.Grid, top: int, end: int): Dump.Grid
  {
    map y | y in LineNumbers(grid, top, end) :: if top <= y < end then Dump.RowOf(grid, y + 1) else grid[y]
  }

  /** The lines stored in `grid` together with the lines `top` .. `end - 1`. */
  function LineNumbers(grid: Dump.Grid, top: int, end: int): set<int>
  {
    grid.Keys + (set k | top <= k < end && Between(top, k, end))
  }

  predicate Between(lo: int, k: int, hi: int) { lo <= k < hi }

  /** The screen after a scroll inside the margins: every line from `top` to
      `bottom - 1` shows the one below it, the bottom line is blank, and the lines
      outside the margins are untouched. */
  function ScrolledUp(grid: Dump.Grid, top: int, bottom: int): (r: Dump.Grid)
  {
    ShiftedUp(grid, top, bottom) - {bottom}
  }

  lemma ScrolledUpRows(grid: Dump.Grid, top: int, bottom: int, y: int)
    ensures top <= y < bottom ==> Dump.RowOf(ScrolledUp(grid, top, bottom), y) == Dump.RowOf(grid, y + 1)
    ensures y == bottom ==> Dump.RowOf(ScrolledUp(grid, top, bottom), y) == []
    ensures (y < top || y > bottom) && y != bottom ==> Dump.RowOf(ScrolledUp(grid, top, bottom), y) == Dump.RowOf(grid, y)
  {
  }

  /** The scroll-back after a line leaves the screen: the newest
      `scrollback_buffer_size` lines, the line just saved last. */
  lemma ScrollbackKeepsNewest(scrollback: seq<seq<Cell>>, line: seq<Cell>, size: int, earlier: seq<seq<Cell>>)
    requires scrollback == Window.KeepLast(earlier, size)
    ensures Window.KeepLast(scrollback + [line], size) == Window.KeepLast(earlier + [line], size)
    ensures size > 0 ==> Window.KeepLast(scrollback + [line], size)[|Window.KeepLast(scrollback + [line], size)| - 1] == line
  {
    Window.KeepLastAppend(earlier, [line], size);
  }

  /** `EventsScreen`: the emulator's screen as the dumper and `index` see it. */
  class EventsScreen {
    var buffer: Dump.Grid
    var scrollback: seq<seq<Cell>>
    const scrollbackBufferSize: int
    const lines: nat
    const columns: nat
    var cursorY: int
    var cursorX: int
    var margins: Option<(int, int)>

    constructor (columns: nat, lines: nat, scrollbackBufferSize: int)
      ensures this.columns == columns && this.lines == lines && this.scrollbackBufferSize == scrollbackBufferSize
      ensures buffer == map[] && scrollback == [] && cursorY == 0 && cursorX == 0 && margins == None
    {
      this.columns := columns;
      this.lines := lines;
      this.scrollbackBufferSize := scrollbackBufferSize;
      buffer := map[];
      scrollback := [];
      cursorY, cursorX := 0, 0;
      margins := None;
    }

    /** The scrolling region: the margins, or the whole screen. */
    function Region(): (int, int)
      reads this
    {
      if margins.Some? then margins.value else (0, lines - 1)
    }

    /** `index`: on the bottom margin the top line is saved to the scroll-back (the
        oldest saved lines dropped beyond the size limit) and the region scrolls up
        one line; elsewhere the cursor moves down one line, not past the bottom
        margin. A negative size limit empties the scroll-back and then fails popping
        from the empty list. */
    method Index() returns (o: Outcome)
      modifies this
      ensures var (top, bottom) := old(Region());
        && margins == old(margins) && cursorX == old(cursorX)
        && (old(cursorY) != bottom ==>
              o == Pass && cursorY == (if old(cursorY) + 1 < bottom then old(cursorY) + 1 else bottom)
              && buffer == old(buffer) && scrollback == old(scrollback))
        && (old(cursorY) == bottom && scrollbackBufferSize < 0 ==>
              o == Fail(IndexError) && scrollback == [] && buffer == old(buffer) && cursorY == old(cursorY))
        && (old(cursorY) == bottom && scrollbackBufferSize >= 0 ==>
              o == Pass && cursorY == old(cursorY)
              && scrollback == Window.KeepLast(old(scrollback) + [Dump.RowOf(old(buffer), top)], scrollbackBufferSize)
              && buffer == ScrolledUp(old(buffer), top, bottom))
    {
      var (top, bottom) := Region();
      if cursorY != bottom {
        cursorY := if cursorY + 1 < bottom then cursorY + 1 else bottom;
        return Pass;
      }
      var kept := KeepNewest(scrollback + [Dump.RowOf(buffer, top)], scrollbackBufferSize);
      if kept.None? {
        scrollback := [];
        return Fail(IndexError);
      }
      scrollback := kept.value;
      buffer := ScrollRegion(buffer, top, bottom);
      return Pass;
    }
  }

  /** The `pop(0)` loop of `index`: the oldest lines are dropped while there are more
      than `size`; `None` when a negative `size` makes it pop from an empty list. */
  method KeepNewest(full: seq<seq<Cell>>, size: int) returns (r: Option<seq<seq<Cell>>>)
    ensures r.None? <==> size < 0
    ensures r.Some? ==> r.value == Window.KeepLast(full, size)
  {
    var sb := full;
    while |sb| > size
      invariant sb == full[|full| - |sb|..]
      invariant |sb| == |full| || |sb| >= size
      decreases |sb|
    {
      if sb == [] {
        return None;
      }
      sb := sb[1..];
    }
    return Some(sb);
  }

  /** The row-moving loop of `index` and the removal of the bottom line. */
  method ScrollRegion(g: Dump.Grid, top: int, bottom: int) returns (r: Dump.Grid)
    ensures r == ScrolledUp(g, top, bottom)
  {
    var grid := g;
    var y := top;
    while y < bottom
      invariant top <= y || bottom <= top
      invariant y == top || y <= bottom
      invariant grid == ShiftedUp(g, top, if y <= top then top else y)
      decreases bottom - y
    {
      ShiftStep(g, top, y);
      grid := grid[y := Dump.RowOf(grid, y + 1)];
      y := y + 1;
    }
    if bottom <= top {
      assert ShiftedUp(g, top, bottom) == ShiftedUp(g, top, top);
    }
    r := grid - {bottom};
  }

  lemma ShiftStep(g: Dump.Grid, top: int, y: int)
    requires top <= y
    ensures ShiftedUp(g, top, y + 1) == ShiftedUp(g, top, y)[y := Dump.RowOf(ShiftedUp(g, top, y), y + 1)]
  {
    assert Dump.RowOf(ShiftedUp(g, top, y), y + 1) == Dump.RowOf(g, y + 1);
  }

  // ----- PersistentInterface -----

  /** `PersistentInterface`: an interface that keeps an emulated screen of what it
      sent, so a newly attached terminal can be brought up to date. The colour
      tables are the emulator's `FG_ANSI` and `BG_ANSI`. */
  class PersistentInterface {
    const base: Interface
    const screen: EventsScreen
    const fgT: ColourTable
    const bgT: ColourTable

    constructor (scrollbackBufferSize: int, onReceive: Option<CallbackId>, onSend: Option<CallbackId>,
                 onShutdown: Option<CallbackId>, onTitle: Option<CallbackId>, cols: nat, rows: nat,
                 autoShutdown: bool, fgT: ColourTable, bgT: ColourTable)
      ensures fresh(base) && fresh(screen)
      ensures base.AllFields() == Fields(Initialized, "", 0, Registered(onReceive), Registered(onSend),
                                         Registered(onShutdown), Registered(onTitle), map[], autoShutdown, rows, cols, [])
      ensures screen.lines == rows && screen.columns == cols && screen.scrollbackBufferSize == scrollbackBufferSize
      ensures screen.buffer == map[] && screen.scrollback == []
      ensures this.fgT == fgT && this.bgT == bgT
    {
      base := new Interface(onReceive, onSend, onShutdown, onTitle, cols, rows, autoShutdown, None, None);
      screen := new EventsScreen(cols, rows, scrollbackBufferSize);
      this.fgT, this.bgT := fgT, bgT;
    }

    /** `dump_screen_state(screen)`: a reset, each scroll-back line after `\n\r`,
        each screen line after `\n\r` and followed by a reset, then the cursor moved
        to the start of the last line. */
    method DumpScreenState(s: EventsScreen) returns (buf: string)
      ensures buf == Dump.RenderAll(Dump.ScrollbackDump(fgT, bgT, s.scrollback, s.buffer, s.lines, s.columns))
    {
      buf := Dump.DumpWithScrollback(fgT, bgT, s.scrollback, s.buffer, s.lines, s.columns);
    }

    /** `get_terminal_buffer`: the dump of this interface's own screen. */
    method GetTerminalBuffer() returns (buf: string)
      ensures buf == Dump.RenderAll(Dump.ScrollbackDump(fgT, bgT, screen.scrollback, screen.buffer, screen.lines, screen.columns))
    {
      buf := DumpScreenState(screen);
    }

    /** `get_terminal_cursor_position`: the row first, then the column. */
    function GetTerminalCursorPosition(): (r: (int, int))
      reads this, screen
      ensures r.0 == screen.cursorY && r.1 == screen.cursorX
    {
      (screen.cursorY, screen.cursorX)
    }
  }
}
