/** The capture-mode line editor of the function interfaces: what one chunk of bytes
    typed at the terminal does to the line being edited, what is echoed back, and
    when a line is handed to the waiting function. */
module Capture {
  import opened Results
  import opened Bytes

  /** `CaptureMode`. */
  datatype Mode = Discard | Echo | Input | GetPass

  const SPACE: byte := 32

  /** The echo that erases one character on the terminal: `\b \b`. */
  const Erase: seq<byte> := [BS, SPACE, BS]

  predicate Editing(m: Mode) { m == Input || m == GetPass }

  /** A chunk that is exactly one backspace key (DEL or BS). */
  predicate IsBackspace(data: seq<byte>) { data == [DEL] || data == [BS] }

  /** A chunk the editor just appends: not a lone Enter, Ctrl-C or backspace. */
  predicate Ordinary(data: seq<byte>) { data != [CR] && data != [ETX] && !IsBackspace(data) }

  /** What the newer `receive_from_control` does with one chunk once its state guards
      have passed: the new input buffer, the bytes put on the send queue (if any), the
      line put on the input queue (if any), and whether shutdown is requested. */
  datatype Reaction = Reaction(buffer: seq<byte>, echo: Option<seq<byte>>, line: Option<seq<byte>>, shutdown: bool)

  function React(mode: Mode, buffer: seq<byte>, data: seq<byte>): (r: Reaction)
    ensures r.shutdown <==> data == [ETX]
    ensures !Editing(mode) ==> r.buffer == buffer && r.line == None
    ensures mode == Discard ==> r.echo == None
    ensures mode == Echo ==> r.echo == Some(if data == [CR] then CRLF else data)
    ensures mode == GetPass ==> r.echo == None || r.echo == Some(CRLF)
    ensures r.line.Some? <==> Editing(mode) && (data == [CR] || data == [ETX])
    ensures Editing(mode) && data == [CR] ==> r == Reaction([], Some(CRLF), Some(buffer), false)
    ensures Editing(mode) && data == [ETX] ==> r.line == Some([]) && r.buffer == buffer
    ensures Editing(mode) && Ordinary(data) ==> r.buffer == buffer + data
    ensures Editing(mode) && IsBackspace(data) ==> r.buffer == if buffer == [] then [] else buffer[..|buffer| - 1]
    ensures Editing(mode) && Ordinary(data) ==> r.echo == if mode == Input then Some(data) else None
    ensures Editing(mode) && IsBackspace(data) ==> r.echo == if mode == Input && buffer != [] then Some(Erase) else None
  {
    match mode
    case Discard => Reaction(buffer, None, None, data == [ETX])
    case Echo => Reaction(buffer, Some(if data == [CR] then CRLF else data), None, data == [ETX])
    case _ =>
      if data == [CR] then Reaction([], Some(CRLF), Some(buffer), false)
      else if data == [ETX] then Reaction(buffer, None, Some([]), true)
      else if IsBackspace(data) then
        if buffer != [] then Reaction(buffer[..|buffer| - 1], if mode == Input then Some(Erase) else None, None, false)
        else Reaction(buffer, None, None, false)
      else Reaction(buffer + data, if mode == Input then Some(data) else None, None, false)
  }

  /** Several chunks received in one mode: the buffer afterwards, every echo, every
      line handed over, and whether a Ctrl-C ended the session (after which the
      interface is shut down and takes no more input). */
  datatype Session = Session(buffer: seq<byte>, echoed: seq<seq<byte>>, lines: seq<seq<byte>>, shutdown: bool)

  function AsList<T>(o: Option<T>): seq<T>
  {
    if o.Some? then [o.value] else []
  }

  function Run(mode: Mode, buffer: seq<byte>, chunks: seq<seq<byte>>): Session
    decreases |chunks|
  {
    if chunks == [] then Session(buffer, [], [], false)
    else
      var r := React(mode, buffer, chunks[0]);
      if r.shutdown then Session(r.buffer, AsList(r.echo), AsList(r.line), true)
      else
        var rest := Run(mode, r.buffer, chunks[1..]);
        Session(rest.buffer, AsList(r.echo) + rest.echoed, AsList(r.line) + rest.lines, rest.shutdown)
  }

  function Concat(chunks: seq<seq<byte>>): seq<byte>
  {
    if chunks == [] then [] else chunks[0] + Concat(chunks[1..])
  }

  /** Typing ordinary chunks and then Enter hands over exactly what was typed after the
      existing buffer, leaves the buffer empty, and echoes every chunk in INPUT mode but
      only the final newline in GETPASS mode. A multi-byte chunk is never split, so a
      chunk such as `abc\r` is typed text, not a line end. */
  lemma {:induction false} TypedLineArrives(mode: Mode, buffer: seq<byte>, chunks: seq<seq<byte>>)
    requires Editing(mode)
    requires forall i | 0 <= i < |chunks| :: Ordinary(chunks[i])
    ensures Run(mode, buffer, chunks + [[CR]])
         == Session([], (if mode == Input then chunks else []) + [CRLF], [buffer + Concat(chunks)], false)
    decreases |chunks|
  {
    if chunks == [] {
      assert chunks + [[CR]] == [[CR]];
      assert [[CR]][1..] == [];
      assert buffer + Concat(chunks) == buffer;
      assert Run(mode, buffer, [[CR]]) == Session([], [CRLF] + [], [buffer] + [], false);
      assert [CRLF] + [] == [] + [CRLF] && [buffer] + [] == [buffer];
    } else {
      var c := chunks[0];
      assert (chunks + [[CR]])[1..] == chunks[1..] + [[CR]];
      TypedLineArrives(mode, buffer + c, chunks[1..]);
      assert buffer + c + Concat(chunks[1..]) == buffer + Concat(chunks);
      if mode == Input {
        assert [c] + (chunks[1..] + [CRLF]) == chunks + [CRLF];
      } else {
        assert [] + ([] + [CRLF]) == [CRLF];
      }
    }
  }

  /** A Ctrl-C while a line is being edited ends the session and releases the waiting
      function with an empty line, discarding what was typed. */
  lemma CtrlCReleasesEmptyLine(mode: Mode, buffer: seq<byte>, rest: seq<seq<byte>>)
    requires Editing(mode)
    ensures Run(mode, buffer, [[ETX]] + rest) == Session(buffer, [], [[]], true)
  {
    assert ([[ETX]] + rest)[0] == [ETX];
  }

  /** Backspace undoes typing one byte, and in INPUT mode the terminal is told to erase
      the echoed character. */
  lemma BackspaceUndoesByte(mode: Mode, buffer: seq<byte>, b: byte, key: seq<byte>)
    requires Editing(mode) && Ordinary([b]) && IsBackspace(key)
    ensures var typed := React(mode, buffer, [b]);
      React(mode, typed.buffer, key).buffer == buffer
      && (mode == Input ==> typed.echo == Some([b]) && React(mode, typed.buffer, key).echo == Some(Erase))
  {
    assert (buffer + [b])[..|buffer|] == buffer;
  }

  /** GETPASS never shows what was typed: over a whole session the only echo is the
      newline of each completed line. */
  lemma {:induction false} GetPassNeverEchoes(buffer: seq<byte>, chunks: seq<seq<byte>>)
    ensures forall i | 0 <= i < |Run(GetPass, buffer, chunks).echoed| :: Run(GetPass, buffer, chunks).echoed[i] == CRLF
    decreases |chunks|
  {
    if chunks != [] {
      var r := React(GetPass, buffer, chunks[0]);
      if !r.shutdown {
        GetPassNeverEchoes(r.buffer, chunks[1..]);
      }
    }
  }

  // ----- The older function interface -----

  /** What the older `capture(data)` does: the new buffer, the echo it returns (empty
      bytes for none), and the line stored in `input_result` with `input_ready` set. */
  datatype LegacyStep = LegacyStep(buffer: seq<byte>, echo: seq<byte>, result: Option<seq<byte>>)

  function LegacyCapture(mode: Mode, buffer: seq<byte>, data: seq<byte>): (r: LegacyStep)
    ensures r.result.Some? <==> data == [CR]
    ensures mode != Input ==> r.echo == [] || r.echo == CRLF
  {
    if data == [CR] then LegacyStep([], CRLF, Some(buffer))
    else if IsBackspace(data) then
      if buffer != [] then LegacyStep(buffer[..|buffer| - 1], if mode == Input then Erase else [], None)
      else LegacyStep(buffer, [], None)
    else LegacyStep(buffer + data, if mode == Input then data else [], None)
  }

  /** The newer editor is the older one plus Ctrl-C handling: on every other chunk it
      edits the buffer the same way, completes the same lines and echoes the same bytes
      (an empty echo of the older one is a missing echo of the newer one, apart from
      the empty chunk the newer one queues as is). */
  lemma EditorsAgree(mode: Mode, buffer: seq<byte>, data: seq<byte>)
    requires Editing(mode) && data != [ETX]
    ensures React(mode, buffer, data).buffer == LegacyCapture(mode, buffer, data).buffer
    ensures React(mode, buffer, data).line == LegacyCapture(mode, buffer, data).result
    ensures LegacyCapture(mode, buffer, data).echo
         == if React(mode, buffer, data).echo.Some? then React(mode, buffer, data).echo.value else []
  {
  }

  /** What the older `receive(data)` does: the new buffer, the bytes it sends (if any),
      the line it completes (if any), and whether the receive callbacks ran. */
  datatype LegacyReceipt = LegacyReceipt(buffer: seq<byte>, sent: Option<seq<byte>>, result: Option<seq<byte>>, notified: bool)

  function LegacyReceive(mode: Mode, buffer: seq<byte>, data: seq<byte>): (r: LegacyReceipt)
    ensures data == [] ==> r == LegacyReceipt(buffer, None, None, false)
    ensures data != [] ==> r.notified
    ensures mode == Discard ==> r.sent == None
    ensures mode == Echo && data != [] ==> r.sent == Some(data)
    ensures r.sent.Some? ==> r.sent.value != []
  {
    if data == [] then LegacyReceipt(buffer, None, None, false)
    else
      match mode
      case Discard => LegacyReceipt(buffer, None, None, true)
      case Echo => LegacyReceipt(buffer, Some(data), None, true)
      case _ =>
        var c := LegacyCapture(mode, buffer, data);
        LegacyReceipt(c.buffer, if c.echo != [] then Some(c.echo) else None, c.result, true)
  }
}
