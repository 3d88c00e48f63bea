/** The newer function interface: a Python function runs against the terminal,
    printing through a send queue and reading lines that the capture-mode line
    editor assembles from the keys typed. */
module SiobaFunction {
  import opened Results
  import opened Bytes
  import opened Events
  import opened Capture
  import SiobaBase

  /** What printing puts on the send queue for its formatted text: every `\n`
      widened to `\r\n`. Dropping the `\r` before each `\n` gives the text back. */
  function Printed(text: seq<byte>): (r: seq<byte>)
    ensures DropCrBeforeLf(r) == text
    ensures LF !in text ==> r == text
  {
    DropExpandsLf(text);
    ReplaceByte(text, LF, CRLF)
  }

  /** `FunctionInterface`. The send queue and the input queue are the sequences of
      items put on them and not yet taken. */
  class FunctionInterface {
    const base: SiobaBase.Interface
    var inputBuffer: seq<byte>
    var captureMode: Mode
    const captureLastState: Mode
    var sendQueue: seq<seq<byte>>
    var sendClosed: bool
    var inputQueue: seq<seq<byte>>

    /** The send queue is closed exactly when the interface has shut down. */
    ghost predicate Valid()
      reads this, base
    {
      sendClosed <==> base.state == InterfaceState.Shutdown
    }

    /** `__init__`: the capture mode starts as, and is always restored to, the
        default capture state. */
    constructor (onReceive: Option<CallbackId>, onSend: Option<CallbackId>, onShutdown: Option<CallbackId>,
                 onTitle: Option<CallbackId>, cols: int, rows: int, autoShutdown: bool,
                 interfaceConfig: Option<SiobaBase.Settings>, defaultCaptureState: Mode)
      ensures Valid() && fresh(base)
      ensures base.AllFields() == SiobaBase.Fields(Initialized, "", 0, SiobaBase.Registered(onReceive),
          SiobaBase.Registered(onSend), SiobaBase.Registered(onShutdown), SiobaBase.Registered(onTitle),
          map[], autoShutdown, rows, cols, [])
      ensures inputBuffer == [] && sendQueue == [] && inputQueue == [] && !sendClosed
      ensures captureMode == defaultCaptureState && captureLastState == defaultCaptureState
    {
      base := new SiobaBase.Interface(onReceive, onSend, onShutdown, onTitle, cols, rows, autoShutdown, None, interfaceConfig);
      inputBuffer := [];
      sendQueue, inputQueue := [], [];
      sendClosed := false;
      captureMode := defaultCaptureState;
      captureLastState := defaultCaptureState;
    }

    /** `shutdown` with this class's `shutdown_interface`: the send queue is closed,
        then the interface shuts down as the base class does. */
    method Shutdown()
      requires Valid()
      modifies this, base
      ensures Valid()
      ensures base.AllFields() == old(base.AllFields()).(state := AfterShutdown(old(base.state)),
          effects := old(base.effects) + if old(base.state) == Started
                                         then [ShutdownHook, ShutdownNotified(base.shutdownCallbacks)] else [])
      ensures inputBuffer == old(inputBuffer) && captureMode == old(captureMode)
      ensures sendQueue == old(sendQueue) && inputQueue == old(inputQueue)
    {
      if base.state != Started {
        return;
      }
      sendClosed := true;
      base.Shutdown();
    }

    /** Printing of already formatted and encoded text: refused before start and
        after shutdown, otherwise queued with `\n` widened to `\r\n`. */
    method Print(text: seq<byte>) returns (o: Outcome)
      requires Valid()
      modifies this
      ensures Valid()
      ensures o == (match old(base.state)
                    case Initialized => Fail(InterfaceNotStarted)
                    case Shutdown => Fail(InterfaceShutdown)
                    case Started => Pass)
      ensures sendQueue == old(sendQueue) + if o.Pass? then [Printed(text)] else []
      ensures inputBuffer == old(inputBuffer) && captureMode == old(captureMode)
      ensures inputQueue == old(inputQueue) && sendClosed == old(sendClosed)
    {
      if base.state == Initialized {
        return Fail(InterfaceNotStarted);
      }
      if base.state == InterfaceState.Shutdown {
        return Fail(InterfaceShutdown);
      }
      sendQueue := sendQueue + [ReplaceByte(text, LF, CRLF)];
      return Pass;
    }

    /** The first half of `capture`, up to the blocking read: the same two guards
        as printing, then the input buffer is cleared, the requested mode set and a
        non-empty prompt printed. */
    method BeginCapture(prompt: seq<byte>, mode: Mode) returns (o: Outcome)
      requires Valid()
      modifies this
      ensures Valid()
      ensures o == (match old(base.state)
                    case Initialized => Fail(InterfaceNotStarted)
                    case Shutdown => Fail(InterfaceShutdown)
                    case Started => Pass)
      ensures o.Pass? ==> inputBuffer == [] && captureMode == mode
      ensures o.Pass? ==> sendQueue == old(sendQueue) + if prompt != [] then [Printed(prompt)] else []
      ensures o.Fail? ==> inputBuffer == old(inputBuffer) && captureMode == old(captureMode) && sendQueue == old(sendQueue)
      ensures inputQueue == old(inputQueue) && sendClosed == old(sendClosed)
    {
      if base.state == Initialized {
        return Fail(InterfaceNotStarted);
      }
      if base.state == InterfaceState.Shutdown {
        return Fail(InterfaceShutdown);
      }
      inputBuffer := [];
      captureMode := mode;
      if prompt != [] {
        o := Print(prompt);
      }
      return Pass;
    }

    /** `input`. */
    method Input(prompt: seq<byte>) returns (o: Outcome)
      requires Valid()
      modifies this
      ensures Valid()
      ensures o == (match old(base.state)
                    case Initialized => Fail(InterfaceNotStarted)
                    case Shutdown => Fail(InterfaceShutdown)
                    case Started => Pass)
      ensures o.Pass? ==> inputBuffer == [] && captureMode == Capture.Input
      ensures o.Pass? ==> sendQueue == old(sendQueue) + if prompt != [] then [Printed(prompt)] else []
      ensures o.Fail? ==> inputBuffer == old(inputBuffer) && captureMode == old(captureMode) && sendQueue == old(sendQueue)
      ensures inputQueue == old(inputQueue) && sendClosed == old(sendClosed)
    {
      o := BeginCapture(prompt, Capture.Input);
    }

    /** `getpass`. */
    method Getpass(prompt: seq<byte>) returns (o: Outcome)
      requires Valid()
      modifies this
      ensures Valid()
      ensures o == (match old(base.state)
                    case Initialized => Fail(InterfaceNotStarted)
                    case Shutdown => Fail(InterfaceShutdown)
                    case Started => Pass)
      ensures o.Pass? ==> inputBuffer == [] && captureMode == GetPass
      ensures o.Pass? ==> sendQueue == old(sendQueue) + if prompt != [] then [Printed(prompt)] else []
      ensures o.Fail? ==> inputBuffer == old(inputBuffer) && captureMode == old(captureMode) && sendQueue == old(sendQueue)
      ensures inputQueue == old(inputQueue) && sendClosed == old(sendClosed)
    {
      o := BeginCapture(prompt, GetPass);
    }

    /** The second half of `capture`, once a line is on the input queue: the line is
        taken and the mode restored to the default capture state. `None` while the
        call would still be blocked. */
    method CompleteCapture() returns (line: Option<seq<byte>>)
      modifies this
      ensures line.None? <==> old(inputQueue) == []
      ensures line.Some? ==> [line.value] + inputQueue == old(inputQueue) && captureMode == captureLastState
      ensures line.None? ==> inputQueue == old(inputQueue) && captureMode == old(captureMode)
      ensures inputBuffer == old(inputBuffer) && sendQueue == old(sendQueue) && sendClosed == old(sendClosed)
    {
      if inputQueue == [] {
        return None;
      }
      line := Some(inputQueue[0]);
      inputQueue := inputQueue[1..];
      captureMode := captureLastState;
    }

    /** `receive_from_control`: refused before start and after shutdown; otherwise
        the chunk goes through the line editor of the current mode. A Ctrl-C shuts
        the interface down first, which closes the send queue, so an echo of it is
        lost; a completed line goes on the input queue. */
    method ReceiveFromControl(data: seq<byte>) returns (o: Outcome)
      requires Valid()
      modifies this, base
      ensures Valid()
      ensures o == (match old(base.state)
                    case Initialized => Fail(InterfaceNotStarted)
                    case Shutdown => Fail(InterfaceShutdown)
                    case Started => Pass)
      ensures var r := React(old(captureMode), old(inputBuffer), data);
        && (o.Pass? ==> inputBuffer == r.buffer
                        && sendQueue == old(sendQueue) + (if r.echo.Some? && !r.shutdown then [r.echo.value] else [])
                        && inputQueue == old(inputQueue) + AsList(r.line)
                        && sendClosed == r.shutdown
                        && base.AllFields() == old(base.AllFields()).(
                             state := if r.shutdown then InterfaceState.Shutdown else Started,
                             effects := old(base.effects)
                               + if r.shutdown then [ShutdownHook, ShutdownNotified(base.shutdownCallbacks)] else []))
        && (o.Fail? ==> inputBuffer == old(inputBuffer) && sendQueue == old(sendQueue)
                        && inputQueue == old(inputQueue) && sendClosed == old(sendClosed)
                        && base.AllFields() == old(base.AllFields()))
      ensures captureMode == old(captureMode)
    {
      if base.state == Initialized {
        return Fail(InterfaceNotStarted);
      }
      if base.state == InterfaceState.Shutdown {
        return Fail(InterfaceShutdown);
      }
      var r := React(captureMode, inputBuffer, data);
      inputBuffer := r.buffer;
      if r.shutdown {
        Shutdown();
      }
      if r.echo.Some? && !sendClosed {
        sendQueue := sendQueue + [r.echo.value];
      }
      if r.line.Some? {
        inputQueue := inputQueue + [r.line.value];
      }
      return Pass;
    }
  }

  /** How many times the shutdown callbacks run when `shutdown` is called on the
      function interface as written. Its `shutdown_interface` calls the base
      `shutdown` again while the state is still STARTED, so each call re-enters the
      one before. The recursion ends only when the error raised at Python's recursion
      limit, `depth` calls down, is swallowed by `@logger.catch`. Each level then
      goes on: it sets SHUTDOWN and runs the callbacks. */
  function ShutdownNotificationsAsWritten(state: InterfaceState, depth: nat): (n: nat)
    ensures state != Started ==> n == 0
    ensures n <= depth
  {
    if state != Started || depth == 0 then 0
    else 1 + ShutdownNotificationsAsWritten(state, depth - 1)
  }

  /** As written, every level of the re-entered `shutdown` runs the callbacks, so with
      room for two levels they already run twice; `FunctionInterface.Shutdown` runs
      them once. */
  lemma {:induction false} ShutdownAsWrittenRepeats(depth: nat)
    ensures ShutdownNotificationsAsWritten(Started, depth) == depth
    ensures depth >= 2 ==> ShutdownNotificationsAsWritten(Started, depth) > 1
  {
    if depth > 0 {
      ShutdownAsWrittenRepeats(depth - 1);
    }
  }
}
