/** The older function interface: the same capture modes, but no Ctrl-C handling,
    no state guard on received data, an ECHO mode that sends every chunk back as
    it is, and a line handed over through an `input_result` slot and an
    `input_ready` flag instead of a queue. */
module LegacyFunction {
  import opened Results
  import opened Bytes
  import opened Events
  import opened Capture
  import LegacyBase
  import SiobaFunction

  /** The older `FunctionInterface`. `sent` is every chunk handed to `send`, in order;
      `sendQueue` the items printed onto the send queue and not yet taken. */
  class FunctionInterface {
    const base: LegacyBase.Interface
    var inputBuffer: seq<byte>
    var inputReady: bool
    var inputResult: Option<seq<byte>>
    var inputIsPassword: bool
    var captureMode: Mode
    const captureLastState: Mode
    var sendQueue: seq<seq<byte>>
    var sent: seq<seq<byte>>

    /** Once the ready flag is set, a line is waiting in the result slot. */
    ghost predicate Valid()
      reads this
    {
      inputReady ==> inputResult.Some?
    }

    /** `__init__`: no line yet, not a password, and the capture mode starts as the
        default capture state, which is also the state it is restored to. */
    constructor (onReceive: Option<CallbackId>, onSend: Option<CallbackId>, onShutdown: Option<CallbackId>,
                 onTitle: Option<CallbackId>, defaultCaptureState: Mode)
      ensures Valid() && fresh(base)
      ensures base.AllFields() == LegacyBase.Fields(Initialized, "", 0, LegacyBase.Registered(onReceive),
          LegacyBase.Registered(onSend), LegacyBase.Registered(onShutdown), LegacyBase.Registered(onTitle),
          map[], 24, 80, [])
      ensures inputBuffer == [] && !inputReady && inputResult == None && !inputIsPassword
      ensures captureMode == defaultCaptureState && captureLastState == defaultCaptureState
      ensures sendQueue == [] && sent == []
    {
      base := new LegacyBase.Interface(onReceive, onSend, onShutdown, onTitle, 80, 24);
      inputBuffer := [];
      inputReady := false;
      inputResult := None;
      inputIsPassword := false;
      captureMode := defaultCaptureState;
      captureLastState := defaultCaptureState;
      sendQueue, sent := [], [];
    }

    /** Printing of already formatted and encoded text: refused unless running (so
        also after shutdown), otherwise queued with `\n` widened to `\r\n`. */
    method Print(text: seq<byte>) returns (o: Outcome)
      modifies this
      ensures o == if base.state == Started then Pass else Fail(InterfaceNotStarted)
      ensures sendQueue == old(sendQueue) + if o.Pass? then [SiobaFunction.Printed(text)] else []
      ensures inputBuffer == old(inputBuffer) && inputReady == old(inputReady) && inputResult == old(inputResult)
      ensures inputIsPassword == old(inputIsPassword) && captureMode == old(captureMode) && sent == old(sent)
    {
      if base.state != Started {
        return Fail(InterfaceNotStarted);
      }
      sendQueue := sendQueue + [ReplaceByte(text, LF, CRLF)];
      return Pass;
    }

    /** The first half of `input` and `getpass`, up to the wait: refused unless
        running; otherwise the buffer is cleared, the ready flag lowered, the mode
        set and a non-empty prompt printed. */
    method BeginCapture(prompt: seq<byte>, mode: Mode) returns (o: Outcome)
      requires Valid()
      modifies this
      ensures Valid()
      ensures o == if base.state == Started then Pass else Fail(InterfaceNotStarted)
      ensures o.Pass? ==> inputBuffer == [] && !inputReady && captureMode == mode
      ensures o.Pass? ==> sendQueue == old(sendQueue) + if prompt != [] then [SiobaFunction.Printed(prompt)] else []
      ensures o.Fail? ==> inputBuffer == old(inputBuffer) && inputReady == old(inputReady)
                          && captureMode == old(captureMode) && sendQueue == old(sendQueue)
      ensures inputResult == old(inputResult) && inputIsPassword == old(inputIsPassword) && sent == old(sent)
    {
      if base.state != Started {
        return Fail(InterfaceNotStarted);
      }
      inputBuffer := [];
      inputReady := false;
      captureMode := mode;
      if prompt != [] {
        o := Print(prompt);
      }
      return Pass;
    }

    /** `input`, up to the wait. */
    method Input(prompt: seq<byte>) returns (o: Outcome)
      requires Valid()
      modifies this
      ensures Valid()
      ensures o == if base.state == Started then Pass else Fail(InterfaceNotStarted)
      ensures o.Pass? ==> inputBuffer == [] && !inputReady && captureMode == Capture.Input
      ensures o.Pass? ==> sendQueue == old(sendQueue) + if prompt != [] then [SiobaFunction.Printed(prompt)] else []
      ensures o.Fail? ==> inputBuffer == old(inputBuffer) && inputReady == old(inputReady)
                          && captureMode == old(captureMode) && sendQueue == old(sendQueue)
      ensures inputResult == old(inputResult) && inputIsPassword == old(inputIsPassword) && sent == old(sent)
    {
      o := BeginCapture(prompt, Capture.Input);
    }

    /** `getpass`, up to the wait: as `input`, and the interface remembers that a
        password was asked for. */
    method Getpass(prompt: seq<byte>) returns (o: Outcome)
      requires Valid()
      modifies this
      ensures Valid()
      ensures o == if base.state == Started then Pass else Fail(InterfaceNotStarted)
      ensures o.Pass? ==> inputBuffer == [] && !inputReady && captureMode == GetPass && inputIsPassword
      ensures o.Pass? ==> sendQueue == old(sendQueue) + if prompt != [] then [SiobaFunction.Printed(prompt)] else []
      ensures o.Fail? ==> inputBuffer == old(inputBuffer) && inputReady == old(inputReady) && captureMode == old(captureMode)
                          && sendQueue == old(sendQueue) && inputIsPassword == old(inputIsPassword)
      ensures inputResult == old(inputResult) && sent == old(sent)
    {
      o := BeginCapture(prompt, GetPass);
      if o.Pass? {
        inputIsPassword := true;
      }
    }

    /** The second half of `input` and `getpass`, once the ready flag is set: the
        mode is restored to the default capture state and the stored line returned.
        `None` while the call would still be waiting. */
    method CompleteCapture() returns (line: Option<seq<byte>>)
      requires Valid()
      modifies this
      ensures Valid()
      ensures line.Some? <==> old(inputReady)
      ensures line.Some? ==> line == old(inputResult) && captureMode == captureLastState
      ensures line.None? ==> captureMode == old(captureMode)
      ensures inputBuffer == old(inputBuffer) && inputReady == old(inputReady) && inputResult == old(inputResult)
      ensures sendQueue == old(sendQueue) && sent == old(sent)
    {
      if !inputReady {
        return None;
      }
      captureMode := captureLastState;
      return inputResult;
    }

    /** `capture(data)`: one step of the line editor. Enter stores the line and
        raises the ready flag. The returned bytes are what to send back; empty for
        nothing. */
    method CaptureStep(data: seq<byte>) returns (echo: seq<byte>)
      requires Valid()
      modifies this
      ensures Valid()
      ensures var c := LegacyCapture(old(captureMode), old(inputBuffer), data);
        echo == c.echo && inputBuffer == c.buffer
        && (c.result.Some? ==> inputResult == c.result && inputReady)
        && (c.result.None? ==> inputResult == old(inputResult) && inputReady == old(inputReady))
      ensures captureMode == old(captureMode) && sendQueue == old(sendQueue) && sent == old(sent)
    {
      if data == [CR] {
        inputResult := Some(inputBuffer);
        inputBuffer := [];
        inputReady := true;
        return CRLF;
      } else if data == [DEL] || data == [BS] {
        if inputBuffer != [] {
          inputBuffer := inputBuffer[..|inputBuffer| - 1];
          if captureMode == Capture.Input {
            return Erase;
          }
        }
      } else {
        inputBuffer := inputBuffer + data;
        if captureMode == Capture.Input {
          return data;
        }
      }
      return [];
    }

    /** `receive(data)`: empty data is ignored; otherwise the receive callbacks get
        it, then DISCARD drops it, ECHO sends it back as it is, and the editing modes
        pass it through `capture` and send back a non-empty echo. No state is
        checked. */
    method Receive(data: seq<byte>)
      requires Valid()
      modifies this, base
      ensures Valid()
      ensures var r := LegacyReceive(old(captureMode), old(inputBuffer), data);
        && inputBuffer == r.buffer
        && sent == old(sent) + AsList(r.sent)
        && (r.result.Some? ==> inputResult == r.result && inputReady)
        && (r.result.None? ==> inputResult == old(inputResult) && inputReady == old(inputReady))
        && base.AllFields() == old(base.AllFields()).(effects := old(base.effects)
             + if r.notified then [Received(base.receiveCallbacks, data)] else [])
      ensures captureMode == old(captureMode) && sendQueue == old(sendQueue)
    {
      if data == [] {
        return;
      }
      base.ReceiveFromXterm(data);
      if captureMode == Discard {
        return;
      } else if captureMode == Echo {
        sent := sent + [data];
        return;
      }
      var echo := CaptureStep(data);
      if echo != [] {
        sent := sent + [echo];
      }
    }
  }

  /** Whether starting an older function interface from state `s` gets as far as
      running the wrapped function, as written: `launch` sets STARTED and only then
      calls this class's `launch_interface`, whose own guard wants INITIALIZED. */
  function RunsFunctionAsWritten(s: InterfaceState): (runs: bool)
    ensures !runs
  {
    var launched := s == Initialized;
    launched && AfterStart(s) == Initialized
  }

  /** The same with the hook's guard left to `launch`, as the newer interface has
      it: the wrapped function runs exactly when a fresh interface is started. */
  function RunsFunction(s: InterfaceState): (runs: bool)
    ensures runs <==> s == Initialized
  {
    var launched := s == Initialized;
    launched && AfterStart(s) == Started
  }

  /** A whole line typed in INPUT mode, one byte per chunk, is echoed byte by byte
      and stored for the waiting `input`, which then returns it. */
  lemma {:induction false} LegacyTypedLine(buffer: seq<byte>, typed: seq<byte>)
    requires forall i | 0 <= i < |typed| :: Ordinary([typed[i]])
    ensures LegacyRun(Capture.Input, buffer, typed).buffer == buffer + typed
    ensures LegacyRun(Capture.Input, buffer, typed).echoes == typed
    ensures LegacyCapture(Capture.Input, buffer + typed, [CR]) == LegacyStep([], CRLF, Some(buffer + typed))
    decreases |typed|
  {
    if typed != [] {
      LegacyTypedLine(buffer + [typed[0]], typed[1..]);
      assert buffer + [typed[0]] + typed[1..] == buffer + typed;
      assert [typed[0]] + typed[1..] == typed;
    }
  }

  /** The older editor fed one byte per chunk: the buffer afterwards and every echoed byte. */
  datatype LegacyTrace = LegacyTrace(buffer: seq<byte>, echoes: seq<byte>)

  function LegacyRun(mode: Mode, buffer: seq<byte>, typed: seq<byte>): LegacyTrace
    decreases |typed|
  {
    if typed == [] then LegacyTrace(buffer, [])
    else
      var c := LegacyCapture(mode, buffer, [typed[0]]);
      var rest := LegacyRun(mode, c.buffer, typed[1..]);
      LegacyTrace(rest.buffer, c.echo + rest.echoes)
  }
}
