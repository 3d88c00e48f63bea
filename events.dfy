/** The lifecycle every interface goes through and the observable effects of its
    operations. Callbacks are registered in Python sets, so an effect names the set
    of callbacks a call fans out to and promises no order among them. */
module Events {
  import opened Bytes

  /** `InterfaceState` (the older interfaces use the integers 0, 1, 2 for the same states). */
  datatype InterfaceState = Initialized | Started | Shutdown

  /** A registered callable, known only by identity. */
  type CallbackId = nat

  /** What an operation does outside the interface object. */
  datatype Effect =
    | Sent(to: set<CallbackId>, data: seq<byte>)          // each send callback called with `data`
    | Received(to: set<CallbackId>, data: seq<byte>)      // each receive callback called with `data`
    | ShutdownNotified(to: set<CallbackId>)               // each shutdown callback called
    | TitleNotified(to: set<CallbackId>, title: string)   // each title callback called with `title`
    | Resized(rows: int, cols: int)                       // `set_terminal_size` / `set_size` called
    | StartHook                                           // `start_interface` / `launch_interface` awaited
    | ShutdownHook                                        // `shutdown_interface` awaited
    | ShutdownScheduled                                   // a `shutdown()` task created

  /** How far along the lifecycle a state is. */
  function Rank(s: InterfaceState): nat
  {
    match s
    case Initialized => 0
    case Started => 1
    case Shutdown => 2
  }

  /** The state after the guarded `start`: only a fresh interface starts. */
  function AfterStart(s: InterfaceState): (t: InterfaceState)
    ensures Rank(s) <= Rank(t)
    ensures t == Started <==> s != Shutdown
    ensures t == s <==> s != Initialized
  {
    if s == Initialized then Started else s
  }

  /** The state after the guarded `shutdown`: only a running interface shuts down. */
  function AfterShutdown(s: InterfaceState): (t: InterfaceState)
    ensures Rank(s) <= Rank(t)
    ensures t == Shutdown <==> s != Initialized
    ensures t == s <==> s != Started
  {
    if s == Started then Shutdown else s
  }

  /** Repeating a lifecycle step changes nothing more, and nothing leaves SHUTDOWN. */
  lemma LifecycleSteps(s: InterfaceState)
    ensures AfterStart(AfterStart(s)) == AfterStart(s)
    ensures AfterShutdown(AfterShutdown(s)) == AfterShutdown(s)
    ensures AfterStart(AfterShutdown(s)) == AfterShutdown(AfterStart(s)) <==> s != Initialized
  {
  }
}
