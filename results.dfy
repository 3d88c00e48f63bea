/** Error kinds and the failure-carrying result types shared by every module. */
module Results {

  /** The exceptions the terminal engine raises, one constructor per Python exception class. */
  datatype Error =
    | InterfaceNotStarted   // I/O attempted before start()
    | TerminalClosed        // sioba base: send after shutdown (TerminalClosedError)
    | InterfaceShutdown     // sioba function interface: printing, capture or receive after shutdown
    | KeyError
    | ValueError
    | TypeError
    | IndexError
    | AttributeError

  datatype Option<+T> = None | Some(value: T)

  /** A value, or the exception raised instead of producing it. */
  datatype Result<+T> = Ok(value: T) | Err(error: Error)

  /** Completion of an operation that returns nothing (Python `None`) or raises. */
  datatype Outcome = Pass | Fail(error: Error)
}
