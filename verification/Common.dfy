/** What the connections of both servers share: optional values, errors, and how a connection ends. */
module Common {

  datatype Option<+T> = None | Some(value: T)

  /** How the error handlers sort a failed operation. */
  datatype ErrorKind = Reset | Canceled | Other

  /** The socket, and the calls that end a connection. */
  datatype Ends = Ends(socketOpen: bool, tlsShutdowns: nat, shutdownCalls: nat, closeCalls: nat)

  /**
   TLS shutdown and socket close happen at most once, and a connection that is shutting down waits for
   its TLS shutdown; a connection being torn down has nothing queued.
   */
  predicate TeardownSafe(ends: Ends, dropped: bool, shuttingDown: bool, queued: nat) {
    ends.socketOpen == !dropped
    && ends.closeCalls == (if dropped then 1 else 0)
    && ends.shutdownCalls == (if shuttingDown then 1 else 0)
    && ends.tlsShutdowns <= ends.shutdownCalls
    && (shuttingDown && !dropped ==> ends.tlsShutdowns == 1)
    && (dropped || shuttingDown ==> queued == 0)
  }

  /** How far a connection is torn down: not at all, waiting for its TLS shutdown, or closed. */
  datatype Fate = Intact | Closing | Gone

  /** What an event means for a connection. */
  datatype Cause = Harmless | Graceful | Abrupt | TlsClosed

  function FailureCause(kind: ErrorKind): Cause {
    match kind
    case Reset => Abrupt
    case Canceled => Harmless
    case Other => Graceful
  }

  function NextFate(f: Fate, c: Cause): Fate {
    if c == Abrupt || (c == TlsClosed && f == Closing) then Gone
    else if c == Graceful && f == Intact then Closing
    else f
  }

  function FateFrom(dropped: bool, shuttingDown: bool): Fate {
    if dropped then Gone else if shuttingDown then Closing else Intact
  }

  /** An outstanding operation that has completed is outstanding no more. */
  function Without<T>(s: seq<T>, i: nat): seq<T>
    requires i < |s|
  {
    s[..i] + s[i + 1..]
  }
}
