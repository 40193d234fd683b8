/**
 A front connection as a state machine: setup, the write queue, the rate limiter and teardown.
 Handlers run one at a time in the connection's strand; timeouts may come at any moment.
 */
module FrontSession {
  import opened Common
  import opened ClusterFraming
  import L = FrontLimiter

  /** The steps of setup and reading, each of which starts the next. */
  datatype InputOp = TlsHandshake | HttpRequest | WsUpgrade | WsRead

  /** What a client that is not upgraded is told. */
  datatype Reply = ServiceUnavailable | NotImplemented

  datatype Config = Config(limits: L.Limits, maxSize: nat, softLimit: int)

  /** The outstanding operations, and the history of the connection. */
  datatype Trace = Trace(
    inputs: seq<InputOp>,
    replied: Option<Reply>,
    writing: seq<Bytes>,
    writeFailed: bool,
    accepted: seq<Bytes>,
    started: seq<Bytes>,
    discarded: seq<Bytes>)

  /** What has come in since the connection was opened. */
  datatype Intake = Intake(since: int, arrivals: seq<L.Arrival>, delivered: seq<Bytes>, killed: bool)

  datatype Session = Session(
    dropped: bool,
    shuttingDown: bool,
    isWriting: bool,
    queue: seq<Bytes>,
    limiter: L.Limiter,
    trace: Trace,
    intake: Intake,
    ends: Ends)

  // ---------------------------------------------------------------- teardown

  function Cleared(s: Session): Session {
    s.(queue := [], trace := s.trace.(discarded := s.trace.discarded + s.queue))
  }

  function CloseSocket(s: Session): Session {
    s.(dropped := true, ends := s.ends.(socketOpen := false, closeCalls := s.ends.closeCalls + 1))
  }

  function Abort(s: Session): Session {
    if s.dropped then s else CloseSocket(Cleared(s))
  }

  function Shutdown(s: Session): Session {
    if s.dropped || s.shuttingDown then s
    else if !s.ends.socketOpen then Cleared(s)
    else
      var c := Cleared(s);
      c.(shuttingDown := true,
         ends := c.ends.(tlsShutdowns := c.ends.tlsShutdowns + 1, shutdownCalls := c.ends.shutdownCalls + 1))
  }

  function OnShutdown(s: Session): Session {
    var m := s.(ends := s.ends.(tlsShutdowns := if s.ends.tlsShutdowns > 0 then s.ends.tlsShutdowns - 1 else 0));
    if m.dropped then m else CloseSocket(m)
  }

  function OnTimeout(s: Session, canceled: bool): Session {
    if s.dropped || canceled then s else Abort(s)
  }

  function HandleError(s: Session, kind: ErrorKind): Session {
    if s.dropped || kind.Canceled? then s
    else if kind.Reset? then Abort(s)
    else Shutdown(s)
  }

  // ---------------------------------------------------------------- sending

  function DoWrite(s: Session, m: Bytes): Session {
    s.(trace := s.trace.(started := s.trace.started + [m], writing := s.trace.writing + [m]))
  }

  function Send(s: Session, message: Option<Bytes>): Session {
    if message.None? || s.dropped || s.shuttingDown then s
    else
      var m := s.(trace := s.trace.(accepted := s.trace.accepted + [message.value]));
      if !m.isWriting then DoWrite(m.(isWriting := true), message.value)
      else m.(queue := m.queue + [message.value])
  }

  function OnWritten(s: Session, i: nat): Session
    requires i < |s.trace.writing|
  {
    var m := s.(trace := s.trace.(writing := Without(s.trace.writing, i)));
    if m.queue == [] then m.(isWriting := false)
    else DoWrite(m.(queue := m.queue[1..]), m.queue[0])
  }

  function OnWriteFailed(s: Session, i: nat, kind: ErrorKind): Session
    requires i < |s.trace.writing|
  {
    HandleError(s.(trace := s.trace.(writing := Without(s.trace.writing, i), writeFailed := true)), kind)
  }

  // ---------------------------------------------------------------- setup and receiving

  function Ended(s: Session, i: nat): Session
    requires i < |s.trace.inputs|
  {
    s.(trace := s.trace.(inputs := Without(s.trace.inputs, i)))
  }

  function Starting(s: Session, op: InputOp): Session {
    s.(trace := s.trace.(inputs := s.trace.inputs + [op]))
  }

  function OnTls(s: Session, ok: bool): Session {
    if ok then Starting(s, HttpRequest) else Abort(s)
  }

  function Refused(s: Session, reply: Reply): Session {
    Shutdown(s.(trace := s.trace.(replied := Some(reply))))
  }

  /** The first request, while `active` connections are counted. */
  function OnRequest(config: Config, s: Session, active: int, upgrade: bool): Session {
    if active > config.softLimit then Refused(s, ServiceUnavailable)
    else if upgrade then Starting(s, WsUpgrade)
    else Refused(s, NotImplemented)
  }

  function OnUpgraded(s: Session, ok: bool): Session {
    if s.dropped then s
    else if ok then Starting(s, WsRead)
    else Shutdown(s)
  }

  function OnMessage(config: Config, s: Session, now: int, message: Bytes, binary: bool): Session {
    var a := L.Arrival(now, |message|);
    var r := L.Admit(config.limits, s.limiter, a);
    var m := s.(intake := s.intake.(arrivals := s.intake.arrivals + [a]));
    if r.None? then
      Abort(m.(limiter := L.Counted(s.limiter, a), intake := m.intake.(killed := true)))
    else if !binary then Shutdown(m.(limiter := r.value))
    else Starting(m.(limiter := r.value, intake := m.intake.(delivered := m.intake.delivered + [message])), WsRead)
  }

  // ---------------------------------------------------------------- steps

  datatype Event =
    | SendMessage(message: Option<Bytes>)
    | WriteDone(i: nat)
    | WriteFailed(i: nat, kind: ErrorKind)
    | TlsDone(i: nat, ok: bool)
    | RequestRead(i: nat, active: int, upgrade: bool)
    | RequestFailed(i: nat, kind: ErrorKind)
    | Upgraded(i: nat, ok: bool)
    | MessageRead(i: nat, now: int, data: Bytes, binary: bool)
    | ReadFailed(i: nat, kind: ErrorKind)
    | Timeout(canceled: bool)
    | ShutdownDone

  predicate Outstanding(s: Session, i: nat, op: InputOp) {
    i < |s.trace.inputs| && s.trace.inputs[i] == op
  }

  /** The clock does not run backwards, and the stream refuses messages above the maximum size. */
  predicate Arrives(config: Config, s: Session, now: int, message: Bytes) {
    |message| <= config.maxSize && s.intake.since <= now
    && (s.intake.arrivals != [] ==> s.intake.arrivals[|s.intake.arrivals| - 1].time <= now)
  }

  predicate Enabled(config: Config, s: Session, e: Event) {
    match e
    case SendMessage(_) => true
    case WriteDone(i) => i < |s.trace.writing|
    case WriteFailed(i, _) => i < |s.trace.writing|
    case TlsDone(i, _) => Outstanding(s, i, TlsHandshake)
    case RequestRead(i, _, _) => Outstanding(s, i, HttpRequest)
    case RequestFailed(i, _) => Outstanding(s, i, HttpRequest)
    case Upgraded(i, _) => Outstanding(s, i, WsUpgrade)
    case MessageRead(i, now, message, _) => Outstanding(s, i, WsRead) && Arrives(config, s, now, message)
    case ReadFailed(i, _) => Outstanding(s, i, WsRead)
    case Timeout(_) => true
    case ShutdownDone => s.ends.tlsShutdowns > 0
  }

  function Apply(config: Config, s: Session, e: Event): Session
    requires Enabled(config, s, e)
  {
    match e
    case SendMessage(m) => Send(s, m)
    case WriteDone(i) => OnWritten(s, i)
    case WriteFailed(i, kind) => OnWriteFailed(s, i, kind)
    case TlsDone(i, ok) => OnTls(Ended(s, i), ok)
    case RequestRead(i, active, upgrade) => OnRequest(config, Ended(s, i), active, upgrade)
    case RequestFailed(i, kind) => HandleError(Ended(s, i), kind)
    case Upgraded(i, ok) => OnUpgraded(Ended(s, i), ok)
    case MessageRead(i, now, message, binary) => OnMessage(config, Ended(s, i), now, message, binary)
    case ReadFailed(i, kind) => HandleError(Ended(s, i), kind)
    case Timeout(canceled) => OnTimeout(s, canceled)
    case ShutdownDone => OnShutdown(s)
  }

  function Opened(now: int): Session {
    Session(false, false, false, [], L.Limiter(now, 0, 0), Trace([TlsHandshake], None, [], false, [], [], []),
            Intake(now, [], [], false), Ends(true, 0, 0, 0))
  }

  // ---------------------------------------------------------------- the invariant

  predicate EndsSafely(s: Session) {
    TeardownSafe(s.ends, s.dropped, s.shuttingDown, |s.queue|)
  }

  predicate SingleWriter(s: Session) {
    |s.trace.writing| <= 1
    && (s.trace.writing != [] ==> s.trace.started != [] && s.trace.writing[0] == s.trace.started[|s.trace.started| - 1])
    && (s.isWriting <==> s.trace.writing != [] || s.trace.writeFailed)
    && (s.trace.writeFailed ==> s.trace.writing == [])
    && (!s.isWriting ==> s.queue == [])
    && s.trace.accepted == s.trace.started + s.queue + s.trace.discarded
    && (s.trace.discarded != [] ==> s.dropped || s.shuttingDown)
  }

  /** The limiter has seen exactly the messages that arrived; a kill drops the connection for good. */
  predicate Metered(config: Config, s: Session) {
    L.InOrder(s.intake.since, s.intake.arrivals)
    && (forall i :: 0 <= i < |s.intake.arrivals| ==> s.intake.arrivals[i].size <= config.maxSize)
    && L.After(config.limits, s.intake.since, s.intake.arrivals) == (if s.intake.killed then None else Some(s.limiter))
    && |s.intake.delivered| <= |s.intake.arrivals|
  }

  /** Setup comes before the first message; a client that is refused or killed is not read any more. */
  predicate SingleReader(s: Session) {
    |s.trace.inputs| <= 1
    && (s.trace.inputs != [] && s.trace.inputs[0] != WsRead ==> s.intake.arrivals == [])
    && (s.intake.killed ==> s.dropped && s.trace.inputs == [])
    && (s.trace.replied.Some? ==> (s.dropped || s.shuttingDown) && s.trace.inputs == [] && s.intake.arrivals == [])
  }

  predicate Inv(config: Config, s: Session) {
    EndsSafely(s) && SingleWriter(s) && Metered(config, s) && SingleReader(s)
  }

  /** Clearing the queue discards what was accepted and not started. */
  lemma ClearedAccounted(started: seq<Bytes>, queue: seq<Bytes>)
    ensures started + queue + [] == started + [] + ([] + queue)
  {
  }

  /** Teardown leaves what the limiter has seen as it is. */
  lemma TeardownMetered(config: Config, s: Session)
    requires Metered(config, s)
    ensures Metered(config, Abort(s)) && Metered(config, Shutdown(s))
  {
    assert Abort(s).intake == s.intake && Abort(s).limiter == s.limiter;
    assert Shutdown(s).intake == s.intake && Shutdown(s).limiter == s.limiter;
  }

  lemma AbortInv(config: Config, s: Session)
    requires Inv(config, s)
    ensures Inv(config, Abort(s))
  {
    ClearedAccounted(s.trace.started, s.queue);
    TeardownMetered(config, s);
  }

  lemma ShutdownInv(config: Config, s: Session)
    requires Inv(config, s)
    ensures Inv(config, Shutdown(s))
  {
    ClearedAccounted(s.trace.started, s.queue);
    TeardownMetered(config, s);
  }

  lemma TeardownInv(config: Config, s: Session, kind: ErrorKind)
    requires Inv(config, s)
    ensures Inv(config, Abort(s)) && Inv(config, Shutdown(s)) && Inv(config, HandleError(s, kind))
  {
    AbortInv(config, s);
    ShutdownInv(config, s);
  }

  lemma OnShutdownInv(config: Config, s: Session)
    requires Inv(config, s) && s.ends.tlsShutdowns > 0
    ensures Inv(config, OnShutdown(s))
  {
  }

  lemma SendInv(config: Config, s: Session, message: Option<Bytes>)
    requires Inv(config, s)
    ensures Inv(config, Send(s, message))
  {
  }

  lemma OnWrittenInv(config: Config, s: Session, i: nat)
    requires Inv(config, s) && i < |s.trace.writing|
    ensures Inv(config, OnWritten(s, i))
  {
    assert Without(s.trace.writing, i) == [];
    if s.queue != [] {
      assert s.trace.started + s.queue == s.trace.started + [s.queue[0]] + s.queue[1..];
    }
  }

  lemma OnWriteFailedInv(config: Config, s: Session, i: nat, kind: ErrorKind)
    requires Inv(config, s) && i < |s.trace.writing|
    ensures Inv(config, OnWriteFailed(s, i, kind))
  {
    assert Without(s.trace.writing, i) == [];
    TeardownInv(config, s.(trace := s.trace.(writing := [], writeFailed := true)), kind);
  }

  lemma ArrivalMetered(config: Config, s: Session, now: int, message: Bytes)
    requires Metered(config, s) && !s.intake.killed && Arrives(config, s, now, message)
    ensures var a := L.Arrival(now, |message|); var run := s.intake.arrivals + [a];
            L.InOrder(s.intake.since, run)
            && (forall i :: 0 <= i < |run| ==> run[i].size <= config.maxSize)
            && L.After(config.limits, s.intake.since, run) == L.Admit(config.limits, s.limiter, a)
  {
    var run := s.intake.arrivals + [L.Arrival(now, |message|)];
    assert run[..|run| - 1] == s.intake.arrivals;
  }

  /** A message that overflows a young window: the connection is dropped and reads no more. */
  lemma KillInv(config: Config, s: Session, now: int, message: Bytes, binary: bool)
    requires Inv(config, s) && s.trace.inputs == [] && s.trace.replied.None? && !s.intake.killed && Arrives(config, s, now, message)
    requires L.Admit(config.limits, s.limiter, L.Arrival(now, |message|)).None?
    ensures Inv(config, OnMessage(config, s, now, message, binary))
  {
    ArrivalMetered(config, s, now, message);
    var a := L.Arrival(now, |message|);
    KilledInv(config, s.(limiter := L.Counted(s.limiter, a),
                         intake := s.intake.(arrivals := s.intake.arrivals + [a], killed := true)));
  }

  lemma KilledInv(config: Config, m: Session)
    requires EndsSafely(m) && SingleWriter(m) && Metered(config, m)
    requires m.trace.inputs == [] && m.trace.replied.None?
    ensures Inv(config, Abort(m))
  {
  }

  lemma AdmittedInv(config: Config, s: Session, now: int, message: Bytes, binary: bool)
    requires Inv(config, s) && s.trace.inputs == [] && s.trace.replied.None? && !s.intake.killed && Arrives(config, s, now, message)
    requires L.Admit(config.limits, s.limiter, L.Arrival(now, |message|)).Some?
    ensures Inv(config, OnMessage(config, s, now, message, binary))
  {
    ArrivalMetered(config, s, now, message);
    var a := L.Arrival(now, |message|);
    var r := L.Admit(config.limits, s.limiter, a);
    var m := s.(limiter := r.value, intake := s.intake.(arrivals := s.intake.arrivals + [a]));
    AdmittedMetered(config, m);
    TeardownInv(config, m, Other);
    if binary {
      DeliveredInv(config, m, message);
    }
  }

  lemma AdmittedMetered(config: Config, m: Session)
    requires EndsSafely(m) && SingleWriter(m) && m.trace.inputs == [] && m.trace.replied.None? && !m.intake.killed
    requires Metered(config, m)
    ensures Inv(config, m)
  {
  }

  lemma DeliveredInv(config: Config, m: Session, message: Bytes)
    requires Inv(config, m) && m.trace.inputs == [] && m.trace.replied.None? && !m.intake.killed
    requires |m.intake.delivered| < |m.intake.arrivals|
    ensures Inv(config, Starting(m.(intake := m.intake.(delivered := m.intake.delivered + [message])), WsRead))
  {
  }

  /** An operation of setup or reading that ends leaves a session that waits for nothing. */
  lemma EndedInv(config: Config, s: Session, i: nat)
    requires Inv(config, s) && i < |s.trace.inputs|
    ensures var m := Ended(s, i);
            Inv(config, m) && m.trace.inputs == [] && m.trace.replied.None? && !m.intake.killed
            && m.intake == s.intake && m.limiter == s.limiter
  {
    assert Without(s.trace.inputs, i) == [];
  }

  lemma MessageInv(config: Config, m: Session, now: int, message: Bytes, binary: bool)
    requires Inv(config, m) && m.trace.inputs == [] && m.trace.replied.None? && !m.intake.killed && Arrives(config, m, now, message)
    ensures Inv(config, OnMessage(config, m, now, message, binary))
  {
    if L.Admit(config.limits, m.limiter, L.Arrival(now, |message|)).None? {
      KillInv(config, m, now, message, binary);
    } else {
      AdmittedInv(config, m, now, message, binary);
    }
  }

  lemma OnMessageInv(config: Config, s: Session, i: nat, now: int, message: Bytes, binary: bool)
    requires Inv(config, s) && Outstanding(s, i, WsRead) && Arrives(config, s, now, message)
    ensures Inv(config, OnMessage(config, Ended(s, i), now, message, binary))
  {
    EndedInv(config, s, i);
    MessageInv(config, Ended(s, i), now, message, binary);
  }

  /** A completed step of setup or reading, but for a message. */
  lemma InputInv(config: Config, s: Session, i: nat, kind: ErrorKind)
    requires Inv(config, s) && i < |s.trace.inputs|
    ensures var m := Ended(s, i);
            Inv(config, m) && m.trace.inputs == [] && m.trace.replied.None? && !m.intake.killed
            && Inv(config, Abort(m)) && Inv(config, Shutdown(m)) && Inv(config, HandleError(m, kind))
  {
    EndedInv(config, s, i);
    TeardownInv(config, Ended(s, i), kind);
  }

  lemma StartingInv(config: Config, s: Session, op: InputOp)
    requires Inv(config, s) && s.trace.inputs == [] && s.trace.replied.None? && !s.intake.killed
    requires op != WsRead ==> s.intake.arrivals == []
    ensures Inv(config, Starting(s, op))
  {
  }

  lemma RefusedInv(config: Config, s: Session, reply: Reply)
    requires Inv(config, s) && s.trace.inputs == [] && s.intake.arrivals == []
    ensures Inv(config, Refused(s, reply))
  {
  }

  lemma OnTlsInv(config: Config, s: Session, i: nat, ok: bool)
    requires Inv(config, s) && Outstanding(s, i, TlsHandshake)
    ensures Inv(config, OnTls(Ended(s, i), ok))
  {
    InputInv(config, s, i, Other);
    if ok {
      StartingInv(config, Ended(s, i), HttpRequest);
    }
  }

  lemma OnRequestInv(config: Config, s: Session, i: nat, active: int, upgrade: bool)
    requires Inv(config, s) && Outstanding(s, i, HttpRequest)
    ensures Inv(config, OnRequest(config, Ended(s, i), active, upgrade))
  {
    InputInv(config, s, i, Other);
    RefusedInv(config, Ended(s, i), ServiceUnavailable);
    StartingInv(config, Ended(s, i), WsUpgrade);
    RefusedInv(config, Ended(s, i), NotImplemented);
  }

  lemma OnUpgradedInv(config: Config, s: Session, i: nat, ok: bool)
    requires Inv(config, s) && Outstanding(s, i, WsUpgrade)
    ensures Inv(config, OnUpgraded(Ended(s, i), ok))
  {
    InputInv(config, s, i, Other);
    StartingInv(config, Ended(s, i), WsRead);
  }

  /** No step of a connection, in whatever order they come, breaks the invariant. */
  lemma StepInv(config: Config, s: Session, e: Event)
    requires Inv(config, s) && Enabled(config, s, e)
    ensures Inv(config, Apply(config, s, e))
  {
    match e
    case SendMessage(m) => SendInv(config, s, m);
    case WriteDone(i) => OnWrittenInv(config, s, i);
    case WriteFailed(i, kind) => OnWriteFailedInv(config, s, i, kind);
    case TlsDone(i, ok) => OnTlsInv(config, s, i, ok);
    case RequestRead(i, active, upgrade) => OnRequestInv(config, s, i, active, upgrade);
    case RequestFailed(i, kind) => InputInv(config, s, i, kind);
    case Upgraded(i, ok) => OnUpgradedInv(config, s, i, ok);
    case MessageRead(i, now, message, binary) => OnMessageInv(config, s, i, now, message, binary);
    case ReadFailed(i, kind) => InputInv(config, s, i, kind);
    case Timeout(_) => TeardownInv(config, s, Other);
    case ShutdownDone => OnShutdownInv(config, s);
  }

  // ---------------------------------------------------------------- runs

  predicate Next(config: Config, s: Session, e: Event, s': Session) {
    Enabled(config, s, e) && s' == Apply(config, s, e)
  }

  ghost predicate IsRun(config: Config, states: seq<Session>, events: seq<Event>) {
    |states| == |events| + 1 && states[0] == Opened(states[0].intake.since)
    && forall i {:trigger events[i]} :: 0 <= i < |events| ==> Next(config, states[i], events[i], states[i + 1])
  }

  lemma NextInv(config: Config, s: Session, e: Event, s': Session)
    requires Inv(config, s) && Next(config, s, e, s')
    ensures Inv(config, s') && (s.intake.killed ==> s'.intake == s.intake)
  {
    StepInv(config, s, e);
    if s.intake.killed {
      KilledStays(config, s, e);
    }
  }

  lemma {:induction false} RunInv(config: Config, states: seq<Session>, events: seq<Event>, i: nat)
    requires IsRun(config, states, events) && i < |states|
    ensures Inv(config, states[i])
    decreases i
  {
    if i > 0 {
      RunInv(config, states, events, i - 1);
      NextInv(config, states[i - 1], events[i - 1], states[i]);
    }
  }

  /**
   In every state of every run: at most one write and one read are outstanding, the write being that of
   the message started last; an idle writer has an empty queue and no write in flight, and a busy one has
   a write in flight unless a write has failed; started and queued messages are the accepted ones; TLS shutdown and close have happened at most
   once; teardown leaves nothing queued; and nothing is ever read from a client that was refused.
   */
  lemma SessionDiscipline(config: Config, states: seq<Session>, events: seq<Event>, i: nat)
    requires IsRun(config, states, events) && i < |states|
    ensures var s := states[i];
            |s.trace.writing| <= 1 && |s.trace.inputs| <= 1
            && (s.trace.writing != [] ==> s.trace.started != [] && s.trace.writing == s.trace.started[|s.trace.started| - 1..])
            && (!s.isWriting ==> s.queue == [] && s.trace.writing == [])
            && (s.isWriting && !s.trace.writeFailed ==> |s.trace.writing| == 1)
            && (!s.dropped && !s.shuttingDown ==> s.trace.accepted == s.trace.started + s.queue)
            && s.ends.shutdownCalls <= 1 && s.ends.closeCalls <= 1
            && (s.dropped || s.shuttingDown ==> s.queue == [])
            && (s.trace.replied.Some? ==> s.trace.inputs == [] && s.intake.arrivals == [] && s.intake.delivered == [])
  {
    RunInv(config, states, events, i);
    assert states[i].trace.started + states[i].queue + [] == states[i].trace.started + states[i].queue;
  }

  /** No message can be started any more. */
  predicate Silenced(s: Session) {
    s.dropped || s.shuttingDown || s.trace.writeFailed
  }

  predicate StillSilenced(s: Session, t: Session) {
    Silenced(t) && t.trace.started == s.trace.started && (s.trace.writeFailed ==> t.trace.writeFailed)
    && (s.dropped ==> t.dropped) && (s.shuttingDown ==> t.shuttingDown)
  }

  lemma TeardownSilent(s: Session, kind: ErrorKind)
    ensures Silenced(s) ==> StillSilenced(s, Abort(s)) && StillSilenced(s, Shutdown(s)) && StillSilenced(s, HandleError(s, kind))
  {
  }

  lemma SilencedWrites(config: Config, s: Session, i: nat, kind: ErrorKind)
    requires Inv(config, s) && Silenced(s) && i < |s.trace.writing|
    ensures StillSilenced(s, OnWritten(s, i)) && StillSilenced(s, OnWriteFailed(s, i, kind))
  {
    TeardownSilent(s.(trace := s.trace.(writing := Without(s.trace.writing, i), writeFailed := true)), kind);
  }

  lemma SilencedInput(s: Session, i: nat, kind: ErrorKind)
    requires Silenced(s) && i < |s.trace.inputs|
    ensures var m := Ended(s, i);
            StillSilenced(s, m) && StillSilenced(s, Abort(m)) && StillSilenced(s, Shutdown(m)) && StillSilenced(s, HandleError(m, kind))
  {
    TeardownSilent(Ended(s, i), kind);
  }

  lemma SilencedRequest(config: Config, s: Session, i: nat, active: int, upgrade: bool)
    requires Silenced(s) && i < |s.trace.inputs|
    ensures StillSilenced(s, OnRequest(config, Ended(s, i), active, upgrade))
  {
    var m := Ended(s, i);
    TeardownSilent(m.(trace := m.trace.(replied := Some(ServiceUnavailable))), Other);
    TeardownSilent(m.(trace := m.trace.(replied := Some(NotImplemented))), Other);
  }

  lemma SilencedMessage(config: Config, s: Session, i: nat, now: int, message: Bytes, binary: bool)
    requires Silenced(s) && i < |s.trace.inputs|
    ensures StillSilenced(s, OnMessage(config, Ended(s, i), now, message, binary))
  {
  }

  /** Once a write has failed or teardown has begun, no step starts another message. */
  lemma SilencedStays(config: Config, s: Session, e: Event)
    requires Inv(config, s) && Silenced(s) && Enabled(config, s, e)
    ensures StillSilenced(s, Apply(config, s, e))
  {
    match e
    case SendMessage(_) =>
    case WriteDone(i) => SilencedWrites(config, s, i, Other);
    case WriteFailed(i, kind) => SilencedWrites(config, s, i, kind);
    case TlsDone(i, _) => SilencedInput(s, i, Other);
    case RequestRead(i, active, upgrade) => SilencedRequest(config, s, i, active, upgrade);
    case RequestFailed(i, kind) => SilencedInput(s, i, kind);
    case Upgraded(i, _) => SilencedInput(s, i, Other);
    case MessageRead(i, now, message, binary) => SilencedMessage(config, s, i, now, message, binary);
    case ReadFailed(i, kind) => SilencedInput(s, i, kind);
    case Timeout(_) => TeardownSilent(s, Other);
    case ShutdownDone =>
  }

  /**
   In every run: once a write has failed or teardown has begun, no message is started any more, even
   when a pending write completes later.
   */
  lemma {:induction false} SilenceIsFinal(config: Config, states: seq<Session>, events: seq<Event>, i: nat, j: nat)
    requires IsRun(config, states, events) && i <= j < |states| && Silenced(states[i])
    ensures StillSilenced(states[i], states[j])
    decreases j
  {
    if i < j {
      SilenceIsFinal(config, states, events, i, j - 1);
      RunInv(config, states, events, j - 1);
      assert Next(config, states[j - 1], events[j - 1], states[j]);
      SilencedStays(config, states[j - 1], events[j - 1]);
    }
  }

  lemma KilledStays(config: Config, s: Session, e: Event)
    requires Inv(config, s) && s.intake.killed && Enabled(config, s, e)
    ensures Apply(config, s, e).intake == s.intake
  {
  }

  /** In every run, nothing is delivered once the limiter has killed the connection. */
  lemma {:induction false} KillIsFinal(config: Config, states: seq<Session>, events: seq<Event>, i: nat, j: nat)
    requires IsRun(config, states, events) && i <= j < |states| && states[i].intake.killed
    ensures states[j].intake == states[i].intake
    decreases j
  {
    if i < j {
      KillIsFinal(config, states, events, i, j - 1);
      RunInv(config, states, events, j - 1);
      NextInv(config, states[j - 1], events[j - 1], states[j]);
    }
  }
}
