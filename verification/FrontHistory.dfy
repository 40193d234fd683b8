/**
 What a front connection owes to the events that have happened to it, said from the events alone: the
 messages that arrived, were delivered and were given to it, whether the limiter kills it, the reply and
 the operation it waits for, and how far it is torn down.
 */
module FrontHistory {
  import opened Common
  import opened ClusterFraming
  import opened FrontSession
  import L = FrontLimiter

  // ---------------------------------------------------------------- what has happened

  function Arrivals(events: seq<Event>): seq<L.Arrival> {
    if events == [] then []
    else
      var e := events[|events| - 1];
      Arrivals(events[..|events| - 1]) + if e.MessageRead? then [L.Arrival(e.now, |e.data|)] else []
  }

  /** The limiter does not let the messages of a connection opened at `since` pass. */
  predicate Kills(config: Config, since: int, events: seq<Event>) {
    L.After(config.limits, since, Arrivals(events)).None?
  }

  /** The binary messages that the limiter let pass. */
  function Delivered(config: Config, since: int, events: seq<Event>): seq<Bytes> {
    if events == [] then []
    else
      var e := events[|events| - 1];
      Delivered(config, since, events[..|events| - 1])
      + if e.MessageRead? && e.binary && !Kills(config, since, events) then [e.data] else []
  }

  /** Clients above the soft limit are refused, and of the others those that do not ask for an upgrade. */
  function ReplyTo(config: Config, e: Event): Option<Reply>
    requires e.RequestRead?
  {
    if e.active > config.softLimit then Some(ServiceUnavailable)
    else if !e.upgrade then Some(NotImplemented)
    else None
  }

  function ReplyAfter(config: Config, events: seq<Event>): Option<Reply> {
    if events == [] then None
    else
      var e := events[|events| - 1];
      if e.RequestRead? && ReplyTo(config, e).Some? then ReplyTo(config, e)
      else ReplyAfter(config, events[..|events| - 1])
  }

  /** What an event means for the connection, when `kills` says that the limiter kills it. */
  function CauseOf(config: Config, kills: bool, e: Event): Cause {
    match e
    case SendMessage(_) => Harmless
    case WriteDone(_) => Harmless
    case WriteFailed(_, kind) => FailureCause(kind)
    case TlsDone(_, ok) => if ok then Harmless else Abrupt
    case RequestRead(_, _, _) => if ReplyTo(config, e).Some? then Graceful else Harmless
    case RequestFailed(_, kind) => FailureCause(kind)
    case Upgraded(_, ok) => if ok then Harmless else Graceful
    case MessageRead(_, _, _, binary) => if kills then Abrupt else if binary then Harmless else Graceful
    case ReadFailed(_, kind) => FailureCause(kind)
    case Timeout(canceled) => if canceled then Harmless else Abrupt
    case ShutdownDone => TlsClosed
  }

  function FateAfter(config: Config, since: int, events: seq<Event>): Fate {
    if events == [] then Intact
    else
      NextFate(FateAfter(config, since, events[..|events| - 1]),
               CauseOf(config, Kills(config, since, events), events[|events| - 1]))
  }

  /** What is waited for next; `fate` is how far the connection was torn down when the event came. */
  function InputNext(config: Config, kills: bool, fate: Fate, before: seq<InputOp>, e: Event): seq<InputOp> {
    match e
    case TlsDone(_, ok) => if ok then [HttpRequest] else []
    case RequestRead(_, _, _) => if ReplyTo(config, e).None? then [WsUpgrade] else []
    case RequestFailed(_, _) => []
    case Upgraded(_, ok) => if ok && fate != Gone then [WsRead] else []
    case MessageRead(_, _, _, binary) => if binary && !kills then [WsRead] else []
    case ReadFailed(_, _) => []
    case SendMessage(_) => before
    case WriteDone(_) => before
    case WriteFailed(_, _) => before
    case Timeout(_) => before
    case ShutdownDone => before
  }

  function InputAfter(config: Config, since: int, events: seq<Event>): seq<InputOp> {
    if events == [] then [TlsHandshake]
    else
      var init := events[..|events| - 1];
      InputNext(config, Kills(config, since, events), FateAfter(config, since, init), InputAfter(config, since, init),
                events[|events| - 1])
  }

  /** The messages that were given to a connection that was not being torn down. */
  function Sent(config: Config, since: int, events: seq<Event>): seq<Bytes> {
    if events == [] then []
    else
      var init, e := events[..|events| - 1], events[|events| - 1];
      Sent(config, since, init)
      + if e.SendMessage? && e.message.Some? && FateAfter(config, since, init) == Intact then [e.message.value] else []
  }

  // ---------------------------------------------------------------- what is owed to it

  function FateOf(s: Session): Fate { FateFrom(s.dropped, s.shuttingDown) }

  /** All that the events determine. */
  datatype Past = Past(
    since: int, arrivals: seq<L.Arrival>, kills: bool, delivered: seq<Bytes>, reply: Option<Reply>,
    fate: Fate, inputs: seq<InputOp>, sent: seq<Bytes>)

  function PastOf(config: Config, since: int, events: seq<Event>): Past {
    Past(since, Arrivals(events), Kills(config, since, events), Delivered(config, since, events), ReplyAfter(config, events),
         FateAfter(config, since, events), InputAfter(config, since, events), Sent(config, since, events))
  }

  /** The part of a session that the events determine. */
  function Shown(s: Session): Past {
    Past(s.intake.since, s.intake.arrivals, s.intake.killed, s.intake.delivered, s.trace.replied, FateOf(s), s.trace.inputs, s.trace.accepted)
  }

  /** The past with one event more, when `kills` says that the limiter kills the connection by then. */
  function PastNext(config: Config, p: Past, kills: bool, e: Event): Past {
    Past(p.since,
         if e.MessageRead? then p.arrivals + [L.Arrival(e.now, |e.data|)] else p.arrivals,
         kills,
         if e.MessageRead? && e.binary && !kills then p.delivered + [e.data] else p.delivered,
         if e.RequestRead? && ReplyTo(config, e).Some? then ReplyTo(config, e) else p.reply,
         NextFate(p.fate, CauseOf(config, kills, e)),
         InputNext(config, kills, p.fate, p.inputs, e),
         if e.SendMessage? && e.message.Some? && p.fate == Intact then p.sent + [e.message.value] else p.sent)
  }

  lemma PastGrows(config: Config, since: int, events: seq<Event>, e: Event)
    ensures PastOf(config, since, events + [e])
            == PastNext(config, PastOf(config, since, events), Kills(config, since, events + [e]), e)
    ensures !e.MessageRead? ==> Kills(config, since, events + [e]) == Kills(config, since, events)
  {
    assert (events + [e])[..|events + [e]| - 1] == events && (events + [e])[|events + [e]| - 1] == e;
    assert Arrivals(events) + [] == Arrivals(events);
    assert Delivered(config, since, events) + [] == Delivered(config, since, events);
    assert Sent(config, since, events) + [] == Sent(config, since, events);
  }

  lemma TeardownShown(s: Session, kind: ErrorKind)
    requires s.ends.socketOpen == !s.dropped
    ensures Shown(Abort(s)) == Shown(s).(fate := Gone)
    ensures Shown(Shutdown(s)) == Shown(s).(fate := NextFate(FateOf(s), Graceful))
    ensures Shown(HandleError(s, kind)) == Shown(s).(fate := NextFate(FateOf(s), FailureCause(kind)))
    ensures FateOf(s) != Intact ==> Shown(OnShutdown(s)) == Shown(s).(fate := Gone)
  {
  }

  lemma WriterShown(config: Config, s: Session, e: Event)
    requires Inv(config, s) && Enabled(config, s, e) && (e.SendMessage? || e.WriteDone?)
    ensures Shown(Apply(config, s, e)) == PastNext(config, Shown(s), s.intake.killed, e)
  {
  }

  lemma EndingShown(config: Config, s: Session, e: Event)
    requires Inv(config, s) && Enabled(config, s, e) && (e.WriteFailed? || e.Timeout? || e.ShutdownDone?)
    ensures Shown(Apply(config, s, e)) == PastNext(config, Shown(s), s.intake.killed, e)
  {
    if e.WriteFailed? {
      var m := s.(trace := s.trace.(writing := Without(s.trace.writing, e.i), writeFailed := true));
      assert Shown(m) == Shown(s);
      TeardownShown(m, e.kind);
    } else {
      TeardownShown(s, Other);
    }
  }

  /** An operation of setup or reading ends, and nothing else is shown of it. */
  lemma EndedShown(config: Config, s: Session, i: nat)
    requires Inv(config, s) && i < |s.trace.inputs|
    ensures Shown(Ended(s, i)) == Shown(s).(inputs := []) && Ended(s, i).ends == s.ends && Ended(s, i).dropped == s.dropped
  {
    assert Without(s.trace.inputs, i) == [];
  }

  lemma TlsShown(config: Config, s: Session, e: Event)
    requires Inv(config, s) && Enabled(config, s, e) && e.TlsDone?
    ensures Shown(Apply(config, s, e)) == PastNext(config, Shown(s), s.intake.killed, e)
  {
    EndedShown(config, s, e.i);
    TeardownShown(Ended(s, e.i), Other);
    assert [] + [HttpRequest] == [HttpRequest];
  }

  lemma RefusedShown(s: Session, reply: Reply)
    requires s.ends.socketOpen == !s.dropped
    ensures Shown(Refused(s, reply)) == Shown(s).(reply := Some(reply), fate := NextFate(FateOf(s), Graceful))
  {
    TeardownShown(s.(trace := s.trace.(replied := Some(reply))), Other);
  }

  lemma RequestShown(config: Config, s: Session, e: Event)
    requires Inv(config, s) && Enabled(config, s, e) && e.RequestRead?
    ensures Shown(Apply(config, s, e)) == PastNext(config, Shown(s), s.intake.killed, e)
  {
    EndedShown(config, s, e.i);
    RefusedShown(Ended(s, e.i), ServiceUnavailable);
    RefusedShown(Ended(s, e.i), NotImplemented);
    assert [] + [WsUpgrade] == [WsUpgrade];
  }

  lemma UpgradedShown(config: Config, s: Session, e: Event)
    requires Inv(config, s) && Enabled(config, s, e) && e.Upgraded?
    ensures Shown(Apply(config, s, e)) == PastNext(config, Shown(s), s.intake.killed, e)
  {
    EndedShown(config, s, e.i);
    TeardownShown(Ended(s, e.i), Other);
    assert [] + [WsRead] == [WsRead];
  }

  lemma FailureShown(config: Config, s: Session, e: Event)
    requires Inv(config, s) && Enabled(config, s, e) && (e.RequestFailed? || e.ReadFailed?)
    ensures Shown(Apply(config, s, e)) == PastNext(config, Shown(s), s.intake.killed, e)
  {
    EndedShown(config, s, e.i);
    TeardownShown(Ended(s, e.i), e.kind);
  }

  lemma KilledShown(config: Config, s: Session, e: Event)
    requires Inv(config, s) && Enabled(config, s, e) && e.MessageRead?
    requires L.Admit(config.limits, s.limiter, L.Arrival(e.now, |e.data|)).None?
    ensures Shown(Apply(config, s, e)) == PastNext(config, Shown(s), true, e)
  {
    EndedShown(config, s, e.i);
    var a, m := L.Arrival(e.now, |e.data|), Ended(s, e.i);
    TeardownShown(m.(limiter := L.Counted(s.limiter, a), intake := m.intake.(arrivals := s.intake.arrivals + [a], killed := true)), Other);
  }

  lemma PassedShown(config: Config, s: Session, e: Event)
    requires Inv(config, s) && Enabled(config, s, e) && e.MessageRead?
    requires L.Admit(config.limits, s.limiter, L.Arrival(e.now, |e.data|)).Some?
    ensures Shown(Apply(config, s, e)) == PastNext(config, Shown(s), false, e)
  {
    EndedShown(config, s, e.i);
    var a, m := L.Arrival(e.now, |e.data|), Ended(s, e.i);
    TeardownShown(m.(limiter := L.Admit(config.limits, s.limiter, a).value,
                     intake := m.intake.(arrivals := s.intake.arrivals + [a])), Other);
    assert [] + [WsRead] == [WsRead];
  }

  lemma MessageShown(config: Config, s: Session, e: Event)
    requires Inv(config, s) && Enabled(config, s, e) && e.MessageRead?
    ensures var kills := L.After(config.limits, s.intake.since, s.intake.arrivals + [L.Arrival(e.now, |e.data|)]).None?;
            Shown(Apply(config, s, e)) == PastNext(config, Shown(s), kills, e)
  {
    ArrivalMetered(config, s, e.now, e.data);
    if L.Admit(config.limits, s.limiter, L.Arrival(e.now, |e.data|)).None? {
      KilledShown(config, s, e);
    } else {
      PassedShown(config, s, e);
    }
  }

  lemma QuietShown(config: Config, s: Session, e: Event)
    requires Inv(config, s) && Enabled(config, s, e) && !e.MessageRead?
    ensures Shown(Apply(config, s, e)) == PastNext(config, Shown(s), s.intake.killed, e)
  {
    if e.RequestFailed? || e.ReadFailed? {
      FailureShown(config, s, e);
    } else if e.TlsDone? {
      TlsShown(config, s, e);
    } else if e.RequestRead? {
      RequestShown(config, s, e);
    } else if e.Upgraded? {
      UpgradedShown(config, s, e);
    } else if e.SendMessage? || e.WriteDone? {
      WriterShown(config, s, e);
    } else {
      EndingShown(config, s, e);
    }
  }

  /** Every step is what its event makes it. */
  lemma StepHistory(config: Config, s: Session, events: seq<Event>, e: Event)
    requires Inv(config, s) && Enabled(config, s, e) && Shown(s) == PastOf(config, s.intake.since, events)
    ensures Shown(Apply(config, s, e)) == PastOf(config, s.intake.since, events + [e])
  {
    PastGrows(config, s.intake.since, events, e);
    if e.MessageRead? {
      MessageShown(config, s, e);
    } else {
      QuietShown(config, s, e);
    }
  }

  // ---------------------------------------------------------------- runs

  lemma Beginning(config: Config, since: int)
    ensures Shown(Opened(since)) == PastOf(config, since, [])
  {
  }

  lemma EventsNext(events: seq<Event>, i: nat)
    requires i < |events|
    ensures events[..i + 1] == events[..i] + [events[i]]
  {
  }

  lemma NextHistory(config: Config, s: Session, e: Event, s': Session, since: int, events: seq<Event>)
    requires Inv(config, s) && Next(config, s, e, s') && Shown(s) == PastOf(config, since, events)
    ensures Shown(s') == PastOf(config, since, events + [e])
  {
    StepHistory(config, s, events, e);
  }

  /**
   In every state of every run, from the events alone: the messages that arrived, whether the limiter has
   killed the connection, the messages delivered (all the binary ones it let pass, in order and byte for
   byte), the reply, how far the connection is torn down, what it waits for, and the messages it took.
   */
  lemma {:induction false} RunHistory(config: Config, states: seq<Session>, events: seq<Event>, i: nat)
    requires IsRun(config, states, events) && i < |states|
    ensures Inv(config, states[i]) && Shown(states[i]) == PastOf(config, states[0].intake.since, events[..i])
    decreases i
  {
    RunInv(config, states, events, i);
    if i == 0 {
      Beginning(config, states[0].intake.since);
    } else {
      RunHistory(config, states, events, i - 1);
      EventsNext(events, i - 1);
      NextHistory(config, states[i - 1], events[i - 1], states[i], states[0].intake.since, events[..i - 1]);
    }
  }

  /** One step of a run, as the events tell it. */
  lemma RunStep(config: Config, states: seq<Session>, events: seq<Event>, i: nat)
    requires IsRun(config, states, events) && i < |events|
    ensures var kills := Kills(config, states[0].intake.since, events[..i + 1]);
            Shown(states[i + 1]) == PastNext(config, Shown(states[i]), kills, events[i])
    ensures Enabled(config, states[i], events[i])
  {
    RunHistory(config, states, events, i);
    RunHistory(config, states, events, i + 1);
    EventsNext(events, i);
    PastGrows(config, states[0].intake.since, events[..i], events[i]);
    assert Next(config, states[i], events[i], states[i + 1]);
  }

  /** In every run: unless teardown has begun, what was given to the connection is what was started and what is queued. */
  lemma NothingIsLost(config: Config, states: seq<Session>, events: seq<Event>, i: nat)
    requires IsRun(config, states, events) && i < |states| && !states[i].dropped && !states[i].shuttingDown
    ensures Sent(config, states[0].intake.since, events[..i]) == states[i].trace.started + states[i].queue
  {
    RunHistory(config, states, events, i);
    SessionDiscipline(config, states, events, i);
  }

  /** In every run, the socket is open until the connection is closed, and its TLS shutdown is under way until then. */
  lemma FateIsExact(config: Config, states: seq<Session>, events: seq<Event>, i: nat)
    requires IsRun(config, states, events) && i < |states|
    ensures var s := states[i]; var fate := FateAfter(config, states[0].intake.since, events[..i]);
            (s.dropped <==> fate == Gone) && (s.shuttingDown && !s.dropped <==> fate == Closing)
            && (s.ends.socketOpen <==> fate != Gone) && (fate == Closing ==> s.ends.tlsShutdowns == 1)
            && s.ends.closeCalls == (if fate == Gone then 1 else 0)
  {
    RunHistory(config, states, events, i);
  }

  /** Nothing is waited for again once nothing is. */
  lemma {:induction false} InputIsOver(config: Config, states: seq<Session>, events: seq<Event>, i: nat, j: nat)
    requires IsRun(config, states, events) && i <= j < |states| && states[i].trace.inputs == []
    ensures states[j].trace.inputs == []
    decreases j
  {
    if i < j {
      InputIsOver(config, states, events, i, j - 1);
      RunStep(config, states, events, j - 1);
    }
  }

  /** In every run, a text message that the limiter lets pass ends reading for good and begins teardown. */
  lemma TextEndsReading(config: Config, states: seq<Session>, events: seq<Event>, i: nat, j: nat)
    requires IsRun(config, states, events) && i < j < |states|
    requires events[i].MessageRead? && !events[i].binary && !Kills(config, states[0].intake.since, events[..i + 1])
    ensures (states[j].dropped || states[j].shuttingDown) && states[j].trace.inputs == []
    ensures states[i + 1].intake.delivered == states[i].intake.delivered
  {
    RunStep(config, states, events, i);
    InputIsOver(config, states, events, i + 1, j);
    SilenceIsFinal(config, states, events, i + 1, j);
  }

  /** In every run, a connection that is not killed has stayed below the ceiling in every interval. */
  lemma SessionCeiling(config: Config, states: seq<Session>, events: seq<Event>, i: nat, lo: int, seconds: nat)
    requires IsRun(config, states, events) && i < |states| && !states[i].intake.killed && seconds >= 1
    ensures var run := Arrivals(events[..i]); var hi := lo + seconds * L.SECOND;
            L.CountIn(run, lo, hi) <= (seconds + 1) * config.limits.messages + seconds
            && L.BytesIn(run, lo, hi) <= (seconds + 1) * config.limits.bytes + seconds * config.maxSize
  {
    RunHistory(config, states, events, i);
    L.RateCeiling(config.limits, config.maxSize, states[i].intake.since, states[i].intake.arrivals, lo, seconds);
  }

  /** In every run, a client that keeps to the limits in every closed second is not killed. */
  lemma SessionNotKilled(config: Config, states: seq<Session>, events: seq<Event>, i: nat)
    requires IsRun(config, states, events) && i < |states| && L.Polite(config.limits, Arrivals(events[..i]))
    ensures !states[i].intake.killed
  {
    RunHistory(config, states, events, i);
    L.PoliteIsNeverKilled(config.limits, states[i].intake.since, states[i].intake.arrivals);
  }
}
