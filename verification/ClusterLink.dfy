/**
 Two nodes joined by a link that takes the bytes of each end and hands them to the other, in
 order, in pieces of any size. The claims are about every state of every run.
 */
module ClusterLink {
  import opened Common
  import opened ClusterFraming
  import opened ClusterNode
  import opened ClusterHandshake
  import opened ClusterHistory

  datatype Side = Left | Right

  datatype System = System(left: Node, right: Node) {
    function At(side: Side): Node { if side.Left? then left else right }

    function With(side: Side, n: Node): System {
      if side.Left? then this.(left := n) else this.(right := n)
    }
  }

  function Peer(side: Side): Side { if side.Left? then Right else Left }

  /** One handler runs at one end; a read gets bytes the peer has handed over and that come next. */
  predicate Next(s: System, side: Side, e: Event, s': System) {
    var n := s.At(side);
    Enabled(n, e)
    && (e.ReadDone? ==> n.inb.received + e.chunk <= s.At(Peer(side)).outb.wire)
    && s' == s.With(side, Apply(n, e))
  }

  /** Both ends have just been started, each with a handshake that a frame can carry. */
  predicate Init(s: System) {
    InRange(s.left.payload) && InRange(s.right.payload)
    && s == System(Running(s.left.payload), Running(s.right.payload))
  }

  datatype Move = Move(side: Side, event: Event)

  /** A run: its states, and what led from each to the next. */
  ghost predicate IsRun(states: seq<System>, moves: seq<Move>) {
    |states| == |moves| + 1 && Init(states[0])
    && forall i {:trigger moves[i]} :: 0 <= i < |moves| ==> Next(states[i], moves[i].side, moves[i].event, states[i + 1])
  }

  /** Teardown and the writer leave the bytes of the link alone. */
  predicate SameBytes(n: Node, m: Node) {
    m.outb.wire == n.outb.wire && m.payload == n.payload && m.inb.received == n.inb.received
  }

  lemma TeardownBytes(n: Node, kind: ErrorKind)
    ensures SameBytes(n, Abort(n)) && SameBytes(n, Shutdown(n)) && SameBytes(n, HandleError(n, kind))
  {
  }

  lemma WriterBytes(n: Node, message: Option<Bytes>)
    ensures SameBytes(n, WriteNext(n)) && SameBytes(n, Send(n, message))
  {
  }

  lemma GreetingBytes(n: Node, chunk: Bytes)
    ensures var m := OnGreeting(n, chunk);
            m.outb.wire == n.outb.wire && m.payload == n.payload && m.inb.received == n.inb.received + chunk
  {
    var g := Greet(n.inLen, n.readBuffer + chunk);
    var m := n.(inLen := g.len, readBuffer := g.buffer, inb := n.inb.(received := n.inb.received + chunk));
    TeardownBytes(m, Other);
    WriterBytes(m.(inb := m.inb.(ready := true), ops := m.ops.(reading := m.ops.reading + [MessageRead])), None);
  }

  lemma MessagesBytes(n: Node, chunk: Bytes)
    ensures var m := OnMessages(n, chunk);
            m.outb.wire == n.outb.wire && m.payload == n.payload && m.inb.received == n.inb.received + chunk
  {
    var d := Decode(n.inLen, n.readBuffer + chunk, n.inb.delivered);
    TeardownBytes(n.(inLen := d.len, readBuffer := d.buffer,
                     inb := n.inb.(received := n.inb.received + chunk, delivered := d.messages)), Other);
  }

  /** What a step can do to the bytes of the link. */
  lemma StepBytes(n: Node, e: Event)
    requires Enabled(n, e)
    ensures var m := Apply(n, e);
            n.outb.wire <= m.outb.wire && m.payload == n.payload
            && m.inb.received == if e.ReadDone? then n.inb.received + e.chunk else n.inb.received
  {
    match e
    case SendMessage(m) => WriterBytes(n, m);
    case TlsDone(ok) =>
    case Taken(i, count) =>
    case WriteDone(i) => WriterBytes(WriteEnded(n, i), None);
    case WriteFailed(i, kind) =>
      var m := WriteEnded(n, i);
      TeardownBytes(m.(outb := m.outb.(writeFailed := true, lost := n.ops.writing[i].left)), kind);
    case ReadDone(i, chunk) =>
      GreetingBytes(ReadEnded(n, i), chunk);
      MessagesBytes(ReadEnded(n, i), chunk);
    case ReadFailed(i, kind) =>
      var m := ReadEnded(n, i);
      TeardownBytes(m.(inb := m.inb.(readFailed := true)), kind);
    case ShutdownDone =>
  }

  /** The two ends of a link fit together. */
  predicate Joined(n: Node, peer: Node) {
    Inv(n) && Inv(peer) && InRange(n.payload) && InRange(peer.payload)
    && n.inb.received <= peer.outb.wire && peer.inb.received <= n.outb.wire
  }

  lemma StepJoined(n: Node, peer: Node, e: Event)
    requires Joined(n, peer) && Enabled(n, e) && (e.ReadDone? ==> n.inb.received + e.chunk <= peer.outb.wire)
    ensures Joined(Apply(n, e), peer)
  {
    StepInv(n, e);
    StepBytes(n, e);
  }

  predicate LinkInv(s: System) { Joined(s.left, s.right) }

  lemma NextInv(s: System, side: Side, e: Event, s': System)
    requires LinkInv(s) && Next(s, side, e, s')
    ensures LinkInv(s')
  {
    StepJoined(s.At(side), s.At(Peer(side)), e);
  }

  lemma {:induction false} RunInv(states: seq<System>, moves: seq<Move>, i: nat)
    requires IsRun(states, moves) && i < |states|
    ensures LinkInv(states[i])
    decreases i
  {
    if i == 0 {
      RunningInv(states[0].left.payload);
      RunningInv(states[0].right.payload);
    } else {
      RunInv(states, moves, i - 1);
      NextInv(states[i - 1], moves[i - 1].side, moves[i - 1].event, states[i]);
    }
  }

  // ---------------------------------------------------------------- histories

  /** What has happened at one end. */
  function EventsAt(moves: seq<Move>, side: Side): seq<Event> {
    if moves == [] then []
    else
      var m := moves[|moves| - 1];
      EventsAt(moves[..|moves| - 1], side) + if m.side == side then [m.event] else []
  }

  /** The messages that one end was given, in the first i moves, while it was not being torn down. */
  function SentBy(moves: seq<Move>, i: nat, side: Side): seq<Bytes>
    requires i <= |moves|
  {
    Sent(EventsAt(moves[..i], side))
  }

  lemma EventsNext(moves: seq<Move>, i: nat, side: Side)
    requires 0 < i <= |moves|
    ensures var m := moves[i - 1]; var events := EventsAt(moves[..i - 1], side);
            EventsAt(moves[..i], side) == if m.side == side then events + [m.event] else events
  {
    assert moves[..i][..i - 1] == moves[..i - 1];
    var events := EventsAt(moves[..i - 1], side);
    assert events + [] == events;
  }

  /** Both ends fit together, and one of them owes to its events what it should. */
  predicate Kept(s: System, side: Side, events: seq<Event>) {
    LinkInv(s) && History(s.At(side), events)
  }

  lemma KeptFirst(s: System, side: Side)
    requires Init(s)
    ensures Kept(s, side, [])
  {
    RunningInv(s.left.payload);
    RunningInv(s.right.payload);
    Beginning(s.At(side).payload);
  }

  lemma KeptNext(s: System, m: Move, s': System, side: Side, events: seq<Event>)
    requires Next(s, m.side, m.event, s') && Kept(s, side, events)
    ensures Kept(s', side, if m.side == side then events + [m.event] else events)
  {
    NextInv(s, m.side, m.event, s');
    if m.side == side {
      StepHistory(s.At(side), events, m.event);
    }
  }

  lemma KeptOn(states: seq<System>, moves: seq<Move>, i: nat, side: Side)
    requires IsRun(states, moves) && 0 < i < |states| && Kept(states[i - 1], side, EventsAt(moves[..i - 1], side))
    ensures Kept(states[i], side, EventsAt(moves[..i], side))
  {
    var m, events := moves[i - 1], EventsAt(moves[..i - 1], side);
    KeptNext(states[i - 1], m, states[i], side, events);
    EventsNext(moves, i, side);
  }

  lemma {:induction false} RunHistory(states: seq<System>, moves: seq<Move>, i: nat, side: Side)
    requires IsRun(states, moves) && i < |states|
    ensures Kept(states[i], side, EventsAt(moves[..i], side))
    decreases i
  {
    if i == 0 {
      KeptFirst(states[0], side);
    } else {
      RunHistory(states, moves, i - 1, side);
      KeptOn(states, moves, i, side);
    }
  }

  // ---------------------------------------------------------------- delivery

  /** The sender's stream starts with its handshake, so what follows the handshake is part of its frames. */
  lemma AfterHello(payload: Bytes, started: seq<Bytes>, r: Bytes)
    requires InRange(payload) && r <= Frame(payload) + Wire(started)
    requires |r| >= 4 && GreetingEnd(r) <= |r|
    ensures r[GreetingEnd(r)..] <= Wire(started)
  {
    var hello := Frame(payload);
    var whole := hello + Wire(started);
    HelloExactly(payload, started);
    assert r[..4] == whole[..4];
    assert FromLittle(r) == FromLittle(r[..4]) == FromLittle(whole[..4]) == FromLittle(whole);
    assert GreetingEnd(r) == GreetingEnd(whole) == |hello|;
    assert r[|hello|..] == whole[..|r|][|hello|..] == whole[|hello|..][..|r| - |hello|];
  }

  lemma Begins(n: Node, r: Bytes)
    requires SingleWriter(n) && r <= n.outb.wire && r != []
    ensures n.outb.greeted && r <= Frame(n.payload) + Wire(n.outb.started)
  {
    assert n.outb.wire <= Begun(n);
  }

  lemma StartedInRange(n: Node)
    requires Accounted(n) && AllInRange(n.outb.accepted)
    ensures n.outb.started <= n.outb.accepted && AllInRange(n.outb.started)
  {
    assert n.outb.accepted == n.outb.started + (n.queue + n.outb.discarded);
    assert forall i :: 0 <= i < |n.outb.started| ==> n.outb.started[i] == n.outb.accepted[i];
  }

  lemma ReadyReceived(n: Node)
    requires Received(n) && n.inb.ready
    ensures var r := n.inb.received;
            |r| >= 4 && GreetingEnd(r) <= |r| && n.inb.delivered == Decode(0, r[GreetingEnd(r)..], []).messages
  {
  }

  lemma Delivery(sender: Node, receiver: Node)
    requires Inv(sender) && Inv(receiver) && InRange(sender.payload)
    requires receiver.inb.received <= sender.outb.wire
    requires AllInRange(sender.outb.accepted)
    ensures receiver.inb.delivered <= sender.outb.started <= sender.outb.accepted
  {
    StartedInRange(sender);
    if receiver.inb.ready {
      var r := receiver.inb.received;
      ReadyReceived(receiver);
      Begins(sender, r);
      AfterHello(sender.payload, sender.outb.started, r);
      PrefixDecodes(sender.outb.started, r[GreetingEnd(r)..]);
    }
  }

  lemma KeptDelivery(s: System, side: Side, events: seq<Event>)
    requires Kept(s, side, events) && AllInRange(Sent(events))
    ensures s.At(Peer(side)).inb.delivered <= Sent(events)
  {
    Delivery(s.At(side), s.At(Peer(side)));
  }

  /**
   In every state of every run, in both directions: what has been delivered is a prefix, in order
   and byte for byte, of the messages the sender was given, if their sizes are 1 to 2^32 - 1.
   */
  lemma PrefixDelivery(states: seq<System>, moves: seq<Move>, i: nat, side: Side)
    requires IsRun(states, moves) && i < |states|
    requires AllInRange(SentBy(moves, i, side))
    ensures states[i].At(Peer(side)).inb.delivered <= SentBy(moves, i, side)
  {
    RunHistory(states, moves, i, side);
    KeptDelivery(states[i], side, EventsAt(moves[..i], side));
  }

  /**
   In every state of every run: when the sender is idle and not torn down, and the receiver, past the
   handshake, has read everything the sender handed over, every message the sender was given has been
   delivered.
   */
  lemma CompleteDelivery(states: seq<System>, moves: seq<Move>, i: nat, side: Side)
    requires IsRun(states, moves) && i < |states|
    requires var n, peer := states[i].At(side), states[i].At(Peer(side));
             AllInRange(SentBy(moves, i, side)) && !n.dropped && !n.shuttingDown && !n.isWriting
             && peer.inb.ready && peer.inb.received == n.outb.wire
    ensures states[i].At(Peer(side)).inb.delivered == SentBy(moves, i, side)
  {
    RunHistory(states, moves, i, side);
    AllDelivered(states[i].At(side), states[i].At(Peer(side)));
  }

  lemma AllDelivered(n: Node, peer: Node)
    requires Inv(n) && Inv(peer) && InRange(n.payload) && AllInRange(n.outb.accepted)
    requires !n.dropped && !n.shuttingDown && !n.isWriting && peer.inb.ready && peer.inb.received == n.outb.wire
    ensures peer.inb.delivered == n.outb.accepted
  {
    assert n.outb.started + [] + [] == n.outb.started;
    IdleWire(n);
    ReadyReceived(peer);
    HelloExactly(n.payload, n.outb.started);
    DecodeWire(n.outb.started, []);
    assert Wire(n.outb.started) + [] == Wire(n.outb.started);
  }

  lemma IdleWire(n: Node)
    requires SingleWriter(n) && !n.isWriting
    ensures n.outb.wire == Frame(n.payload) + Wire(n.outb.started)
  {
    assert n.outb.wire + [] == n.outb.wire;
  }

  lemma HelloExactly(payload: Bytes, started: seq<Bytes>)
    requires InRange(payload)
    ensures var r := Frame(payload) + Wire(started); GreetingEnd(r) == |Frame(payload)| && r[GreetingEnd(r)..] == Wire(started)
  {
    var r := Frame(payload) + Wire(started);
    LittleRoundTrip(|payload|);
    assert r[..4] == Little(|payload|);
    assert FromLittle(r) == FromLittle(r[..4]);
  }

  // ---------------------------------------------------------------- discipline

  /**
   In every state of every run: at most one write and one read are outstanding; an idle writer has an
   empty queue, no write in flight and a completed handshake; while no write has failed a queued
   message has a write ahead of it after the handshake, and an operation of the handshake before it,
   exactly unless a read of the handshake has failed; started and queued messages are the ones it was
   given; no message is started before the handshake is complete; TLS shutdown and close happen at most
   once, and leave nothing queued.
   */
  lemma LinkDiscipline(states: seq<System>, moves: seq<Move>, i: nat, side: Side)
    requires IsRun(states, moves) && i < |states|
    ensures var n := states[i].At(side);
            |n.ops.writing| <= 1 && |n.ops.reading| <= 1
            && (!n.isWriting ==> n.queue == [] && n.ops.writing == [] && n.inb.ready)
            && (!n.outb.writeFailed && n.queue != [] ==> (UnderWay(n) > 0 <==> n.inb.ready || !n.inb.readFailed))
            && (!n.outb.writeFailed && n.queue != [] && n.inb.ready ==> |n.ops.writing| == 1)
            && (!n.dropped && !n.shuttingDown ==> SentBy(moves, i, side) == n.outb.started + n.queue)
            && (n.outb.started != [] ==> n.inb.ready)
            && n.ends.shutdownCalls <= 1 && n.ends.closeCalls <= 1
            && (n.dropped || n.shuttingDown ==> n.queue == [])
  {
    RunHistory(states, moves, i, side);
    var n := states[i].At(side);
    assert n.outb.started + n.queue + [] == n.outb.started + n.queue;
  }

  /**
   A read of the handshake that is cancelled ends the link without tearing it down: every payload and
   message give a run after which the message is queued for good, with nothing under way, no failed
   write and no teardown.
   */
  lemma CanceledReadStalls(p: Bytes, m: Bytes) returns (states: seq<System>, moves: seq<Move>)
    requires InRange(p)
    ensures IsRun(states, moves)
    ensures var n := states[|states| - 1].left;
            n.queue == [m] && UnderWay(n) == 0 && !n.outb.writeFailed && !n.dropped && !n.shuttingDown
  {
    var n0 := Running(p);
    var n1 := Apply(n0, TlsDone(true));
    var n2 := Apply(n1, Taken(0, |Frame(p)|));
    var n3 := Apply(n2, WriteDone(0));
    var n4 := Apply(n3, ReadFailed(0, Canceled));
    var n5 := Apply(n4, SendMessage(Some(m)));
    states := [System(n0, n0), System(n1, n0), System(n2, n0), System(n3, n0), System(n4, n0), System(n5, n0)];
    moves := [Move(Left, TlsDone(true)), Move(Left, Taken(0, |Frame(p)|)), Move(Left, WriteDone(0)),
              Move(Left, ReadFailed(0, Canceled)), Move(Left, SendMessage(Some(m)))];
  }

  /** Between application reads, what is held is less than a length, or less than the message announced. */
  lemma HeldBack(states: seq<System>, moves: seq<Move>, i: nat, side: Side)
    requires IsRun(states, moves) && i < |states|
    ensures var n := states[i].At(side);
            n.inb.ready && n.ops.reading != [] ==> if n.inLen == 0 then |n.readBuffer| < 4 else |n.readBuffer| < n.inLen
  {
    RunInv(states, moves, i);
  }

  /**
   In every state of every run, from the events alone: the handshake is complete exactly when the chunks
   read have it so, and then what has been delivered is what the bytes after it decode to; an end that
   is ready has a read outstanding exactly unless one has failed or the peer has offended; and before
   that exactly one operation is under way unless one has failed.
   */
  lemma ReadsOn(states: seq<System>, moves: seq<Move>, i: nat, side: Side)
    requires IsRun(states, moves) && i < |states|
    ensures var n := states[i].At(side); var chunks := Chunks(EventsAt(moves[..i], side));
            (n.inb.ready <==> Greeted(chunks))
            && (n.inb.ready ==> n.inb.delivered == Decode(0, Application(chunks), []).messages)
            && GoesOn(n, Offends(chunks))
  {
    RunHistory(states, moves, i, side);
    DecodesWhatWasRead(states[i].At(side), Chunks(EventsAt(moves[..i], side)));
  }

  lemma DecodesWhatWasRead(n: Node, chunks: seq<Bytes>)
    requires Received(n) && Tracked(n, chunks)
    ensures n.inb.ready <==> Greeted(chunks)
    ensures n.inb.ready ==> n.inb.delivered == Decode(0, Application(chunks), []).messages
  {
    HandshakeCompletesIff(chunks);
    if Greeted(chunks) {
      GreetedLength(chunks);
      FirstLength(chunks);
      ReadyReceived(n);
    }
  }

  /**
   In every state of every run, from the events alone: an end is intact until a failure that is not a reset
   or an offence of its peer starts the TLS shutdown, and closed by a reset, a failed TLS handshake or the
   end of that shutdown; what is cancelled changes nothing. The socket is open until then, and the TLS
   shutdown is under way from its start to then.
   */
  lemma FateIsExact(states: seq<System>, moves: seq<Move>, i: nat, side: Side)
    requires IsRun(states, moves) && i < |states|
    ensures var n := states[i].At(side); var fate := FateAfter(EventsAt(moves[..i], side));
            (n.dropped <==> fate == Gone) && (n.shuttingDown && !n.dropped <==> fate == Closing)
            && (n.ends.socketOpen <==> fate != Gone) && (fate == Closing ==> n.ends.tlsShutdowns == 1)
            && n.ends.closeCalls == (if fate == Gone then 1 else 0)
  {
    RunHistory(states, moves, i, side);
  }

  /** In every run, an end whose peer has offended, say by a zero length, is being torn down. */
  lemma OffenceIsFatal(states: seq<System>, moves: seq<Move>, i: nat, side: Side)
    requires IsRun(states, moves) && i < |states| && Offends(Chunks(EventsAt(moves[..i], side)))
    ensures states[i].At(side).dropped || states[i].At(side).shuttingDown
    ensures states[i].At(side).ops.reading == []
  {
    RunHistory(states, moves, i, side);
    OffenderIsClosed(EventsAt(moves[..i], side));
  }

  /** No frame can be started any more. */
  predicate Silenced(n: Node) {
    n.dropped || n.shuttingDown || n.outb.writeFailed
  }

  lemma TeardownStarts(n: Node, kind: ErrorKind)
    ensures Abort(n).outb.started == n.outb.started && Shutdown(n).outb.started == n.outb.started
    ensures HandleError(n, kind).outb.started == n.outb.started
    ensures Silenced(n) ==> Silenced(Abort(n)) && Silenced(Shutdown(n)) && Silenced(HandleError(n, kind))
    ensures Shutdown(n).outb.writeFailed == n.outb.writeFailed == HandleError(n, kind).outb.writeFailed
  {
  }

  /** The frames started, and whether the writer has failed, are what they were. */
  predicate StillSilenced(n: Node, m: Node) {
    Silenced(m) && m.outb.started == n.outb.started
    && (n.outb.writeFailed ==> m.outb.writeFailed && m.outb.wire == n.outb.wire)
  }

  lemma SilencedWrites(n: Node, i: nat)
    requires Inv(n) && Silenced(n) && i < |n.ops.writing|
    ensures StillSilenced(n, OnWritten(n, i))
  {
  }

  lemma SilencedErrors(n: Node, i: nat, kind: ErrorKind)
    requires Inv(n) && Silenced(n)
    ensures i < |n.ops.writing| ==> StillSilenced(n, OnWriteFailed(n, i, kind))
    ensures i < |n.ops.reading| ==> StillSilenced(n, OnReadFailed(n, i, kind))
  {
    if i < |n.ops.writing| {
      var m := WriteEnded(n, i);
      TeardownStarts(m.(outb := m.outb.(writeFailed := true, lost := n.ops.writing[i].left)), kind);
    }
    if i < |n.ops.reading| {
      var m := ReadEnded(n, i);
      TeardownStarts(m.(inb := m.inb.(readFailed := true)), kind);
    }
  }

  lemma SilencedGreeting(n: Node, chunk: Bytes)
    requires Silenced(n) && (n.dropped || n.shuttingDown ==> n.queue == []) && !n.outb.writeFailed
    ensures StillSilenced(n, OnGreeting(n, chunk))
  {
    var g := Greet(n.inLen, n.readBuffer + chunk);
    TeardownStarts(n.(inLen := g.len, readBuffer := g.buffer, inb := n.inb.(received := n.inb.received + chunk)), Other);
  }

  lemma SilencedMessages(n: Node, chunk: Bytes)
    requires Silenced(n)
    ensures StillSilenced(n, OnMessages(n, chunk))
  {
    var d := Decode(n.inLen, n.readBuffer + chunk, n.inb.delivered);
    var m := n.(inLen := d.len, readBuffer := d.buffer,
                inb := n.inb.(received := n.inb.received + chunk, delivered := d.messages));
    TeardownStarts(m, Other);
    TeardownBytes(m, Other);
  }

  lemma SilencedReads(n: Node, i: nat, chunk: Bytes)
    requires Inv(n) && Silenced(n) && i < |n.ops.reading|
    ensures StillSilenced(n, OnRead(n, i, chunk))
  {
    var m := ReadEnded(n, i);
    if n.ops.reading[i].HandshakeRead? {
      SilencedGreeting(m, chunk);
    } else {
      SilencedMessages(m, chunk);
    }
  }

  lemma SilencedRest(n: Node, message: Option<Bytes>, ok: bool)
    requires Inv(n) && Silenced(n)
    ensures StillSilenced(n, Send(n, message)) && StillSilenced(n, OnShutdown(n))
    ensures n.ops.tlsHandshakes > 0 ==> StillSilenced(n, OnTls(n, ok))
  {
  }

  /** Once a write has failed or teardown has begun, no step starts another frame. */
  lemma SilencedStays(n: Node, e: Event)
    requires Inv(n) && Silenced(n) && Enabled(n, e)
    ensures StillSilenced(n, Apply(n, e))
  {
    match e
    case SendMessage(m) => SilencedRest(n, m, true);
    case TlsDone(ok) => SilencedRest(n, None, ok);
    case Taken(i, count) =>
    case WriteDone(i) => SilencedWrites(n, i);
    case WriteFailed(i, kind) => SilencedErrors(n, i, kind);
    case ReadDone(i, chunk) => SilencedReads(n, i, chunk);
    case ReadFailed(i, kind) => SilencedErrors(n, i, kind);
    case ShutdownDone => SilencedRest(n, None, true);
  }

  lemma SilencedNext(s: System, side: Side, e: Event, s': System, at: Side)
    requires LinkInv(s) && Next(s, side, e, s') && Silenced(s.At(at))
    ensures StillSilenced(s.At(at), s'.At(at))
  {
    if at == side {
      SilencedStays(s.At(side), e);
    }
  }

  lemma SilencedLonger(n: Node, m: Node, l: Node)
    requires StillSilenced(n, m) && StillSilenced(m, l)
    ensures StillSilenced(n, l)
  {
  }

  lemma SilencedOn(states: seq<System>, moves: seq<Move>, j: nat, side: Side)
    requires IsRun(states, moves) && 0 < j < |states| && Silenced(states[j - 1].At(side))
    ensures StillSilenced(states[j - 1].At(side), states[j].At(side))
  {
    RunInv(states, moves, j - 1);
    SilencedNext(states[j - 1], moves[j - 1].side, moves[j - 1].event, states[j], side);
  }

  /** Nothing is written after a failed write, and no frame is started after teardown begins, in any run. */
  lemma {:induction false} SilenceIsFinal(states: seq<System>, moves: seq<Move>, i: nat, j: nat, side: Side)
    requires IsRun(states, moves) && i <= j < |states| && Silenced(states[i].At(side))
    ensures StillSilenced(states[i].At(side), states[j].At(side))
    decreases j
  {
    if i < j {
      SilenceIsFinal(states, moves, i, j - 1, side);
      SilencedOn(states, moves, j, side);
      SilencedLonger(states[i].At(side), states[j - 1].At(side), states[j].At(side));
    }
  }
}
