/**
 What one end of a link owes to the events that have happened to it, said from the events alone: the
 messages it was given, the bytes it has read, whether the handshake is complete, whether it still
 reads, and how far it is torn down.
 */
module ClusterHistory {
  import opened Common
  import opened ClusterFraming
  import opened ClusterNode
  import opened ClusterHandshake

  // ---------------------------------------------------------------- what has happened

  /** The chunks that have been read. */
  function Chunks(events: seq<Event>): seq<Bytes> {
    if events == [] then []
    else
      var e := events[|events| - 1];
      Chunks(events[..|events| - 1]) + if e.ReadDone? then [e.chunk] else []
  }

  /** The first chunk holds a length, and some chunk ends exactly with the handshake of that length. */
  predicate Greeted(chunks: seq<Bytes>) {
    Opens(chunks) && EndsAt(chunks, 4 + FromLittle(chunks[0]))
  }

  /** What has been read after the handshake. */
  function Application(chunks: seq<Bytes>): Bytes
    requires Greeted(chunks)
  {
    GreetedLength(chunks);
    Concat(chunks)[4 + FromLittle(chunks[0])..]
  }

  lemma GreetedLength(chunks: seq<Bytes>)
    requires Greeted(chunks)
    ensures 4 + FromLittle(chunks[0]) <= |Concat(chunks)|
  {
    NoEndBelow(chunks, 4 + FromLittle(chunks[0]));
  }

  /** The peer has broken the protocol: in its handshake, or by a frame of length zero after it. */
  predicate Offends(chunks: seq<Bytes>) {
    if Greeted(chunks) then Decode(0, Application(chunks), []).bad
    else chunks != [] && (!Opens(chunks) || |Concat(chunks)| > 4 + FromLittle(chunks[0]))
  }

  /** What an event means for the connection, when `chunks` have been read including its own. */
  function CauseOf(chunks: seq<Bytes>, e: Event): Cause {
    match e
    case SendMessage(_) => Harmless
    case TlsDone(ok) => if ok then Harmless else Abrupt
    case Taken(_, _) => Harmless
    case WriteDone(_) => Harmless
    case WriteFailed(_, kind) => FailureCause(kind)
    case ReadDone(_, _) => if Offends(chunks) then Graceful else Harmless
    case ReadFailed(_, kind) => FailureCause(kind)
    case ShutdownDone => TlsClosed
  }

  function FateAfter(events: seq<Event>): Fate {
    if events == [] then Intact
    else NextFate(FateAfter(events[..|events| - 1]), CauseOf(Chunks(events), events[|events| - 1]))
  }

  /** The messages that were given to a connection that was not being torn down. */
  function Sent(events: seq<Event>): seq<Bytes> {
    if events == [] then []
    else
      var init, e := events[..|events| - 1], events[|events| - 1];
      Sent(init) + if e.SendMessage? && e.message.Some? && FateAfter(init) == Intact then [e.message.value] else []
  }

  /** What one more event adds. */
  lemma OneMore(events: seq<Event>, e: Event)
    ensures Chunks(events + [e]) == if e.ReadDone? then Chunks(events) + [e.chunk] else Chunks(events)
    ensures FateAfter(events + [e]) == NextFate(FateAfter(events), CauseOf(Chunks(events + [e]), e))
    ensures Sent(events + [e]) == if e.SendMessage? && e.message.Some? && FateAfter(events) == Intact then Sent(events) + [e.message.value]
                                  else Sent(events)
  {
    assert (events + [e])[..|events + [e]| - 1] == events && (events + [e])[|events + [e]| - 1] == e;
    assert Chunks(events) + [] == Chunks(events) && Sent(events) + [] == Sent(events);
  }

  /** An offence is noticed when it happens. */
  lemma {:induction false} OffenderIsClosed(events: seq<Event>)
    requires Offends(Chunks(events))
    ensures FateAfter(events) != Intact
  {
    if events != [] {
      var init, e := events[..|events| - 1], events[|events| - 1];
      assert Chunks(init) + [] == Chunks(init);
      if !e.ReadDone? {
        OffenderIsClosed(init);
      }
    }
  }

  // ---------------------------------------------------------------- what is owed to it

  function FateOf(n: Node): Fate { FateFrom(n.dropped, n.shuttingDown) }

  /** The handshake has gone as far as the chunks read make it go. */
  predicate Tracked(n: Node, chunks: seq<Bytes>) {
    var g := GreetChunks(chunks);
    n.inb.received == Concat(chunks)
    && (n.inb.ready <==> g.verdict.Complete?)
    && (g.verdict.Waiting? ==> g == Greeting(Waiting, n.inLen, n.readBuffer))
  }

  /**
   A connection goes on reading unless a read has failed or the peer has offended; before it is ready
   exactly one operation is under way, unless one has failed.
   */
  predicate GoesOn(n: Node, offended: bool) {
    (n.shuttingDown ==> n.outb.greeted)
    && (n.inb.ready ==> |n.ops.reading| == if n.inb.readFailed || offended then 0 else 1)
    && (!n.inb.ready ==>
          UnderWay(n) == if n.outb.writeFailed || n.inb.readFailed || offended || (n.dropped && !n.outb.greeted) then 0 else 1)
  }

  predicate Owes(n: Node, sent: seq<Bytes>, fate: Fate, chunks: seq<Bytes>, offended: bool) {
    n.outb.accepted == sent && FateOf(n) == fate && Tracked(n, chunks) && GoesOn(n, offended)
  }

  predicate History(n: Node, events: seq<Event>) {
    Owes(n, Sent(events), FateAfter(events), Chunks(events), Offends(Chunks(events)))
  }

  lemma Beginning(payload: Bytes)
    ensures History(Running(payload), [])
  {
  }

  // ---------------------------------------------------------------- steps that read nothing

  /** Teardown changes nothing but the fate. */
  predicate Alike(n: Node, m: Node) {
    m.ops == n.ops && m.inb == n.inb && m.inLen == n.inLen && m.readBuffer == n.readBuffer
    && m.outb.accepted == n.outb.accepted && m.outb.greeted == n.outb.greeted && m.outb.writeFailed == n.outb.writeFailed
  }

  lemma TeardownAlike(n: Node, kind: ErrorKind)
    requires n.ends.socketOpen == !n.dropped
    ensures Alike(n, Abort(n)) && FateOf(Abort(n)) == Gone
    ensures Alike(n, Shutdown(n)) && FateOf(Shutdown(n)) == NextFate(FateOf(n), Graceful)
    ensures Alike(n, HandleError(n, kind)) && FateOf(HandleError(n, kind)) == NextFate(FateOf(n), FailureCause(kind))
    ensures Alike(n, OnShutdown(n)) && (FateOf(n) != Intact ==> FateOf(OnShutdown(n)) == Gone)
  {
  }

  lemma SendOwes(n: Node, sent: seq<Bytes>, fate: Fate, chunks: seq<Bytes>, offended: bool, message: Option<Bytes>)
    requires Inv(n) && Owes(n, sent, fate, chunks, offended)
    ensures Owes(Send(n, message), if message.Some? && fate == Intact then sent + [message.value] else sent, fate, chunks, offended)
  {
  }

  lemma TlsOwes(n: Node, sent: seq<Bytes>, fate: Fate, chunks: seq<Bytes>, offended: bool, ok: bool)
    requires Inv(n) && Owes(n, sent, fate, chunks, offended) && n.ops.tlsHandshakes > 0
    ensures Owes(OnTls(n, ok), sent, if ok then fate else Gone, chunks, offended)
  {
    TeardownAlike(n.(ops := n.ops.(tlsHandshakes := n.ops.tlsHandshakes - 1)), Other);
  }

  lemma TakenOwes(n: Node, sent: seq<Bytes>, fate: Fate, chunks: seq<Bytes>, offended: bool, i: nat, count: nat)
    requires Inv(n) && Owes(n, sent, fate, chunks, offended) && Enabled(n, Taken(i, count))
    ensures Owes(Transmit(n, i, count), sent, fate, chunks, offended)
  {
  }

  lemma WriteNextAlike(n: Node)
    ensures var m := WriteNext(n);
            m.ops.reading == n.ops.reading && m.inb == n.inb && m.inLen == n.inLen && m.readBuffer == n.readBuffer
            && m.outb.accepted == n.outb.accepted && FateOf(m) == FateOf(n)
  {
  }

  lemma WrittenOwes(n: Node, sent: seq<Bytes>, fate: Fate, chunks: seq<Bytes>, offended: bool, i: nat)
    requires Inv(n) && Owes(n, sent, fate, chunks, offended) && Enabled(n, WriteDone(i))
    ensures Owes(OnWritten(n, i), sent, fate, chunks, offended)
  {
    if n.ops.writing[i].HandshakeWrite? {
      GreetingWritten(n, i);
    } else {
      MessageWritten(n, i);
    }
  }

  lemma GreetingWritten(n: Node, i: nat)
    requires Inv(n) && Enabled(n, WriteDone(i)) && n.ops.writing[i].HandshakeWrite?
    ensures OnWritten(n, i) == n.(ops := n.ops.(writing := [], reading := [HandshakeRead]))
    ensures !n.inb.ready && UnderWay(n) == 1 && n.ops.reading == [] && n.ops.tlsHandshakes == 0
  {
    assert |n.ops.writing| == 1 && Without(n.ops.writing, i) == [];
    assert n.ops.reading == [] && [] + [HandshakeRead] == [HandshakeRead];
  }

  lemma MessageWritten(n: Node, i: nat)
    requires Inv(n) && Enabled(n, WriteDone(i)) && n.ops.writing[i].MessageWrite?
    ensures var m := OnWritten(n, i);
            n.inb.ready && m.ops.reading == n.ops.reading && m.inb == n.inb && m.inLen == n.inLen && m.readBuffer == n.readBuffer
            && m.outb.accepted == n.outb.accepted && m.outb.greeted == n.outb.greeted
            && m.dropped == n.dropped && m.shuttingDown == n.shuttingDown
  {
  }

  lemma WriteFailedOwes(n: Node, sent: seq<Bytes>, fate: Fate, chunks: seq<Bytes>, offended: bool, i: nat, kind: ErrorKind)
    requires Inv(n) && Owes(n, sent, fate, chunks, offended) && i < |n.ops.writing|
    ensures Owes(OnWriteFailed(n, i, kind), sent, NextFate(fate, FailureCause(kind)), chunks, offended)
  {
    assert Without(n.ops.writing, i) == [];
    var m := WriteEnded(n, i);
    TeardownAlike(m.(outb := m.outb.(writeFailed := true, lost := n.ops.writing[i].left)), kind);
  }

  lemma ReadFailedOwes(n: Node, sent: seq<Bytes>, fate: Fate, chunks: seq<Bytes>, offended: bool, i: nat, kind: ErrorKind)
    requires Inv(n) && Owes(n, sent, fate, chunks, offended) && i < |n.ops.reading|
    ensures Owes(OnReadFailed(n, i, kind), sent, NextFate(fate, FailureCause(kind)), chunks, offended)
  {
    assert Without(n.ops.reading, i) == [];
    var m := ReadEnded(n, i);
    TeardownAlike(m.(inb := m.inb.(readFailed := true)), kind);
  }

  lemma ShutdownOwes(n: Node, sent: seq<Bytes>, fate: Fate, chunks: seq<Bytes>, offended: bool)
    requires Inv(n) && Owes(n, sent, fate, chunks, offended) && n.ends.tlsShutdowns > 0
    ensures Owes(OnShutdown(n), sent, NextFate(fate, TlsClosed), chunks, offended)
  {
    TeardownAlike(n, Other);
  }

  // ---------------------------------------------------------------- reads

  /** The handshake over one chunk more, and what that makes of an offence. */
  lemma GreetNext(chunks: seq<Bytes>, chunk: Bytes)
    requires GreetChunks(chunks).verdict.Waiting?
    ensures var g := GreetChunks(chunks); var h := Greet(g.len, g.buffer + chunk); var all := chunks + [chunk];
            GreetChunks(all) == h && Concat(all) == Concat(chunks) + chunk
            && Offends(all) == h.verdict.Refused? && !Offends(chunks)
  {
    var all := chunks + [chunk];
    assert all[..|all| - 1] == chunks && all[|all| - 1] == chunk;
    HandshakeCompletesIff(all);
    HandshakeRefusedIff(all);
    HandshakeCompletesIff(chunks);
    HandshakeRefusedIff(chunks);
    if Greeted(all) {
      CompleteIsEmpty(chunks, chunk);
    }
  }

  /** The chunk that completes the handshake holds nothing after it. */
  lemma CompleteIsEmpty(chunks: seq<Bytes>, chunk: Bytes)
    requires GreetChunks(chunks).verdict.Waiting? && Greeted(chunks + [chunk])
    ensures Application(chunks + [chunk]) == []
  {
    var all := chunks + [chunk];
    assert all[..|chunks|] == chunks;
    var total := 4 + FromLittle(all[0]);
    EndsAtMore(chunks, chunk, total);
    if chunks != [] {
      HandshakeCompletesIff(chunks);
      GreetState(chunks);
    }
    GreetedLength(all);
  }

  lemma GreetingOwes(n: Node, sent: seq<Bytes>, fate: Fate, chunks: seq<Bytes>, chunk: Bytes)
    requires Inv(n) && Owes(n, sent, fate, chunks, Offends(chunks)) && n.ops.reading == [HandshakeRead] && chunk != []
    ensures var all := chunks + [chunk];
            Owes(OnRead(n, 0, chunk), sent, if Offends(all) then NextFate(fate, Graceful) else fate, all, Offends(all))
  {
    StillWaiting(n, chunks);
    GreetNext(chunks, chunk);
    GreetingStep(n, chunk);
  }

  /** While the handshake is being read, it is neither complete nor refused. */
  lemma StillWaiting(n: Node, chunks: seq<Bytes>)
    requires Inv(n) && Tracked(n, chunks) && GoesOn(n, Offends(chunks)) && n.ops.reading == [HandshakeRead]
    ensures GreetChunks(chunks) == Greeting(Waiting, n.inLen, n.readBuffer)
  {
    HandshakeCompletesIff(chunks);
    HandshakeRefusedIff(chunks);
  }

  /** What a chunk of the handshake does to what is owed. */
  lemma GreetingStep(n: Node, chunk: Bytes)
    requires Inv(n) && n.ops.reading == [HandshakeRead]
    ensures var g := Greet(n.inLen, n.readBuffer + chunk); var m := OnRead(n, 0, chunk);
            m.inb.received == n.inb.received + chunk && m.outb.accepted == n.outb.accepted
            && (m.inb.ready <==> g.verdict.Complete?) && m.inb.readFailed == n.inb.readFailed
            && m.outb.writeFailed == n.outb.writeFailed && m.outb.greeted == n.outb.greeted
            && FateOf(m) == (if g.verdict.Refused? then NextFate(FateOf(n), Graceful) else FateOf(n))
            && |m.ops.reading| == (if g.verdict.Refused? then 0 else 1)
            && (!m.inb.ready ==> UnderWay(m) == |m.ops.reading|)
            && (g.verdict.Waiting? ==> m.inLen == g.len && m.readBuffer == g.buffer)
  {
    assert Without(n.ops.reading, 0) == [];
    var g := Greet(n.inLen, n.readBuffer + chunk);
    var m := ReadEnded(n, 0).(inLen := g.len, readBuffer := g.buffer, inb := n.inb.(received := n.inb.received + chunk));
    TeardownAlike(m, Other);
    WriteNextAlike(m.(inb := m.inb.(ready := true), ops := m.ops.(reading := m.ops.reading + [MessageRead])));
  }

  /** While messages are being read, what has been delivered and what is held is what decoding gives. */
  lemma ReadyDecoded(n: Node, chunks: seq<Bytes>)
    requires Inv(n) && n.inb.ready && n.ops.reading != [] && Tracked(n, chunks)
    ensures Greeted(chunks) && Decode(0, Application(chunks), []) == Decoded(n.inb.delivered, n.inLen, n.readBuffer, false)
  {
    HandshakeCompletesIff(chunks);
    GreetedLength(chunks);
    FirstLength(chunks);
  }

  /** Past the handshake, an offence is a zero length met by the decoder. */
  lemma DecodeNext(chunks: seq<Bytes>, chunk: Bytes, d: Decoded)
    requires GreetChunks(chunks).verdict.Complete? && Greeted(chunks) && Decode(0, Application(chunks), []) == d && !d.bad
    ensures Offends(chunks + [chunk]) == Decode(d.len, d.buffer + chunk, d.messages).bad
  {
    StaysGreeted(chunks, chunk);
    DecodeInPieces(0, Application(chunks), chunk, []);
  }

  /** Chunks after the handshake add to what was read after it. */
  lemma StaysGreeted(chunks: seq<Bytes>, chunk: Bytes)
    requires GreetChunks(chunks).verdict.Complete?
    ensures var all := chunks + [chunk];
            GreetChunks(all) == GreetChunks(chunks) && Concat(all) == Concat(chunks) + chunk
            && Greeted(chunks) && Greeted(all) && Application(all) == Application(chunks) + chunk
  {
    var all := chunks + [chunk];
    assert all[..|all| - 1] == chunks && all[|all| - 1] == chunk;
    HandshakeCompletesIff(all);
    HandshakeCompletesIff(chunks);
    GreetedLength(chunks);
  }

  lemma FirstLength(chunks: seq<Bytes>)
    requires Opens(chunks)
    ensures |Concat(chunks)| >= 4 && FromLittle(Concat(chunks)) == FromLittle(chunks[0])
  {
    GreetState(chunks);
  }

  lemma MessagesOwes(n: Node, sent: seq<Bytes>, fate: Fate, chunks: seq<Bytes>, chunk: Bytes)
    requires Inv(n) && Owes(n, sent, fate, chunks, Offends(chunks)) && n.ops.reading == [MessageRead]
    ensures var all := chunks + [chunk];
            Owes(OnRead(n, 0, chunk), sent, if Offends(all) then NextFate(fate, Graceful) else fate, all, Offends(all))
  {
    ReadyDecoded(n, chunks);
    StaysGreeted(chunks, chunk);
    DecodeNext(chunks, chunk, Decoded(n.inb.delivered, n.inLen, n.readBuffer, false));
    MessagesStep(n, chunk);
  }

  lemma MessagesStep(n: Node, chunk: Bytes)
    requires Inv(n) && n.ops.reading == [MessageRead]
    ensures var bad := Decode(n.inLen, n.readBuffer + chunk, n.inb.delivered).bad; var m := OnRead(n, 0, chunk);
            m.inb.received == n.inb.received + chunk && m.outb.accepted == n.outb.accepted
            && m.inb.ready && m.inb.readFailed == n.inb.readFailed
            && FateOf(m) == (if bad then NextFate(FateOf(n), Graceful) else FateOf(n))
            && |m.ops.reading| == (if bad then 0 else 1)
  {
    assert Without(n.ops.reading, 0) == [];
    var d := Decode(n.inLen, n.readBuffer + chunk, n.inb.delivered);
    TeardownAlike(ReadEnded(n, 0).(inLen := d.len, readBuffer := d.buffer,
                                   inb := n.inb.(received := n.inb.received + chunk, delivered := d.messages)), Other);
  }

  lemma ReadOwes(n: Node, sent: seq<Bytes>, fate: Fate, chunks: seq<Bytes>, i: nat, chunk: Bytes)
    requires Inv(n) && Owes(n, sent, fate, chunks, Offends(chunks)) && Enabled(n, ReadDone(i, chunk))
    ensures var all := chunks + [chunk];
            Owes(OnRead(n, i, chunk), sent, if Offends(all) then NextFate(fate, Graceful) else fate, all, Offends(all))
  {
    if n.ops.reading[i].HandshakeRead? {
      assert n.ops.reading == [HandshakeRead];
      GreetingOwes(n, sent, fate, chunks, chunk);
    } else {
      assert n.ops.reading == [MessageRead];
      MessagesOwes(n, sent, fate, chunks, chunk);
    }
  }

  /** The messages sent, when one event more has happened. */
  function SentAfter(sent: seq<Bytes>, fate: Fate, e: Event): seq<Bytes> {
    if e.SendMessage? && e.message.Some? && fate == Intact then sent + [e.message.value] else sent
  }

  lemma WriterOwes(n: Node, sent: seq<Bytes>, fate: Fate, chunks: seq<Bytes>, offended: bool, e: Event)
    requires Inv(n) && Owes(n, sent, fate, chunks, offended) && Enabled(n, e)
    requires e.SendMessage? || e.Taken? || e.WriteDone? || e.WriteFailed?
    ensures Owes(Apply(n, e), SentAfter(sent, fate, e), NextFate(fate, CauseOf(chunks, e)), chunks, offended)
  {
    if e.SendMessage? {
      SendOwes(n, sent, fate, chunks, offended, e.message);
    } else if e.Taken? {
      TakenOwes(n, sent, fate, chunks, offended, e.i, e.count);
    } else if e.WriteDone? {
      WrittenOwes(n, sent, fate, chunks, offended, e.i);
    } else {
      WriteFailedOwes(n, sent, fate, chunks, offended, e.i, e.kind);
    }
  }

  lemma OtherOwes(n: Node, sent: seq<Bytes>, fate: Fate, chunks: seq<Bytes>, offended: bool, e: Event)
    requires Inv(n) && Owes(n, sent, fate, chunks, offended) && Enabled(n, e)
    requires e.TlsDone? || e.ReadFailed? || e.ShutdownDone?
    ensures Owes(Apply(n, e), SentAfter(sent, fate, e), NextFate(fate, CauseOf(chunks, e)), chunks, offended)
  {
    if e.TlsDone? {
      TlsOwes(n, sent, fate, chunks, offended, e.ok);
    } else if e.ReadFailed? {
      ReadFailedOwes(n, sent, fate, chunks, offended, e.i, e.kind);
    } else {
      ShutdownOwes(n, sent, fate, chunks, offended);
    }
  }

  /** Every step is what its event makes it. */
  lemma StepHistory(n: Node, events: seq<Event>, e: Event)
    requires Inv(n) && History(n, events) && Enabled(n, e)
    ensures History(Apply(n, e), events + [e])
  {
    OneMore(events, e);
    if e.ReadDone? {
      ReadOwes(n, Sent(events), FateAfter(events), Chunks(events), e.i, e.chunk);
    } else if e.TlsDone? || e.ReadFailed? || e.ShutdownDone? {
      OtherOwes(n, Sent(events), FateAfter(events), Chunks(events), Offends(Chunks(events)), e);
    } else {
      WriterOwes(n, Sent(events), FateAfter(events), Chunks(events), Offends(Chunks(events)), e);
    }
  }
}
