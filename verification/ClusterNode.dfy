/**
 One end of a cluster link as a state machine. Each handler runs alone in its strand, so it is
 one step from state to state; the operations it has started and the history of the link are
 part of the state.
 */
module ClusterNode {
  import opened Common
  import opened ClusterFraming

  /** A started write, with the bytes it has not yet handed over. */
  datatype WriteOp = HandshakeWrite(left: Bytes) | MessageWrite(left: Bytes)

  datatype ReadOp = HandshakeRead | MessageRead

  /** The outstanding operations. */
  datatype Operations = Operations(tlsHandshakes: nat, writing: seq<WriteOp>, reading: seq<ReadOp>)

  /** The history of what this end sends. */
  datatype Outbound = Outbound(
    greeted: bool,          // the handshake write has been started
    writeFailed: bool,
    lost: Bytes,            // what a failed write did not hand over
    accepted: seq<Bytes>,   // messages the strand has taken for sending
    started: seq<Bytes>,    // messages whose frame has been started
    discarded: seq<Bytes>,  // messages cleared from the queue
    wire: Bytes)            // bytes handed over to the link

  /** The history of what this end receives. */
  datatype Inbound = Inbound(
    ready: bool,            // the handshake is complete
    readFailed: bool,
    received: Bytes,        // bytes read from the link
    delivered: seq<Bytes>)  // messages handed to process_message

  datatype Node = Node(
    dropped: bool,
    shuttingDown: bool,
    isWriting: bool,
    queue: seq<Bytes>,
    inLen: nat,
    readBuffer: Bytes,
    payload: Bytes,         // the handshake this end sends
    ops: Operations,
    outb: Outbound,
    inb: Inbound,
    ends: Ends)

  const READ_CHUNK: nat := 16 * 1024

  // ---------------------------------------------------------------- teardown

  function Cleared(n: Node): Node {
    n.(queue := [], outb := n.outb.(discarded := n.outb.discarded + n.queue))
  }

  function CloseSocket(n: Node): Node {
    n.(dropped := true, ends := n.ends.(socketOpen := false, closeCalls := n.ends.closeCalls + 1))
  }

  function Abort(n: Node): Node {
    if n.dropped then n else CloseSocket(Cleared(n))
  }

  function Shutdown(n: Node): Node {
    if n.dropped || n.shuttingDown then n
    else if !n.ends.socketOpen then Cleared(n)
    else
      var c := Cleared(n);
      c.(shuttingDown := true,
         ends := c.ends.(tlsShutdowns := c.ends.tlsShutdowns + 1, shutdownCalls := c.ends.shutdownCalls + 1))
  }

  function OnShutdown(n: Node): Node {
    var m := n.(ends := n.ends.(tlsShutdowns := if n.ends.tlsShutdowns > 0 then n.ends.tlsShutdowns - 1 else 0));
    if m.dropped then m else CloseSocket(m)
  }

  function HandleError(n: Node, kind: ErrorKind): Node {
    if n.dropped || kind.Canceled? then n
    else if kind.Reset? then Abort(n)
    else Shutdown(n)
  }

  // ---------------------------------------------------------------- sending

  function DoWrite(n: Node, m: Bytes): Node {
    n.(outb := n.outb.(started := n.outb.started + [m]), ops := n.ops.(writing := n.ops.writing + [MessageWrite(Frame(m))]))
  }

  /** The task `send_message` posts to the strand; an empty message is not posted. */
  function Send(n: Node, message: Option<Bytes>): Node {
    if message.None? || n.dropped || n.shuttingDown then n
    else
      var m := n.(outb := n.outb.(accepted := n.outb.accepted + [message.value]));
      if !m.isWriting then DoWrite(m.(isWriting := true), message.value)
      else m.(queue := m.queue + [message.value])
  }

  /** The next queued message is started, or the writer goes idle. */
  function WriteNext(n: Node): Node {
    if n.queue == [] then n.(isWriting := false)
    else DoWrite(n.(queue := n.queue[1..]), n.queue[0])
  }

  function WriteEnded(n: Node, i: nat): Node
    requires i < |n.ops.writing|
  {
    n.(ops := n.ops.(writing := Without(n.ops.writing, i)))
  }

  function OnWritten(n: Node, i: nat): Node
    requires i < |n.ops.writing|
  {
    var m := WriteEnded(n, i);
    if n.ops.writing[i].HandshakeWrite? then m.(ops := m.ops.(reading := m.ops.reading + [HandshakeRead]))
    else WriteNext(m)
  }

  function OnWriteFailed(n: Node, i: nat, kind: ErrorKind): Node
    requires i < |n.ops.writing|
  {
    var m := WriteEnded(n, i);
    HandleError(m.(outb := m.outb.(writeFailed := true, lost := n.ops.writing[i].left)), kind)
  }

  /** The link takes the next bytes of an outstanding write. */
  function Transmit(n: Node, i: nat, count: nat): Node
    requires i < |n.ops.writing| && count <= |n.ops.writing[i].left|
  {
    var w := n.ops.writing[i];
    n.(ops := n.ops.(writing := n.ops.writing[i := w.(left := w.left[count..])]),
       outb := n.outb.(wire := n.outb.wire + w.left[..count]))
  }

  // ---------------------------------------------------------------- handshake

  function OnTls(n: Node, ok: bool): Node {
    var m := n.(ops := n.ops.(tlsHandshakes := if n.ops.tlsHandshakes > 0 then n.ops.tlsHandshakes - 1 else 0));
    if !ok then Abort(m)
    else m.(outb := m.outb.(greeted := true), ops := m.ops.(writing := m.ops.writing + [HandshakeWrite(Frame(m.payload))]))
  }

  datatype Verdict = Refused | Waiting | Complete

  /** What one chunk does to a handshake being read. */
  datatype Greeting = Greeting(verdict: Verdict, len: nat, buffer: Bytes)

  function Greet(len: nat, data: Bytes): Greeting {
    if len == 0 && |data| < 4 then Greeting(Refused, 0, data)
    else
      var want := if len == 0 then FromLittle(data) else len;
      var rest := if len == 0 then data[4..] else data;
      if want == 0 then Greeting(Refused, 0, rest)
      else if |rest| < want then Greeting(Waiting, want, rest)
      else if |rest| > want then Greeting(Refused, want, rest)
      else Greeting(Complete, 0, [])
  }

  function ReadEnded(n: Node, i: nat): Node
    requires i < |n.ops.reading|
  {
    n.(ops := n.ops.(reading := Without(n.ops.reading, i)))
  }

  function OnGreeting(n: Node, chunk: Bytes): Node {
    var g := Greet(n.inLen, n.readBuffer + chunk);
    var m := n.(inLen := g.len, readBuffer := g.buffer, inb := n.inb.(received := n.inb.received + chunk));
    match g.verdict
    case Refused => Shutdown(m)
    case Waiting => m.(ops := m.ops.(reading := m.ops.reading + [HandshakeRead]))
    case Complete => WriteNext(m.(inb := m.inb.(ready := true), ops := m.ops.(reading := m.ops.reading + [MessageRead])))
  }

  // ---------------------------------------------------------------- receiving

  function OnMessages(n: Node, chunk: Bytes): Node {
    var d := Decode(n.inLen, n.readBuffer + chunk, n.inb.delivered);
    var m := n.(inLen := d.len, readBuffer := d.buffer,
                inb := n.inb.(received := n.inb.received + chunk, delivered := d.messages));
    if d.bad then Shutdown(m) else m.(ops := m.ops.(reading := m.ops.reading + [MessageRead]))
  }

  function OnRead(n: Node, i: nat, chunk: Bytes): Node
    requires i < |n.ops.reading|
  {
    var m := ReadEnded(n, i);
    if n.ops.reading[i].HandshakeRead? then OnGreeting(m, chunk) else OnMessages(m, chunk)
  }

  function OnReadFailed(n: Node, i: nat, kind: ErrorKind): Node
    requires i < |n.ops.reading|
  {
    var m := ReadEnded(n, i);
    HandleError(m.(inb := m.inb.(readFailed := true)), kind)
  }

  // ---------------------------------------------------------------- steps

  datatype Event =
    | SendMessage(message: Option<Bytes>)
    | TlsDone(ok: bool)
    | Taken(i: nat, count: nat)
    | WriteDone(i: nat)
    | WriteFailed(i: nat, kind: ErrorKind)
    | ReadDone(i: nat, chunk: Bytes)
    | ReadFailed(i: nat, kind: ErrorKind)
    | ShutdownDone

  /** A handler runs only for an operation that is outstanding; sends come at any time. */
  predicate Enabled(n: Node, e: Event) {
    match e
    case SendMessage(_) => true
    case TlsDone(_) => n.ops.tlsHandshakes > 0
    case Taken(i, count) => i < |n.ops.writing| && 0 < count <= |n.ops.writing[i].left|
    case WriteDone(i) => i < |n.ops.writing| && n.ops.writing[i].left == []
    case WriteFailed(i, _) => i < |n.ops.writing|
    case ReadDone(i, chunk) => i < |n.ops.reading| && 0 < |chunk| <= READ_CHUNK
    case ReadFailed(i, _) => i < |n.ops.reading|
    case ShutdownDone => n.ends.tlsShutdowns > 0
  }

  function Apply(n: Node, e: Event): Node
    requires Enabled(n, e)
  {
    match e
    case SendMessage(m) => Send(n, m)
    case TlsDone(ok) => OnTls(n, ok)
    case Taken(i, count) => Transmit(n, i, count)
    case WriteDone(i) => OnWritten(n, i)
    case WriteFailed(i, kind) => OnWriteFailed(n, i, kind)
    case ReadDone(i, chunk) => OnRead(n, i, chunk)
    case ReadFailed(i, kind) => OnReadFailed(n, i, kind)
    case ShutdownDone => OnShutdown(n)
  }

  /** After `run` on an open socket: messages are queued until the handshake is done. */
  function Running(payload: Bytes): Node {
    Node(false, false, true, [], 0, [], payload, Operations(1, [], []),
         Outbound(false, false, [], [], [], [], []), Inbound(false, false, [], []), Ends(true, 0, 0, 0))
  }

  /** A new connection, before `run`. */
  function Created(payload: Bytes, socketOpen: bool): Node {
    Node(false, false, false, [], 0, [], payload, Operations(0, [], []),
         Outbound(false, false, [], [], [], [], []), Inbound(false, false, [], []), Ends(socketOpen, 0, 0, 0))
  }

  // ---------------------------------------------------------------- the invariant

  predicate EndsSafely(n: Node) {
    TeardownSafe(n.ends, n.dropped, n.shuttingDown, |n.queue|)
  }

  /** The bytes of started frames that the link has not taken. */
  function Unsent(n: Node): Bytes {
    if n.ops.writing == [] then n.outb.lost else n.ops.writing[0].left
  }

  function Stream(greeted: bool, payload: Bytes, started: seq<Bytes>): Bytes {
    (if greeted then Frame(payload) else []) + Wire(started)
  }

  /** All the bytes this end has begun to write. */
  function Begun(n: Node): Bytes {
    Stream(n.outb.greeted, n.payload, n.outb.started)
  }

  /** One writer at a time, and nothing after a failed write. */
  predicate SingleWriter(n: Node) {
    |n.ops.writing| <= 1
    && n.outb.wire + Unsent(n) == Begun(n)
    && (n.outb.writeFailed ==> n.ops.writing == [] && n.isWriting && n.outb.greeted)
    && (!n.outb.writeFailed ==> n.outb.lost == [])
    && (n.outb.started != [] ==> n.inb.ready)
    && (n.inb.ready ==> n.outb.greeted)
    && (n.ops.writing != [] ==> n.outb.greeted && (n.ops.writing[0].MessageWrite? <==> n.inb.ready))
    && (!n.isWriting ==> n.queue == [] && n.ops.writing == [] && n.inb.ready)
    && (n.inb.ready && n.isWriting ==> n.ops.writing != [] || n.outb.writeFailed)
  }

  predicate Accounted(n: Node) {
    n.outb.accepted == n.outb.started + n.queue + n.outb.discarded
    && (n.outb.discarded != [] ==> n.dropped || n.shuttingDown)
  }

  /** The handshake goes through its operations one at a time. */
  predicate Ordered(n: Node) {
    n.ops.tlsHandshakes <= 1 && |n.ops.reading| <= 1
    && (n.ops.tlsHandshakes == 1 ==> !n.outb.greeted)
    && (!n.outb.greeted ==> n.ops.reading == [] && (n.ops.tlsHandshakes == 1 || n.dropped))
    && (n.ops.reading != [] ==> (n.ops.reading[0].MessageRead? <==> n.inb.ready))
    && (!n.inb.ready && (n.ops.writing != [] || n.outb.writeFailed) ==> n.ops.reading == [])
    && (!n.inb.ready ==> n.isWriting && n.inb.delivered == [])
  }

  function UnderWay(n: Node): nat { n.ops.tlsHandshakes + |n.ops.writing| + |n.ops.reading| }

  /** A write or a read of the handshake that has failed was the last operation. */
  predicate Halted(n: Node) {
    !n.inb.ready && (n.outb.writeFailed || n.inb.readFailed) ==> UnderWay(n) == 0
  }

  /** Until it is ready, a link that nothing has gone wrong with has exactly one operation under way. */
  predicate Alive(n: Node) {
    n.inb.ready || n.dropped || n.shuttingDown || n.outb.writeFailed || n.inb.readFailed || UnderWay(n) == 1
  }

  predicate GreetingHeld(received: Bytes, len: nat, buffer: Bytes) {
    if received == [] then len == 0 && buffer == []
    else |received| >= 4 && 0 < len == FromLittle(received) && buffer == received[4..] && |buffer| < len
  }

  /** Where the application bytes start in what has been received. */
  function GreetingEnd(received: Bytes): nat
    requires |received| >= 4
  {
    4 + FromLittle(received)
  }

  /**
   What has been delivered, and what is held back, is what decoding the received bytes gives.
   Before the handshake is complete, `early` says that nothing can have been read yet; `idle`
   says that no read is outstanding.
   */
  predicate Reassembled(ready: bool, early: bool, idle: bool, r: Bytes, len: nat, buffer: Bytes, delivered: seq<Bytes>) {
    if !ready then
      (early ==> r == [] && len == 0 && buffer == []) && (!idle ==> GreetingHeld(r, len, buffer))
    else
      |r| >= 4 && 4 < GreetingEnd(r) <= |r|
      && var d := Decode(0, r[GreetingEnd(r)..], []);
         delivered == d.messages && (d.bad ==> idle) && (!d.bad ==> len == d.len && buffer == d.buffer)
  }

  predicate Received(n: Node) {
    Reassembled(n.inb.ready, !n.outb.greeted || n.ops.writing != [], n.ops.reading == [],
                n.inb.received, n.inLen, n.readBuffer, n.inb.delivered)
  }

  predicate Safe(n: Node) {
    EndsSafely(n) && SingleWriter(n) && Accounted(n) && Ordered(n) && Halted(n) && Received(n)
  }

  predicate Inv(n: Node) { Safe(n) && Alive(n) }

  lemma RunningInv(payload: Bytes)
    ensures Inv(Running(payload))
  {
  }

  // ---------------------------------------------------------------- every step keeps it

  /** Clearing the queue discards what was accepted and not started. */
  lemma ClearedAccounted(started: seq<Bytes>, queue: seq<Bytes>)
    ensures started + queue + [] == started + [] + ([] + queue)
  {
  }

  lemma AbortInv(n: Node)
    requires Safe(n)
    ensures Inv(Abort(n)) && Abort(n).dropped
  {
    ClearedAccounted(n.outb.started, n.queue);
    assert !n.dropped ==> Received(Abort(n)) && SingleWriter(Abort(n));
  }

  lemma ShutdownInv(n: Node)
    requires Safe(n)
    ensures Inv(Shutdown(n))
  {
    ClearedAccounted(n.outb.started, n.queue);
    assert Received(Shutdown(n)) && SingleWriter(Shutdown(n));
  }

  lemma OnShutdownInv(n: Node)
    requires Inv(n) && n.ends.tlsShutdowns > 0
    ensures Inv(OnShutdown(n))
  {
  }

  lemma HandleErrorInv(n: Node, kind: ErrorKind)
    requires Inv(n)
    ensures Inv(HandleError(n, kind))
  {
    AbortInv(n);
    ShutdownInv(n);
  }

  lemma DoWriteWire(n: Node, m: Bytes)
    requires n.ops.writing == [] && n.outb.lost == [] && n.outb.wire == Begun(n)
    ensures DoWrite(n, m).outb.wire + Unsent(DoWrite(n, m)) == Begun(DoWrite(n, m))
  {
    WireMore(n.outb.started, m);
  }

  lemma SendIdleInv(n: Node, m: Bytes)
    requires Inv(n) && !n.dropped && !n.shuttingDown && !n.isWriting
    ensures Inv(DoWrite(n.(isWriting := true, outb := n.outb.(accepted := n.outb.accepted + [m])), m))
  {
    assert n.outb.wire + [] == n.outb.wire;
    DoWriteWire(n, m);
    assert n.outb.started + [] + [] == n.outb.started;
    assert n.outb.started + [m] + [] + [] == n.outb.started + [m];
  }

  lemma SendQueuedInv(n: Node, m: Bytes)
    requires Inv(n) && !n.dropped && !n.shuttingDown && n.isWriting
    ensures Inv(n.(queue := n.queue + [m], outb := n.outb.(accepted := n.outb.accepted + [m])))
  {
    assert n.outb.started + n.queue + [] + [m] == n.outb.started + (n.queue + [m]) + [];
  }

  lemma SendInv(n: Node, message: Option<Bytes>)
    requires Inv(n)
    ensures Inv(Send(n, message))
  {
    if message.Some? && !n.dropped && !n.shuttingDown {
      if n.isWriting {
        SendQueuedInv(n, message.value);
      } else {
        SendIdleInv(n, message.value);
      }
    }
  }

  /** Ready to go on writing: the last write is complete, and all it had to hand over is on the wire. */
  predicate Between(n: Node) {
    EndsSafely(n) && Accounted(n) && Ordered(n) && Received(n)
    && n.inb.ready && n.outb.greeted && n.isWriting && n.ops.writing == []
    && !n.outb.writeFailed && n.outb.lost == [] && n.outb.wire == Begun(n)
  }

  lemma WriteIdleInv(n: Node)
    requires Between(n) && n.queue == []
    ensures Inv(n.(isWriting := false))
  {
    assert n.outb.wire + [] == n.outb.wire;
  }

  lemma WriteQueuedInv(n: Node)
    requires Between(n) && n.queue != []
    ensures Inv(DoWrite(n.(queue := n.queue[1..]), n.queue[0]))
  {
    DoWriteWire(n, n.queue[0]);
    assert n.outb.started + n.queue == n.outb.started + [n.queue[0]] + n.queue[1..];
  }

  /** The step shared by a completed handshake and a completed write. */
  lemma WriteNextInv(n: Node)
    requires Between(n)
    ensures Inv(WriteNext(n))
  {
    if n.queue == [] {
      WriteIdleInv(n);
    } else {
      WriteQueuedInv(n);
    }
  }

  lemma OnWrittenInv(n: Node, i: nat)
    requires Inv(n) && i < |n.ops.writing| && n.ops.writing[i].left == []
    ensures Inv(OnWritten(n, i))
  {
    assert n.outb.wire + [] == n.outb.wire;
    assert Without(n.ops.writing, i) == [];
    if n.ops.writing[i].MessageWrite? {
      WriteNextInv(WriteEnded(n, i));
    }
  }

  lemma OnWriteFailedInv(n: Node, i: nat, kind: ErrorKind)
    requires Inv(n) && i < |n.ops.writing|
    ensures Inv(OnWriteFailed(n, i, kind))
  {
    assert Without(n.ops.writing, i) == [];
    var m := WriteEnded(n, i);
    HandleErrorInv(m.(outb := m.outb.(writeFailed := true, lost := n.ops.writing[i].left)), kind);
  }

  lemma TakenFrom(wire: Bytes, left: Bytes, count: nat)
    requires count <= |left|
    ensures wire + left == wire + left[..count] + left[count..]
  {
  }

  lemma TransmitInv(n: Node, i: nat, count: nat)
    requires Inv(n) && i < |n.ops.writing| && count <= |n.ops.writing[i].left|
    ensures Inv(Transmit(n, i, count))
  {
    TakenFrom(n.outb.wire, n.ops.writing[i].left, count);
    var m := Transmit(n, i, count);
    assert m.outb.wire + Unsent(m) == Begun(m) == Begun(n);
  }

  lemma OnTlsInv(n: Node, ok: bool)
    requires Inv(n) && n.ops.tlsHandshakes > 0
    ensures Inv(OnTls(n, ok))
  {
    assert Wire([]) == [];
    assert Frame(n.payload) + [] == Frame(n.payload) == [] + Frame(n.payload);
  }

  lemma GreetHeld(received: Bytes, len: nat, buffer: Bytes, chunk: Bytes)
    requires GreetingHeld(received, len, buffer) && chunk != []
    ensures var g := Greet(len, buffer + chunk); var all := received + chunk;
            (g.verdict.Waiting? ==> GreetingHeld(all, g.len, g.buffer))
            && (g.verdict.Complete? ==> Reassembled(true, false, false, all, 0, [], []))
  {
    var all := received + chunk;
    if received == [] {
      assert buffer + chunk == chunk == all;
    } else {
      assert all[4..] == buffer + chunk;
    }
    if |all| >= 4 && |all| == GreetingEnd(all) {
      assert all[GreetingEnd(all)..] == [];
    }
  }

  lemma GreetingRefusedInv(n: Node, chunk: Bytes)
    requires Inv(n) && n.ops.reading == [HandshakeRead] && Greet(n.inLen, n.readBuffer + chunk).verdict.Refused?
    ensures Inv(OnRead(n, 0, chunk))
  {
    var g := Greet(n.inLen, n.readBuffer + chunk);
    assert Without(n.ops.reading, 0) == [];
    ShutdownInv(ReadEnded(n, 0).(inLen := g.len, readBuffer := g.buffer, inb := n.inb.(received := n.inb.received + chunk)));
  }

  lemma GreetingWaitingInv(n: Node, chunk: Bytes)
    requires Inv(n) && n.ops.reading == [HandshakeRead] && Greet(n.inLen, n.readBuffer + chunk).verdict.Waiting?
    requires chunk != []
    ensures Inv(OnRead(n, 0, chunk))
  {
    GreetHeld(n.inb.received, n.inLen, n.readBuffer, chunk);
    assert Without(n.ops.reading, 0) == [];
  }

  /** The handshake is complete: reading of messages starts, and so does writing. */
  lemma BecomeReady(n: Node, received: Bytes)
    requires Inv(n) && n.ops.reading == [HandshakeRead] && Reassembled(true, false, false, received, 0, [], [])
    ensures Between(Readied(n, received))
  {
    assert n.outb.wire + [] == n.outb.wire;
  }

  function Readied(n: Node, received: Bytes): Node {
    n.(inLen := 0, readBuffer := [], inb := n.inb.(received := received, ready := true),
       ops := n.ops.(reading := [MessageRead]))
  }

  lemma GreetingCompleteStep(n: Node, chunk: Bytes)
    requires n.ops.reading == [HandshakeRead] && Greet(n.inLen, n.readBuffer + chunk).verdict.Complete?
    ensures OnRead(n, 0, chunk) == WriteNext(Readied(n, n.inb.received + chunk))
  {
    assert Without(n.ops.reading, 0) == [] && [] + [MessageRead] == [MessageRead];
  }

  lemma GreetingCompleteInv(n: Node, chunk: Bytes)
    requires Inv(n) && n.ops.reading == [HandshakeRead] && Greet(n.inLen, n.readBuffer + chunk).verdict.Complete?
    requires chunk != []
    ensures Inv(OnRead(n, 0, chunk))
  {
    GreetHeld(n.inb.received, n.inLen, n.readBuffer, chunk);
    GreetingCompleteStep(n, chunk);
    BecomeReady(n, n.inb.received + chunk);
    WriteNextInv(Readied(n, n.inb.received + chunk));
  }

  lemma OnGreetingInv(n: Node, i: nat, chunk: Bytes)
    requires Inv(n) && i < |n.ops.reading| && n.ops.reading[i].HandshakeRead? && chunk != []
    ensures Inv(OnRead(n, i, chunk))
  {
    assert i == 0 && n.ops.reading == [HandshakeRead];
    var verdict := Greet(n.inLen, n.readBuffer + chunk).verdict;
    if verdict.Refused? {
      GreetingRefusedInv(n, chunk);
    } else if verdict.Waiting? {
      GreetingWaitingInv(n, chunk);
    } else {
      GreetingCompleteInv(n, chunk);
    }
  }

  lemma MessagesReassembled(r: Bytes, len: nat, buffer: Bytes, delivered: seq<Bytes>, chunk: Bytes)
    requires Reassembled(true, false, false, r, len, buffer, delivered)
    ensures var d := Decode(len, buffer + chunk, delivered);
            Reassembled(true, false, d.bad, r + chunk, d.len, d.buffer, d.messages)
  {
    var end := GreetingEnd(r);
    assert GreetingEnd(r + chunk) == end && (r + chunk)[end..] == r[end..] + chunk;
    DecodeInPieces(0, r[end..], chunk, []);
  }

  lemma MessagesEndInv(n: Node, len: nat, buffer: Bytes, received: Bytes, delivered: seq<Bytes>, bad: bool)
    requires Inv(n) && n.inb.ready && n.ops.reading == [MessageRead]
    requires Reassembled(true, false, bad, received, len, buffer, delivered)
    ensures var m := n.(inLen := len, readBuffer := buffer, ops := n.ops.(reading := []),
                        inb := n.inb.(received := received, delivered := delivered));
            if bad then Inv(Shutdown(m)) else Inv(m.(ops := m.ops.(reading := [MessageRead])))
  {
    if bad {
      ShutdownInv(n.(inLen := len, readBuffer := buffer, ops := n.ops.(reading := []),
                     inb := n.inb.(received := received, delivered := delivered)));
    }
  }

  lemma MessagesInv(n: Node, chunk: Bytes)
    requires Inv(n) && n.ops.reading == [MessageRead] && n.inb.ready
    ensures Inv(OnMessages(n.(ops := n.ops.(reading := [])), chunk))
  {
    MessagesReassembled(n.inb.received, n.inLen, n.readBuffer, n.inb.delivered, chunk);
    var d := Decode(n.inLen, n.readBuffer + chunk, n.inb.delivered);
    MessagesEndInv(n, d.len, d.buffer, n.inb.received + chunk, d.messages, d.bad);
    assert [] + [MessageRead] == [MessageRead];
  }

  lemma OnMessagesInv(n: Node, i: nat, chunk: Bytes)
    requires Inv(n) && i < |n.ops.reading| && n.ops.reading[i].MessageRead?
    ensures Inv(OnRead(n, i, chunk))
  {
    assert n.ops.reading == [MessageRead] && Without(n.ops.reading, i) == [];
    MessagesInv(n, chunk);
  }

  lemma OnReadFailedInv(n: Node, i: nat, kind: ErrorKind)
    requires Inv(n) && i < |n.ops.reading|
    ensures Inv(OnReadFailed(n, i, kind))
  {
    assert Without(n.ops.reading, i) == [];
    var m := ReadEnded(n, i);
    HandleErrorInv(m.(inb := m.inb.(readFailed := true)), kind);
  }

  /** No step of a link, in whatever order they come, breaks the invariant. */
  lemma StepInv(n: Node, e: Event)
    requires Inv(n) && Enabled(n, e)
    ensures Inv(Apply(n, e))
  {
    match e
    case SendMessage(m) => SendInv(n, m);
    case TlsDone(ok) => OnTlsInv(n, ok);
    case Taken(i, count) => TransmitInv(n, i, count);
    case WriteDone(i) => OnWrittenInv(n, i);
    case WriteFailed(i, kind) => OnWriteFailedInv(n, i, kind);
    case ReadDone(i, chunk) =>
      if n.ops.reading[i].HandshakeRead? {
        OnGreetingInv(n, i, chunk);
      } else {
        OnMessagesInv(n, i, chunk);
      }
    case ReadFailed(i, kind) => OnReadFailedInv(n, i, kind);
    case ShutdownDone => OnShutdownInv(n);
  }
}
