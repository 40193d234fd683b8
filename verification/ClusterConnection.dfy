/**
 The connection object: the fields the handlers update in place, proved to follow the state
 machine of one end of the link step by step.
 */
module ClusterConnections {
  import opened Common
  import opened ClusterFraming
  import opened MessageQueues
  import N = ClusterNode

  class ClusterConnection {
    var dropped: bool
    var shuttingDown: bool
    var isWriting: bool
    const messageQueue: MessageQueue
    var inMessageLen: nat
    var readBuffer: Bytes
    const payload: Bytes
    var socket: Ends

    /** The operations started and not yet completed, and the history of the link. */
    ghost var ops: N.Operations
    ghost var outb: N.Outbound
    ghost var inb: N.Inbound

    ghost predicate Valid()
      reads this, messageQueue
    {
      messageQueue.Valid()
    }

    ghost function View(): N.Node
      reads this, messageQueue
    {
      N.Node(dropped, shuttingDown, isWriting, messageQueue.Contents(), inMessageLen, readBuffer, payload,
             ops, outb, inb, socket)
    }

    constructor (payload: Bytes, socketOpen: bool)
      ensures Valid() && fresh(messageQueue)
      ensures View() == N.Created(payload, socketOpen)
    {
      dropped, shuttingDown, isWriting := false, false, false;
      messageQueue := new MessageQueue();
      inMessageLen, readBuffer := 0, [];
      this.payload := payload;
      socket := Ends(socketOpen, 0, 0, 0);
      ops := N.Operations(0, [], []);
      outb := N.Outbound(false, false, [], [], [], [], []);
      inb := N.Inbound(false, false, [], []);
    }

    /** Messages are queued from here on until the handshake is done. */
    method Run()
      requires Valid() && !isWriting && ops.tlsHandshakes == 0
      modifies this
      ensures Valid()
      ensures View() == if old(socket.socketOpen) then old(View()).(isWriting := true, ops := old(ops).(tlsHandshakes := 1))
                        else old(View())
      ensures old(View()) == N.Created(payload, true) ==> View() == N.Running(payload)
    {
      if !socket.socketOpen {
        return;
      }
      isWriting := true;
      ops := ops.(tlsHandshakes := 1);
    }

    // -------------------------------------------------------------- teardown

    method ClearQueue()
      requires Valid()
      modifies this`outb, messageQueue
      ensures Valid() && View() == N.Cleared(old(View()))
    {
      outb := outb.(discarded := outb.discarded + messageQueue.Contents());
      messageQueue.Clear();
    }

    method CloseSocket()
      requires Valid()
      modifies this`socket, this`dropped
      ensures Valid() && View() == N.CloseSocket(old(View()))
    {
      socket := socket.(socketOpen := false, closeCalls := socket.closeCalls + 1);
      dropped := true;
    }

    method Abort()
      requires Valid()
      modifies this, messageQueue
      ensures Valid() && View() == N.Abort(old(View()))
    {
      if dropped {
        return;
      }
      ClearQueue();
      CloseSocket();
    }

    method Shutdown()
      requires Valid()
      modifies this, messageQueue
      ensures Valid() && View() == N.Shutdown(old(View()))
    {
      if dropped || shuttingDown {
        return;
      }
      ClearQueue();
      if !socket.socketOpen {
        return;
      }
      socket := socket.(tlsShutdowns := socket.tlsShutdowns + 1, shutdownCalls := socket.shutdownCalls + 1);
      shuttingDown := true;
    }

    method OnShutdown()
      requires Valid() && socket.tlsShutdowns > 0
      modifies this
      ensures Valid() && View() == N.OnShutdown(old(View()))
    {
      socket := socket.(tlsShutdowns := socket.tlsShutdowns - 1);
      if dropped {
        return;
      }
      CloseSocket();
    }

    method HandleError(kind: ErrorKind)
      requires Valid()
      modifies this, messageQueue
      ensures Valid() && View() == N.HandleError(old(View()), kind)
    {
      if dropped {
        return;
      }
      if kind.Reset? {
        Abort();
        return;
      }
      if kind.Canceled? {
        return;
      }
      Shutdown();
    }

    // -------------------------------------------------------------- sending

    method DoWriteMessage(message: Bytes)
      requires Valid()
      modifies this`ops, this`outb
      ensures Valid() && View() == N.DoWrite(old(View()), message)
    {
      outb := outb.(started := outb.started + [message]);
      ops := ops.(writing := ops.writing + [N.MessageWrite(Frame(message))]);
    }

    method SendMessage(message: Option<Bytes>)
      requires Valid()
      modifies this, messageQueue
      ensures Valid() && View() == N.Send(old(View()), message)
    {
      if message.None? || dropped || shuttingDown {
        return;
      }
      outb := outb.(accepted := outb.accepted + [message.value]);
      if !isWriting {
        isWriting := true;
        DoWriteMessage(message.value);
      } else {
        messageQueue.Push(message.value);
      }
    }

    method WriteNext()
      requires Valid()
      modifies this, messageQueue
      ensures Valid() && View() == N.WriteNext(old(View()))
    {
      var found, message := messageQueue.TryPop();
      if found {
        assert old(messageQueue.Contents())[1..] == messageQueue.Contents();
        DoWriteMessage(message);
      } else {
        isWriting := false;
      }
    }

    method OnTlsHandshake(ok: bool)
      requires Valid() && ops.tlsHandshakes > 0
      modifies this, messageQueue
      ensures Valid() && View() == N.OnTls(old(View()), ok)
    {
      ops := ops.(tlsHandshakes := ops.tlsHandshakes - 1);
      if !ok {
        Abort();
        return;
      }
      outb := outb.(greeted := true);
      ops := ops.(writing := ops.writing + [N.HandshakeWrite(Frame(payload))]);
    }

    method OnHandshakeSent(ghost i: nat)
      requires Valid() && i < |ops.writing| && ops.writing[i].HandshakeWrite?
      modifies this
      ensures Valid() && View() == N.OnWritten(old(View()), i)
    {
      ops := ops.(writing := Without(ops.writing, i));
      ops := ops.(reading := ops.reading + [N.HandshakeRead]);
    }

    method OnWriteMessage(ghost i: nat)
      requires Valid() && i < |ops.writing| && ops.writing[i].MessageWrite?
      modifies this, messageQueue
      ensures Valid() && View() == N.OnWritten(old(View()), i)
    {
      ops := ops.(writing := Without(ops.writing, i));
      WriteNext();
    }

    method OnWriteFailed(ghost i: nat, kind: ErrorKind)
      requires Valid() && i < |ops.writing|
      modifies this, messageQueue
      ensures Valid() && View() == N.OnWriteFailed(old(View()), i, kind)
    {
      outb := outb.(writeFailed := true, lost := ops.writing[i].left);
      ops := ops.(writing := Without(ops.writing, i));
      HandleError(kind);
    }

    // -------------------------------------------------------------- receiving

    /** How far the handshake in the read buffer has come. */
    method ReadGreeting() returns (verdict: N.Verdict)
      modifies this`inMessageLen, this`readBuffer
      ensures N.Greeting(verdict, inMessageLen, readBuffer) == N.Greet(old(inMessageLen), old(readBuffer))
    {
      if inMessageLen == 0 {
        if |readBuffer| < 4 {
          return N.Refused;
        }
        inMessageLen := FromLittle(readBuffer);
        readBuffer := readBuffer[4..];
        if inMessageLen == 0 {
          return N.Refused;
        }
      }
      if |readBuffer| < inMessageLen {
        return N.Waiting;
      }
      if |readBuffer| > inMessageLen {
        return N.Refused;
      }
      readBuffer := [];
      inMessageLen := 0;
      return N.Complete;
    }

    method OnHandshake(ghost i: nat, chunk: Bytes)
      requires Valid() && i < |ops.reading| && ops.reading[i].HandshakeRead?
      modifies this, messageQueue
      ensures Valid() && View() == N.OnRead(old(View()), i, chunk)
    {
      ops := ops.(reading := Without(ops.reading, i));
      inb := inb.(received := inb.received + chunk);
      readBuffer := readBuffer + chunk;
      var verdict := ReadGreeting();
      if verdict.Refused? {
        Shutdown();
      } else if verdict.Waiting? {
        ops := ops.(reading := ops.reading + [N.HandshakeRead]);
      } else {
        inb := inb.(ready := true);
        ops := ops.(reading := ops.reading + [N.MessageRead]);
        WriteNext();
      }
    }

    method ProcessMessage(message: Bytes)
      modifies this`inb
      ensures inb == old(inb).(delivered := old(inb).delivered + [message])
    {
      inb := inb.(delivered := inb.delivered + [message]);
    }

    /**
     The data loop of `on_read`: every message that is complete is processed, and the rest is kept.
     The result tells whether a zero length was met.
     */
    method ReadMessages() returns (bad: bool)
      modifies this`inMessageLen, this`readBuffer, this`inb
      ensures var d := Decode(old(inMessageLen), old(readBuffer), old(inb).delivered);
              bad == d.bad && inMessageLen == d.len && readBuffer == d.buffer
              && inb == old(inb).(delivered := d.messages)
    {
      ghost var d := Decode(inMessageLen, readBuffer, inb.delivered);
      while true
        invariant Decode(inMessageLen, readBuffer, inb.delivered) == d
        invariant inb == old(inb).(delivered := inb.delivered)
        decreases |readBuffer|
      {
        if inMessageLen == 0 {
          if |readBuffer| < 4 {
            break;
          }
          inMessageLen := FromLittle(readBuffer);
          readBuffer := readBuffer[4..];
          if inMessageLen == 0 {
            return true;
          }
        }
        if |readBuffer| < inMessageLen {
          break;
        }
        var message := readBuffer[..inMessageLen];
        readBuffer := readBuffer[inMessageLen..];
        ProcessMessage(message);
        inMessageLen := 0;
      }
      bad := false;
    }

    method OnRead(ghost i: nat, chunk: Bytes)
      requires Valid() && i < |ops.reading| && ops.reading[i].MessageRead?
      modifies this, messageQueue
      ensures Valid() && View() == N.OnRead(old(View()), i, chunk)
    {
      ops := ops.(reading := Without(ops.reading, i));
      inb := inb.(received := inb.received + chunk);
      readBuffer := readBuffer + chunk;
      var bad := ReadMessages();
      if bad {
        Shutdown();
        return;
      }
      ops := ops.(reading := ops.reading + [N.MessageRead]);
    }

    method OnReadFailed(ghost i: nat, kind: ErrorKind)
      requires Valid() && i < |ops.reading|
      modifies this, messageQueue
      ensures Valid() && View() == N.OnReadFailed(old(View()), i, kind)
    {
      inb := inb.(readFailed := true);
      ops := ops.(reading := Without(ops.reading, i));
      HandleError(kind);
    }
  }
}
