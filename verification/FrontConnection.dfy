/** The front connection object, proved to follow the session state machine step by step. */
module FrontConnections {
  import opened Common
  import opened ClusterFraming
  import opened MessageQueues
  import L = FrontLimiter
  import S = FrontSession

  class WsConnection {
    const config: S.Config
    var dropped: bool
    var shuttingDown: bool
    var isWriting: bool
    const messageQueue: MessageQueue
    var rateLimitStart: int
    var rateLimitMessages: nat
    var rateLimitBytes: nat
    var socket: Ends

    /** The operations started and not yet completed, and the history of the connection. */
    ghost var trace: S.Trace
    ghost var intake: S.Intake

    ghost predicate Valid()
      reads this, messageQueue
    {
      messageQueue.Valid()
    }

    ghost function View(): S.Session
      reads this, messageQueue
    {
      S.Session(dropped, shuttingDown, isWriting, messageQueue.Contents(),
                L.Limiter(rateLimitStart, rateLimitMessages, rateLimitBytes), trace, intake, socket)
    }

    /** Construction and `run` on an open socket at time `now`. */
    constructor (config: S.Config, now: int)
      ensures Valid() && fresh(messageQueue) && this.config == config && View() == S.Opened(now)
    {
      this.config := config;
      dropped, shuttingDown, isWriting := false, false, false;
      messageQueue := new MessageQueue();
      rateLimitStart, rateLimitMessages, rateLimitBytes := now, 0, 0;
      socket := Ends(true, 0, 0, 0);
      trace := S.Trace([S.TlsHandshake], None, [], false, [], [], []);
      intake := S.Intake(now, [], [], false);
    }

    method ClearQueue()
      requires Valid()
      modifies this`trace, messageQueue
      ensures Valid() && View() == S.Cleared(old(View()))
    {
      trace := trace.(discarded := trace.discarded + messageQueue.Contents());
      messageQueue.Clear();
    }

    method CloseSocket()
      requires Valid()
      modifies this`socket, this`dropped
      ensures Valid() && View() == S.CloseSocket(old(View()))
    {
      socket := socket.(socketOpen := false, closeCalls := socket.closeCalls + 1);
      dropped := true;
    }

    method Abort()
      requires Valid()
      modifies this, messageQueue
      ensures Valid() && View() == S.Abort(old(View()))
    {
      if dropped {
        return;
      }
      ClearQueue();
      CloseSocket();
    }

    method Shutdown()
      requires Valid()
      modifies this, messageQueue
      ensures Valid() && View() == S.Shutdown(old(View()))
    {
      if dropped || shuttingDown {
        return;
      }
      ClearQueue();
      if !socket.socketOpen {
        return;
      }
      socket := socket.(tlsShutdowns := socket.tlsShutdowns + 1, shutdownCalls := socket.shutdownCalls + 1);
      shuttingDown := true;
    }

    method OnShutdown()
      requires Valid() && socket.tlsShutdowns > 0
      modifies this
      ensures Valid() && View() == S.OnShutdown(old(View()))
    {
      socket := socket.(tlsShutdowns := socket.tlsShutdowns - 1);
      if dropped {
        return;
      }
      CloseSocket();
    }

    method OnTimeout(canceled: bool)
      requires Valid()
      modifies this, messageQueue
      ensures Valid() && View() == S.OnTimeout(old(View()), canceled)
    {
      if dropped || canceled {
        return;
      }
      Abort();
    }

    method HandleError(kind: ErrorKind)
      requires Valid()
      modifies this, messageQueue
      ensures Valid() && View() == S.HandleError(old(View()), kind)
    {
      if dropped {
        return;
      }
      if kind.Reset? {
        Abort();
        return;
      }
      if kind.Canceled? {
        return;
      }
      Shutdown();
    }

    method DoWriteMessage(message: Bytes)
      requires Valid()
      modifies this`trace
      ensures Valid() && View() == S.DoWrite(old(View()), message)
    {
      trace := trace.(started := trace.started + [message], writing := trace.writing + [message]);
    }

    method SendMessage(message: Option<Bytes>)
      requires Valid()
      modifies this, messageQueue
      ensures Valid() && View() == S.Send(old(View()), message)
    {
      if message.None? || dropped || shuttingDown {
        return;
      }
      trace := trace.(accepted := trace.accepted + [message.value]);
      if !isWriting {
        isWriting := true;
        DoWriteMessage(message.value);
      } else {
        messageQueue.Push(message.value);
      }
    }

    method OnWriteMessage(ghost i: nat)
      requires Valid() && i < |trace.writing|
      modifies this, messageQueue
      ensures Valid() && View() == S.OnWritten(old(View()), i)
    {
      trace := trace.(writing := Without(trace.writing, i));
      var found, message := messageQueue.TryPop();
      if found {
        assert old(messageQueue.Contents())[1..] == messageQueue.Contents();
        DoWriteMessage(message);
      } else {
        isWriting := false;
      }
    }

    method OnWriteFailed(ghost i: nat, kind: ErrorKind)
      requires Valid() && i < |trace.writing|
      modifies this, messageQueue
      ensures Valid() && View() == S.OnWriteFailed(old(View()), i, kind)
    {
      trace := trace.(writing := Without(trace.writing, i), writeFailed := true);
      HandleError(kind);
    }

    /** Whether the counters get the connection killed; they are looked at only when they overflow. */
    method CheckRateLimit(now: int) returns (killed: bool)
      requires Valid()
      modifies this, messageQueue
      ensures Valid()
      ensures var l := L.Limiter(old(rateLimitStart), old(rateLimitMessages), old(rateLimitBytes));
              killed == (L.Overflows(config.limits, l) && now - l.start <= L.SECOND)
              && View() == if killed then S.Abort(old(View()))
                           else if L.Overflows(config.limits, l) then old(View()).(limiter := L.Limiter(now, 0, 0))
                           else old(View())
    {
      if rateLimitMessages > config.limits.messages || rateLimitBytes > config.limits.bytes {
        if now - rateLimitStart > L.SECOND {
          rateLimitStart := now;
          rateLimitMessages := 0;
          rateLimitBytes := 0;
        } else {
          Abort();
          return true;
        }
      }
      return false;
    }

    /** The accounting at the start of `on_read`. */
    method MeterMessage(now: int, message: Bytes) returns (killed: bool)
      requires Valid()
      modifies this, messageQueue
      ensures Valid()
      ensures var a := L.Arrival(now, |message|); var s := old(View());
              var r := L.Admit(config.limits, s.limiter, a);
              var m := s.(intake := s.intake.(arrivals := s.intake.arrivals + [a]));
              killed == r.None?
              && View() == if killed then S.Abort(m.(limiter := L.Counted(s.limiter, a), intake := m.intake.(killed := true)))
                           else m.(limiter := r.value)
    {
      rateLimitMessages := rateLimitMessages + 1;
      rateLimitBytes := rateLimitBytes + |message|;
      intake := intake.(arrivals := intake.arrivals + [L.Arrival(now, |message|)]);
      killed := CheckRateLimit(now);
      if killed {
        intake := intake.(killed := true);
      }
    }

    method OnRead(ghost i: nat, now: int, message: Bytes, binary: bool)
      requires Valid() && S.Outstanding(View(), i, S.WsRead)
      modifies this, messageQueue
      ensures Valid() && View() == S.OnMessage(config, S.Ended(old(View()), i), now, message, binary)
    {
      trace := trace.(inputs := Without(trace.inputs, i));
      var killed := MeterMessage(now, message);
      if killed {
      } else if !binary {
        Shutdown();
      } else {
        trace := trace.(inputs := trace.inputs + [S.WsRead]);
        intake := intake.(delivered := intake.delivered + [message]);
      }
    }

    method OnReadFailed(ghost i: nat, kind: ErrorKind)
      requires Valid() && i < |trace.inputs|
      modifies this, messageQueue
      ensures Valid() && View() == S.HandleError(S.Ended(old(View()), i), kind)
    {
      trace := trace.(inputs := Without(trace.inputs, i));
      HandleError(kind);
    }

    method OnTlsHandshake(ghost i: nat, ok: bool)
      requires Valid() && i < |trace.inputs|
      modifies this, messageQueue
      ensures Valid() && View() == S.OnTls(S.Ended(old(View()), i), ok)
    {
      trace := trace.(inputs := Without(trace.inputs, i));
      if !ok {
        Abort();
        return;
      }
      trace := trace.(inputs := trace.inputs + [S.HttpRequest]);
    }

    method OnReadRequest(ghost i: nat, activeConnectionCount: int, upgrade: bool)
      requires Valid() && i < |trace.inputs|
      modifies this, messageQueue
      ensures Valid() && View() == S.OnRequest(config, S.Ended(old(View()), i), activeConnectionCount, upgrade)
    {
      trace := trace.(inputs := Without(trace.inputs, i));
      if activeConnectionCount > config.softLimit {
        trace := trace.(replied := Some(S.ServiceUnavailable));
        Shutdown();
      } else if upgrade {
        trace := trace.(inputs := trace.inputs + [S.WsUpgrade]);
      } else {
        trace := trace.(replied := Some(S.NotImplemented));
        Shutdown();
      }
    }

    method OnWsHandshake(ghost i: nat, ok: bool)
      requires Valid() && i < |trace.inputs|
      modifies this, messageQueue
      ensures Valid() && View() == S.OnUpgraded(S.Ended(old(View()), i), ok)
    {
      trace := trace.(inputs := Without(trace.inputs, i));
      if dropped {
        return;
      }
      if !ok {
        Shutdown();
        return;
      }
      trace := trace.(inputs := trace.inputs + [S.WsRead]);
    }
  }
}
