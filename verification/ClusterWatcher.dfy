/** The watcher that keeps one outbound cluster connection alive. */
module ClusterWatchers {
  import opened Common

  /**
   The outstanding operations of a watcher, the connections it has made that still live, and the
   one its weak pointer refers to. Setting the timer again aborts the waits that are pending on it.
   */
  datatype Watch = Watch(
    connects: nat,
    timers: nat,
    abortedTimers: nat,
    live: set<nat>,
    connection: Option<nat>,
    made: nat)

  function TryConnect(w: Watch): Watch { w.(connects := w.connects + 1) }

  function Wait(w: Watch): Watch {
    w.(timers := 1, abortedTimers := w.abortedTimers + w.timers)
  }

  predicate Expired(w: Watch) {
    w.connection.None? || w.connection.value !in w.live
  }

  function OnConnect(w: Watch, ok: bool): Watch {
    Wait(if ok then w.(live := w.live + {w.made}, connection := Some(w.made), made := w.made + 1) else w)
  }

  function OnTimer(w: Watch, aborted: bool): Watch {
    if aborted then w
    else if Expired(w) then TryConnect(w)
    else Wait(w)
  }

  datatype Event = Connected(ok: bool) | TimerFired | TimerAborted | ConnectionGone(id: nat)

  predicate Enabled(w: Watch, e: Event) {
    match e
    case Connected(_) => w.connects > 0
    case TimerFired => w.timers > 0
    case TimerAborted => w.abortedTimers > 0
    case ConnectionGone(id) => id in w.live
  }

  function Apply(w: Watch, e: Event): Watch
    requires Enabled(w, e)
  {
    match e
    case Connected(ok) => OnConnect(w.(connects := w.connects - 1), ok)
    case TimerFired => OnTimer(w.(timers := w.timers - 1), false)
    case TimerAborted => OnTimer(w.(abortedTimers := w.abortedTimers - 1), true)
    case ConnectionGone(id) => w.(live := w.live - {id})
  }

  const IDLE := Watch(0, 0, 0, {}, None, 0)

  ghost predicate IsRun(states: seq<Watch>, events: seq<Event>) {
    |states| == |events| + 1 && states[0] == TryConnect(IDLE)
    && forall i {:trigger events[i]} :: 0 <= i < |events| ==> Enabled(states[i], events[i]) && states[i + 1] == Apply(states[i], events[i])
  }

  predicate Inv(w: Watch) {
    w.connects + w.timers == 1 && w.abortedTimers == 0
    && (forall id :: id in w.live ==> w.connection == Some(id))
    && (w.connects == 1 ==> w.live == {})
  }

  /**
   In every state of every run of a watcher exactly one connect or timer is pending, no connection of
   its own lives while it connects, at most one ever lives, and no timer is ever aborted.
   */
  lemma {:induction false} WatcherUnique(states: seq<Watch>, events: seq<Event>, i: nat)
    requires IsRun(states, events) && i < |states|
    ensures Inv(states[i]) && |states[i].live| <= 1
    ensures !Enabled(states[i], TimerAborted)
    decreases i
  {
    if i > 0 {
      WatcherUnique(states, events, i - 1);
      assert states[i] == Apply(states[i - 1], events[i - 1]);
    }
    var w := states[i];
    if w.live != {} {
      assert w.live == {w.connection.value};
    }
  }

  /**
   In every run: when the timer fires a new attempt is made exactly if no connection of the watcher lives, and
   otherwise the timer is set again; after an attempt the timer is set, and a connection lives exactly if
   it succeeded.
   */
  lemma WatcherReacts(states: seq<Watch>, events: seq<Event>, i: nat)
    requires IsRun(states, events) && i < |events|
    ensures var w, v := states[i], states[i + 1];
            (events[i] == TimerFired ==> v.live == w.live && if w.live == {} then v.connects == 1 else v.timers == 1)
            && (events[i].Connected? ==> v.timers == 1 && v.live == if events[i].ok then {w.made} else {})
            && (events[i].ConnectionGone? ==> v.live == {} && v.connects == w.connects && v.timers == w.timers)
  {
    WatcherUnique(states, events, i);
    WatcherUnique(states, events, i + 1);
    assert states[i + 1] == Apply(states[i], events[i]);
  }

  /** In every run, a watcher without a connection is at most a timer and an attempt away from one. */
  lemma Reconnects(states: seq<Watch>, events: seq<Event>, i: nat)
    requires IsRun(states, events) && i < |states| && states[i].live == {}
    ensures var w := states[i];
            if w.connects == 1 then Enabled(w, Connected(true)) && |Apply(w, Connected(true)).live| == 1
            else Enabled(w, TimerFired) && var v := Apply(w, TimerFired);
                 Enabled(v, Connected(true)) && |Apply(v, Connected(true)).live| == 1
  {
    WatcherUnique(states, events, i);
  }

  /** Setting the timer aborts what waits on it: no wait is lost, and one is pending. */
  lemma WaitsAreConserved(w: Watch)
    ensures Wait(w).timers == 1 && Wait(w).timers + Wait(w).abortedTimers == w.timers + w.abortedTimers + 1
  {
  }

  /** Which connection objects exist; a weak pointer to any other has expired. */
  class ConnectionHeap {
    var live: set<nat>
    var made: nat

    constructor ()
      ensures live == {} && made == 0
    {
      live, made := {}, 0;
    }

    /** A new connection that holds the socket and keeps itself alive while it runs. */
    method Make() returns (id: nat)
      modifies this
      ensures id == old(made) && live == old(live) + {id} && made == id + 1
    {
      id := made;
      live, made := live + {id}, made + 1;
    }
  }

  class ClusterWatcher {
    const heap: ConnectionHeap
    /** The weak pointer to the connection made last. */
    var connection: Option<nat>

    /** The operations started and not yet completed. */
    ghost var connects: nat
    ghost var timers: nat
    ghost var abortedTimers: nat

    ghost function View(): Watch
      reads this, heap
    {
      Watch(connects, timers, abortedTimers, heap.live, connection, heap.made)
    }

    constructor ()
      ensures fresh(heap) && View() == IDLE
    {
      heap := new ConnectionHeap();
      connection := None;
      connects, timers, abortedTimers := 0, 0, 0;
    }

    method Connect()
      modifies this`connects
      ensures View() == TryConnect(old(View()))
    {
      connects := connects + 1;
    }

    /** The first `try_connect`. */
    method Run()
      modifies this`connects
      ensures View() == TryConnect(old(View()))
      ensures old(View()) == IDLE ==> Inv(View())
    {
      Connect();
    }

    /** Setting the expiry aborts a wait that is still pending. */
    method SetTimer()
      modifies this`timers, this`abortedTimers
      ensures View() == Wait(old(View()))
    {
      abortedTimers := abortedTimers + timers;
      timers := 1;
    }

    /** Whatever the outcome, the timer is the one thing pending afterwards; a success leaves one live connection. */
    method OnConnect(ok: bool)
      requires connects > 0
      modifies this, heap
      ensures View() == Apply(old(View()), Connected(ok))
      ensures old(Inv(View())) ==> Inv(View()) && timers == 1 && connects == 0
                                   && heap.live == if ok then {old(heap.made)} else {}
    {
      connects := connects - 1;
      if ok {
        var client := heap.Make();
        connection := Some(client);
      }
      SetTimer();
    }

    method IsExpired() returns (expired: bool)
      ensures expired == Expired(View())
    {
      match connection
      case None => return true;
      case Some(id) => return id !in heap.live;
    }

    /** A new attempt is made exactly when no connection of this watcher lives; else the timer is set again. */
    method OnTimer(aborted: bool)
      requires if aborted then abortedTimers > 0 else timers > 0
      modifies this
      ensures View() == Apply(old(View()), if aborted then TimerAborted else TimerFired)
      ensures old(Inv(View())) ==> Inv(View()) && (connects == 1 <==> heap.live == {})
    {
      if aborted {
        abortedTimers := abortedTimers - 1;
        return;
      }
      timers := timers - 1;
      var expired := IsExpired();
      if expired {
        Connect();
      } else {
        SetTimer();
      }
    }
  }
}
