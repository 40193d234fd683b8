/**
 Admission to the front server: several acceptors, on different threads, look at a shared
 connection count before they accept and admit whatever their accept then yields.
 */
module FrontAcceptor {
  import opened Common

  /** What an acceptor is doing between two looks at the shared count. */
  datatype Phase =
    | Opening     // `open` is about to run
    | Retrying    // the timer before another `open`
    | Checking    // `accept_next` is about to look at the count
    | Accepting   // an accept is outstanding
    | Pacing      // an accept has ended and the count is about to be looked at again
    | Delaying    // the timer before the next `accept_next`
    | Waiting     // closed, with the timer before the next `on_timer_reopen`

  /** An acceptor, and whether its socket is bound and listening. */
  datatype Acceptor = Acceptor(phase: Phase, listening: bool)

  // ---------------------------------------------------------------- opening

  /** Which of the socket calls made by `open` fail. */
  datatype Calls = Calls(reuse: bool, optionFails: bool, openFails: bool, bindFails: bool, listenFails: bool, closeFails: bool)

  /** The error left when `open` looks at it: a failed bind or listen is overwritten by the close that follows. */
  function ErrorLeft(c: Calls): bool {
    if c.reuse && c.optionFails then true
    else if c.openFails then true
    else if c.bindFails then c.closeFails
    else if c.listenFails then c.closeFails
    else false
  }

  predicate Listens(c: Calls) {
    !(c.reuse && c.optionFails) && !c.openFails && !c.bindFails && !c.listenFails
  }

  /** The socket was opened, bind or listen failed, and the close after that did not. */
  predicate FailureIsHidden(c: Calls) {
    !(c.reuse && c.optionFails) && !c.openFails && (c.bindFails || c.listenFails) && !c.closeFails
  }

  // ---------------------------------------------------------------- steps

  /** Integer division as the source's compiler does it. */
  function Half(n: int): int { if n >= 0 then n / 2 else -((-n) / 2) }

  datatype Front = Front(hard: int, live: nat, acceptors: seq<Acceptor>)

  datatype Move =
    | Open(i: nat, calls: Calls)
    | Retry(i: nat)
    | Check(i: nat)
    | AcceptFailed(i: nat)
    | AcceptDone(i: nat)
    | Pace(i: nat)
    | DelayOver(i: nat)
    | Reopen(i: nat)
    | Disconnect   // a connection object is destroyed

  /** The phase in which an acceptor makes a move. */
  function Before(m: Move): Phase
    requires !m.Disconnect?
  {
    match m
    case Open(_, _) => Opening
    case Retry(_) => Retrying
    case Check(_) => Checking
    case AcceptFailed(_) => Accepting
    case AcceptDone(_) => Accepting
    case Pace(_) => Pacing
    case DelayOver(_) => Delaying
    case Reopen(_) => Waiting
  }

  /** A connection comes only from a socket that listens; an accept can fail on any. */
  predicate Enabled(f: Front, m: Move) {
    if m.Disconnect? then f.live > 0
    else m.i < |f.acceptors| && f.acceptors[m.i].phase == Before(m) && (m.AcceptDone? ==> f.acceptors[m.i].listening)
  }

  /** What a move makes of the acceptor that makes it, when the count is `live` as it looks at it. */
  function Moved(hard: int, live: nat, a: Acceptor, m: Move): Acceptor
    requires !m.Disconnect?
  {
    match m
    case Open(_, calls) => Acceptor(if ErrorLeft(calls) then Retrying else Checking, Listens(calls))
    case Retry(_) => a.(phase := Opening)
    case Check(_) => if live >= hard then Acceptor(Waiting, false) else a.(phase := Accepting)
    case AcceptFailed(_) => a.(phase := Pacing)
    case AcceptDone(_) => a.(phase := Pacing)
    case Pace(_) => a.(phase := if live > Half(hard) then Delaying else Checking)
    case DelayOver(_) => a.(phase := Checking)
    case Reopen(_) => a.(phase := if live >= hard then Waiting else Opening)
  }

  function Apply(f: Front, m: Move): Front
    requires Enabled(f, m)
  {
    if m.Disconnect? then f.(live := f.live - 1)
    else f.(acceptors := f.acceptors[m.i := Moved(f.hard, f.live, f.acceptors[m.i], m)],
            live := if m.AcceptDone? then f.live + 1 else f.live)
  }

  /** The front with n acceptors before any of them has been opened. */
  function Initial(hard: int, n: nat): Front {
    Front(hard, 0, seq(n, _ => Acceptor(Opening, false)))
  }

  predicate Next(f: Front, m: Move, g: Front) { Enabled(f, m) && g == Apply(f, m) }

  /** A run: its states, and the moves, in any order, that led from each to the next. */
  ghost predicate IsRun(hard: int, n: nat, states: seq<Front>, moves: seq<Move>) {
    |states| == |moves| + 1 && states[0] == Initial(hard, n)
    && forall i {:trigger moves[i]} :: 0 <= i < |moves| ==> Next(states[i], moves[i], states[i + 1])
  }

  // ---------------------------------------------------------------- the bound

  function Outstanding(acceptors: seq<Acceptor>): (r: nat)
    ensures r <= |acceptors|
  {
    if acceptors == [] then 0
    else Outstanding(acceptors[..|acceptors| - 1]) + if acceptors[|acceptors| - 1].phase == Accepting then 1 else 0
  }

  lemma {:induction false} OutstandingAfter(acceptors: seq<Acceptor>, i: nat, a: Acceptor)
    requires i < |acceptors|
    ensures Outstanding(acceptors[i := a])
            == Outstanding(acceptors) - (if acceptors[i].phase == Accepting then 1 else 0) + (if a.phase == Accepting then 1 else 0)
  {
    var init := acceptors[..|acceptors| - 1];
    if i < |init| {
      OutstandingAfter(init, i, a);
      assert acceptors[i := a][..|init|] == init[i := a];
    } else {
      assert acceptors[i := a][..|init|] == init;
    }
  }

  predicate Bounded(f: Front) {
    if f.hard <= 0 then f.live + Outstanding(f.acceptors) == 0
    else f.live + Outstanding(f.acceptors) <= f.hard - 1 + |f.acceptors|
  }

  lemma StepBounded(f: Front, m: Move)
    requires Bounded(f) && Enabled(f, m)
    ensures Bounded(Apply(f, m)) && Apply(f, m).hard == f.hard && |Apply(f, m).acceptors| == |f.acceptors|
  {
    if !m.Disconnect? {
      OutstandingAfter(f.acceptors, m.i, Apply(f, m).acceptors[m.i]);
    }
  }

  lemma {:induction false} NoneAccepting(n: nat)
    ensures Outstanding(Initial(0, n).acceptors) == 0
  {
    if n > 0 {
      NoneAccepting(n - 1);
      assert Initial(0, n).acceptors[..n - 1] == Initial(0, n - 1).acceptors;
    }
  }

  /**
   In every state of every run, with n acceptors and hard limit h the live connections and outstanding
   accepts are together at most h - 1 + n, and none at all if the limit is not positive.
   */
  lemma {:induction false} AdmissionBound(hard: int, n: nat, states: seq<Front>, moves: seq<Move>, k: nat)
    requires IsRun(hard, n, states, moves) && k < |states|
    ensures states[k].hard == hard && |states[k].acceptors| == n && Bounded(states[k])
    ensures states[k].live <= if hard <= 0 then 0 else hard - 1 + n
    decreases k
  {
    if k == 0 {
      NoneAccepting(n);
      assert states[0].acceptors == Initial(0, n).acceptors;
    } else {
      AdmissionBound(hard, n, states, moves, k - 1);
      assert Next(states[k - 1], moves[k - 1], states[k]);
      StepBounded(states[k - 1], moves[k - 1]);
    }
  }

  /** The connections that moves have made, less those that are gone. */
  function Admitted(moves: seq<Move>): int {
    if moves == [] then 0
    else
      var m := moves[|moves| - 1];
      Admitted(moves[..|moves| - 1]) + (if m.AcceptDone? then 1 else if m.Disconnect? then -1 else 0)
  }

  /** In every run, the count is exactly the connections that were accepted and are not gone. */
  lemma {:induction false} CountIsExact(hard: int, n: nat, states: seq<Front>, moves: seq<Move>, k: nat)
    requires IsRun(hard, n, states, moves) && k < |states|
    ensures states[k].live == Admitted(moves[..k])
    decreases k
  {
    if k > 0 {
      CountIsExact(hard, n, states, moves, k - 1);
      assert moves[..k][..k - 1] == moves[..k - 1];
      assert Next(states[k - 1], moves[k - 1], states[k]);
    }
  }

  /** Without a positive limit nothing is ever accepted. */
  lemma {:induction false} NoLimitNoAccept(hard: int, n: nat, states: seq<Front>, moves: seq<Move>, k: nat, i: nat)
    requires IsRun(hard, n, states, moves) && k < |states| && i < |states[k].acceptors|
    ensures states[k].hard == hard && |states[k].acceptors| == n
    ensures states[k].acceptors[i].phase in {Accepting, Pacing, Delaying} ==> hard > 0
    decreases k
  {
    AdmissionBound(hard, n, states, moves, k);
    if k > 0 {
      AdmissionBound(hard, n, states, moves, k - 1);
      NoLimitNoAccept(hard, n, states, moves, k - 1, i);
      assert Next(states[k - 1], moves[k - 1], states[k]);
    }
  }

  /**
   In every run, what an acceptor makes of the count when it looks at it: it accepts, or opens again,
   exactly below the hard limit, waits otherwise, and delays its next accept exactly above half of it.
   */
  lemma CountDecides(hard: int, n: nat, states: seq<Front>, moves: seq<Move>, k: nat)
    requires IsRun(hard, n, states, moves) && k < |moves| && !moves[k].Disconnect?
    ensures Enabled(states[k], moves[k]) && |states[k + 1].acceptors| == |states[k].acceptors|
    ensures var live, a := states[k].live, states[k + 1].acceptors[moves[k].i];
            (moves[k].Check? ==> a.phase == (if live < hard then Accepting else Waiting) && (live >= hard ==> !a.listening))
            && (moves[k].Reopen? ==> a.phase == if live < hard then Opening else Waiting)
            && (moves[k].Pace? ==> a.phase == if 2 * live > hard then Delaying else Checking)
  {
    assert Next(states[k], moves[k], states[k + 1]);
    NoLimitNoAccept(hard, n, states, moves, k, moves[k].i);
  }

  // ---------------------------------------------------------------- deaf acceptors

  /** Between `open` and the next close: the source takes the acceptor to be listening. */
  predicate InService(a: Acceptor) {
    a.phase == Checking || a.phase == Accepting || a.phase == Pacing || a.phase == Delaying
  }

  /** What the socket calls of the last `open` of an acceptor did. */
  function LastOpen(moves: seq<Move>, i: nat): Option<Calls> {
    if moves == [] then None
    else
      var m := moves[|moves| - 1];
      if m.Open? && m.i == i then Some(m.calls) else LastOpen(moves[..|moves| - 1], i)
  }

  /** An acceptor in service listens if its last `open` got that far. */
  lemma {:induction false} ServiceFollowsOpen(hard: int, n: nat, states: seq<Front>, moves: seq<Move>, k: nat, i: nat)
    requires IsRun(hard, n, states, moves) && k < |states| && i < n
    ensures |states[k].acceptors| == n
    ensures var a := states[k].acceptors[i]; var last := LastOpen(moves[..k], i);
            InService(a) ==> last.Some? && !ErrorLeft(last.value) && a.listening == Listens(last.value)
    decreases k
  {
    if k > 0 {
      ServiceFollowsOpen(hard, n, states, moves, k - 1, i);
      assert moves[..k][..k - 1] == moves[..k - 1];
      assert Next(states[k - 1], moves[k - 1], states[k]);
    }
  }

  /**
   In every state of every run: an acceptor in service, an outstanding accept included, does not listen
   exactly when a bind or listen failed in its last `open` and was closed without error.
   */
  lemma DeafIff(hard: int, n: nat, states: seq<Front>, moves: seq<Move>, k: nat, i: nat)
    requires IsRun(hard, n, states, moves) && k < |states|
    requires i < |states[k].acceptors| && InService(states[k].acceptors[i])
    ensures LastOpen(moves[..k], i).Some?
    ensures !states[k].acceptors[i].listening <==> FailureIsHidden(LastOpen(moves[..k], i).value)
  {
    AdmissionBound(hard, n, states, moves, k);
    ServiceFollowsOpen(hard, n, states, moves, k, i);
  }

  predicate Deaf(f: Front, i: nat) {
    i < |f.acceptors| && InService(f.acceptors[i]) && !f.acceptors[i].listening
  }

  /**
   A deaf acceptor goes on accepting in vain: it stays deaf, and admits nobody, as long as it is not
   sent to wait by finding the hard limit reached.
   */
  lemma {:induction false} DeafUntilTheLimit(hard: int, n: nat, states: seq<Front>, moves: seq<Move>, j: nat, k: nat, i: nat)
    requires IsRun(hard, n, states, moves) && j <= k < |states| && Deaf(states[j], i)
    requires forall l {:trigger moves[l]} :: j <= l < k && moves[l] == Check(i) ==> states[l].live < states[l].hard
    ensures Deaf(states[k], i)
    ensures forall l :: j <= l < k ==> moves[l] != AcceptDone(i)
    decreases k
  {
    if j < k {
      DeafUntilTheLimit(hard, n, states, moves, j, k - 1, i);
      assert Next(states[k - 1], moves[k - 1], states[k]);
    }
  }

  /** And it stops being deaf by exactly that: finding the hard limit reached. */
  lemma DeafnessEndsIff(f: Front, i: nat, m: Move)
    requires Deaf(f, i) && Enabled(f, m)
    ensures !Deaf(Apply(f, m), i) <==> m == Check(i) && f.live >= f.hard
  {
  }

  /** A port in use is enough: one acceptor, whose bind fails, is soon accepting without listening. */
  lemma PortInUse(hard: int) returns (states: seq<Front>, moves: seq<Move>)
    requires hard > 0
    ensures IsRun(hard, 1, states, moves)
    ensures states[|states| - 1].acceptors == [Acceptor(Accepting, false)]
  {
    moves := [Open(0, Calls(false, false, false, true, false, false)), Check(0)];
    var f := Initial(hard, 1);
    states := [f, Apply(f, moves[0]), Apply(Apply(f, moves[0]), moves[1])];
  }

  // ---------------------------------------------------------------- the bound is reached

  ghost predicate CanReach(hard: int, n: nat, f: Front) {
    exists states: seq<Front>, moves: seq<Move> :: IsRun(hard, n, states, moves) && states[|moves|] == f
  }

  lemma Extend(hard: int, n: nat, f: Front, m: Move)
    requires CanReach(hard, n, f) && Enabled(f, m)
    ensures CanReach(hard, n, Apply(f, m))
  {
    var states: seq<Front>, moves: seq<Move> :| IsRun(hard, n, states, moves) && states[|moves|] == f;
    var states', moves' := states + [Apply(f, m)], moves + [m];
    forall i | 0 <= i < |moves'|
      ensures Next(states'[i], moves'[i], states'[i + 1])
    {
      if i < |moves| {
        assert moves'[i] == moves[i];
      }
    }
    assert IsRun(hard, n, states', moves');
  }

  /** k acceptors, all of them listening, in one phase and the others in another. */
  function Split(n: nat, k: nat, a: Acceptor, b: Acceptor): seq<Acceptor> {
    seq(n, i => if i < k then a else b)
  }

  lemma SplitStep(n: nat, k: nat, a: Acceptor, b: Acceptor)
    requires k < n
    ensures Split(n, k, a, b)[k] == b && Split(n, k, a, b)[k := a] == Split(n, k + 1, a, b)
  {
  }

  const FINE := Calls(false, false, false, false, false, false)
  const CHECKING := Acceptor(Checking, true)
  const ACCEPTING := Acceptor(Accepting, true)
  const PACING := Acceptor(Pacing, true)

  lemma {:induction false} AllOpen(hard: int, n: nat, k: nat)
    requires k <= n
    ensures CanReach(hard, n, Front(hard, 0, Split(n, k, CHECKING, Acceptor(Opening, false))))
    decreases k
  {
    var shut := Acceptor(Opening, false);
    if k == 0 {
      assert Split(n, 0, CHECKING, shut) == Initial(hard, n).acceptors;
      var states, moves: seq<Move> := [Initial(hard, n)], [];
      assert IsRun(hard, n, states, moves) && states[|moves|] == Front(hard, 0, Split(n, 0, CHECKING, shut));
    } else {
      AllOpen(hard, n, k - 1);
      SplitStep(n, k - 1, CHECKING, shut);
      Extend(hard, n, Front(hard, 0, Split(n, k - 1, CHECKING, shut)), Open(k - 1, FINE));
    }
  }

  /** One acceptor alone fills the front up to one below the limit. */
  lemma {:induction false} AllButOne(hard: int, n: nat, live: nat)
    requires n > 0 && live < hard
    ensures CanReach(hard, n, Front(hard, live, Split(n, n, CHECKING, CHECKING)))
    decreases live
  {
    var all := Split(n, n, CHECKING, CHECKING);
    if live == 0 {
      AllOpen(hard, n, n);
      assert all == Split(n, n, CHECKING, Acceptor(Opening, false));
    } else {
      AllButOne(hard, n, live - 1);
      OneMore(hard, n, live - 1, all);
    }
  }

  /** The first acceptor accepts, and is back where it was. */
  lemma OneMore(hard: int, n: nat, live: nat, all: seq<Acceptor>)
    requires |all| == n > 0 && all[0] == CHECKING && live + 1 < hard
    requires CanReach(hard, n, Front(hard, live, all))
    ensures CanReach(hard, n, Front(hard, live + 1, all))
  {
    Extend(hard, n, Front(hard, live, all), Check(0));
    Extend(hard, n, Front(hard, live, all[0 := ACCEPTING]), AcceptDone(0));
    assert all[0 := ACCEPTING][0 := PACING] == all[0 := PACING];
    Extend(hard, n, Front(hard, live + 1, all[0 := PACING]), Pace(0));
    assert all[0 := PACING][0 := CHECKING] == all;
    if live + 1 > Half(hard) {
      var delaying := Acceptor(Delaying, true);
      assert all[0 := PACING][0 := delaying] == all[0 := delaying];
      Extend(hard, n, Front(hard, live + 1, all[0 := delaying]), DelayOver(0));
      assert all[0 := delaying][0 := CHECKING] == all;
    }
  }

  lemma {:induction false} AllAccepting(hard: int, n: nat, k: nat)
    requires n > 0 && hard > 0 && k <= n
    ensures CanReach(hard, n, Front(hard, hard - 1, Split(n, k, ACCEPTING, CHECKING)))
    decreases k
  {
    if k == 0 {
      AllButOne(hard, n, hard - 1);
      assert Split(n, 0, ACCEPTING, CHECKING) == Split(n, n, CHECKING, CHECKING);
    } else {
      AllAccepting(hard, n, k - 1);
      SplitStep(n, k - 1, ACCEPTING, CHECKING);
      Extend(hard, n, Front(hard, hard - 1, Split(n, k - 1, ACCEPTING, CHECKING)), Check(k - 1));
    }
  }

  lemma {:induction false} AllAdmitted(hard: int, n: nat, k: nat)
    requires n > 0 && hard > 0 && k <= n
    ensures CanReach(hard, n, Front(hard, hard - 1 + k, Split(n, k, PACING, ACCEPTING)))
    decreases k
  {
    if k == 0 {
      AllAccepting(hard, n, n);
      assert Split(n, 0, PACING, ACCEPTING) == Split(n, n, ACCEPTING, CHECKING);
    } else {
      AllAdmitted(hard, n, k - 1);
      SplitStep(n, k - 1, PACING, ACCEPTING);
      Extend(hard, n, Front(hard, hard - 1 + (k - 1), Split(n, k - 1, PACING, ACCEPTING)), AcceptDone(k - 1));
    }
  }

  /** The hard limit is not a limit: with n acceptors the race really admits n - 1 connections more. */
  lemma BoundIsReached(hard: int, n: nat) returns (f: Front)
    requires n > 0 && hard > 0
    ensures CanReach(hard, n, f) && f.live == hard - 1 + n
  {
    AllAdmitted(hard, n, n);
    f := Front(hard, hard - 1 + n, Split(n, n, PACING, ACCEPTING));
  }

  // ---------------------------------------------------------------- the object

  /** The moves lead from one state of the front to another. */
  predicate Leads(f: Front, moves: seq<Move>, g: Front)
    decreases |moves|
  {
    if moves == [] then f == g
    else Enabled(f, moves[0]) && Leads(Apply(f, moves[0]), moves[1..], g)
  }

  lemma LeadsOn(f: Front, m: Move, moves: seq<Move>, g: Front)
    requires Enabled(f, m) && Leads(Apply(f, m), moves, g)
    ensures Leads(f, [m] + moves, g)
  {
    assert ([m] + moves)[1..] == moves;
  }

  lemma LeadsOne(f: Front, m: Move)
    requires Enabled(f, m)
    ensures Leads(f, [m], Apply(f, m))
  {
  }

  /** So the bound is kept by every handler that is such a sequence of moves. */
  lemma {:induction false} LeadsBounded(f: Front, moves: seq<Move>, g: Front)
    requires Bounded(f) && Leads(f, moves, g)
    ensures Bounded(g) && g.hard == f.hard && |g.acceptors| == |f.acceptors|
    decreases |moves|
  {
    if moves != [] {
      StepBounded(f, moves[0]);
      LeadsBounded(Apply(f, moves[0]), moves[1..], g);
    }
  }

  /** The next move of an acceptor whose socket calls succeed and whose pending accept does not end. */
  function Onward(a: Acceptor, i: nat): Move
    requires a.phase != Accepting
  {
    match a.phase
    case Opening => Open(i, FINE)
    case Retrying => Retry(i)
    case Checking => Check(i)
    case Pacing => Pace(i)
    case Delaying => DelayOver(i)
    case Waiting => Reopen(i)
  }

  /** How far an acceptor is from accepting. */
  function Distance(p: Phase): nat {
    match p
    case Accepting => 0
    case Checking => 1
    case Delaying => 2
    case Opening => 2
    case Pacing => 3
    case Retrying => 3
    case Waiting => 3
  }

  /**
   Below the hard limit every acceptor gets to an accept by moves of its own, if its socket calls succeed:
   a closed one opens again. It then listens, unless it was in service and deaf; no other acceptor and
   no connection is touched.
   */
  lemma {:induction false} Recovers(f: Front, i: nat) returns (moves: seq<Move>, g: Front)
    requires i < |f.acceptors| && f.live < f.hard
    ensures Leads(f, moves, g) && forall k :: 0 <= k < |moves| ==> !moves[k].Disconnect? && moves[k].i == i
    ensures g == f.(acceptors := f.acceptors[i := Acceptor(Accepting, InService(f.acceptors[i]) ==> f.acceptors[i].listening)])
    decreases Distance(f.acceptors[i].phase)
  {
    var a := f.acceptors[i];
    if a.phase == Accepting {
      moves, g := [], f;
      assert f.acceptors[i := a] == f.acceptors;
    } else {
      var m := Onward(a, i);
      var h := Apply(f, m);
      var more;
      more, g := Recovers(h, i);
      LeadsOn(f, m, more, g);
      moves := [m] + more;
      var last := g.acceptors[i];
      assert f.acceptors[i := h.acceptors[i]][i := last] == f.acceptors[i := last];
    }
  }

  class FrontGlobals {
    const connectionLimitHard: int
    var activeConnectionCount: nat

    constructor (hard: int)
      ensures connectionLimitHard == hard && activeConnectionCount == 0
    {
      connectionLimitHard, activeConnectionCount := hard, 0;
    }
  }

  /** The acceptors of one server. */
  ghost predicate Team(globals: FrontGlobals, all: seq<WsAcceptor>) {
    (forall i :: 0 <= i < |all| ==> all[i].globals == globals)
    && forall i, j :: 0 <= i < j < |all| ==> all[i] != all[j]
  }

  /** All acceptors and the count they share, as a state of the front. */
  ghost function View(globals: FrontGlobals, all: seq<WsAcceptor>): Front
    reads globals, all
  {
    Front(globals.connectionLimitHard, globals.activeConnectionCount,
          seq(|all|, i requires 0 <= i < |all| reads all => Acceptor(all[i].phase, all[i].listening)))
  }

  /** Moves of one acceptor, from the given one up to where it waits for an operation it has started. */
  predicate Handled(f: Front, first: Move, moves: seq<Move>, g: Front, me: nat) {
    Leads(f, moves, g) && me < |g.acceptors| && moves != [] && moves[0] == first
    && (forall k :: 0 <= k < |moves| ==> !moves[k].Disconnect? && moves[k].i == me)
    && g.acceptors[me].phase in {Retrying, Accepting, Delaying, Waiting}
  }

  class WsAcceptor {
    const globals: FrontGlobals
    var listening: bool

    /** The operation that is outstanding, or the part of a handler that comes next. */
    ghost var phase: Phase

    constructor (globals: FrontGlobals)
      ensures this.globals == globals && phase == Opening && !listening
    {
      this.globals := globals;
      listening := false;
      phase := Opening;
    }

    method AcceptNext(ghost all: seq<WsAcceptor>, ghost me: nat)
      requires Team(globals, all) && me < |all| && all[me] == this && phase == Checking
      modifies this
      ensures View(globals, all) == Apply(old(View(globals, all)), Check(me))
      ensures phase == Accepting || phase == Waiting
    {
      if globals.activeConnectionCount >= globals.connectionLimitHard {
        listening := false;
        phase := Waiting;
      } else {
        phase := Accepting;
      }
      assert View(globals, all).acceptors == old(View(globals, all)).acceptors[me := Acceptor(phase, listening)];
    }

    method OpenSocket(c: Calls) returns (ec: bool)
      modifies this`listening
      ensures ec == ErrorLeft(c) && listening == Listens(c)
    {
      ec, listening := false, false;
      if c.reuse {
        ec := c.optionFails;
        if ec {
          return;
        }
      }
      ec := c.openFails;
      if ec {
        return;
      }
      ec := c.bindFails;
      if ec {
        ec := c.closeFails;
        return;
      }
      ec := c.listenFails;
      if ec {
        ec := c.closeFails;
        return;
      }
      listening := true;
    }

    /** `open` runs on into `accept_next` when no error is left. */
    method Open(c: Calls, ghost all: seq<WsAcceptor>, ghost me: nat) returns (ghost moves: seq<Move>)
      requires Team(globals, all) && me < |all| && all[me] == this && phase == Opening
      modifies this
      ensures Handled(old(View(globals, all)), Move.Open(me, c), moves, View(globals, all), me)
    {
      ghost var before := View(globals, all);
      var ec := OpenSocket(c);
      phase := if ec then Retrying else Checking;
      assert View(globals, all).acceptors == before.acceptors[me := Acceptor(phase, listening)];
      moves := [Move.Open(me, c)];
      LeadsOne(before, moves[0]);
      if !ec {
        ghost var mid := View(globals, all);
        AcceptNext(all, me);
        LeadsOne(mid, Check(me));
        LeadsOn(before, moves[0], [Check(me)], View(globals, all));
        moves := moves + [Check(me)];
      }
    }

    /** The timer that a failed `open` has set. */
    method OnTimerOpen(c: Calls, ghost all: seq<WsAcceptor>, ghost me: nat) returns (ghost moves: seq<Move>)
      requires Team(globals, all) && me < |all| && all[me] == this && phase == Retrying
      modifies this
      ensures Handled(old(View(globals, all)), Retry(me), moves, View(globals, all), me)
    {
      ghost var before := View(globals, all);
      phase := Opening;
      assert View(globals, all).acceptors == before.acceptors[me := Acceptor(phase, listening)];
      moves := Open(c, all, me);
      LeadsOn(before, Retry(me), moves, View(globals, all));
      moves := [Retry(me)] + moves;
    }

    /** The new connection is counted whatever the count has become since the accept was started. */
    method OnAccept(failed: bool, ghost all: seq<WsAcceptor>, ghost me: nat) returns (ghost moves: seq<Move>)
      requires Team(globals, all) && me < |all| && all[me] == this && phase == Accepting && (failed || listening)
      modifies this, globals
      ensures Handled(old(View(globals, all)), if failed then AcceptFailed(me) else AcceptDone(me), moves, View(globals, all), me)
    {
      ghost var before := View(globals, all);
      if !failed {
        globals.activeConnectionCount := globals.activeConnectionCount + 1;
      }
      phase := Pacing;
      ghost var first := if failed then AcceptFailed(me) else AcceptDone(me);
      assert View(globals, all).acceptors == before.acceptors[me := Acceptor(phase, listening)];
      moves := Paced(all, me);
      LeadsOn(before, first, moves, View(globals, all));
      moves := [first] + moves;
    }

    /** The end of `on_accept`. */
    method Paced(ghost all: seq<WsAcceptor>, ghost me: nat) returns (ghost moves: seq<Move>)
      requires Team(globals, all) && me < |all| && all[me] == this && phase == Pacing
      modifies this
      ensures Handled(old(View(globals, all)), Pace(me), moves, View(globals, all), me)
    {
      ghost var before := View(globals, all);
      if globals.activeConnectionCount > Half(globals.connectionLimitHard) {
        phase := Delaying;
        assert View(globals, all).acceptors == before.acceptors[me := Acceptor(phase, listening)];
        LeadsOne(before, Pace(me));
        moves := [Pace(me)];
      } else {
        phase := Checking;
        assert View(globals, all).acceptors == before.acceptors[me := Acceptor(phase, listening)];
        ghost var mid := View(globals, all);
        AcceptNext(all, me);
        LeadsOne(mid, Check(me));
        LeadsOn(before, Pace(me), [Check(me)], View(globals, all));
        moves := [Pace(me), Check(me)];
        assert moves == [Pace(me)] + [Check(me)];
      }
    }

    method OnTimerAccept(ghost all: seq<WsAcceptor>, ghost me: nat) returns (ghost moves: seq<Move>)
      requires Team(globals, all) && me < |all| && all[me] == this && phase == Delaying
      modifies this
      ensures Handled(old(View(globals, all)), DelayOver(me), moves, View(globals, all), me)
    {
      ghost var before := View(globals, all);
      phase := Checking;
      assert View(globals, all).acceptors == before.acceptors[me := Acceptor(phase, listening)];
      ghost var mid := View(globals, all);
      AcceptNext(all, me);
      LeadsOne(mid, Check(me));
      LeadsOn(before, DelayOver(me), [Check(me)], View(globals, all));
      moves := [DelayOver(me)] + [Check(me)];
    }

    method OnTimerReopen(c: Calls, ghost all: seq<WsAcceptor>, ghost me: nat) returns (ghost moves: seq<Move>)
      requires Team(globals, all) && me < |all| && all[me] == this && phase == Waiting
      modifies this
      ensures Handled(old(View(globals, all)), Reopen(me), moves, View(globals, all), me)
    {
      ghost var before := View(globals, all);
      if globals.activeConnectionCount >= globals.connectionLimitHard {
        phase := Waiting;
        assert View(globals, all).acceptors == before.acceptors[me := Acceptor(phase, listening)];
        LeadsOne(before, Reopen(me));
        moves := [Reopen(me)];
      } else {
        phase := Opening;
        assert View(globals, all).acceptors == before.acceptors[me := Acceptor(phase, listening)];
        moves := Open(c, all, me);
        LeadsOn(before, Reopen(me), moves, View(globals, all));
        moves := [Reopen(me)] + moves;
      }
    }
  }
}
