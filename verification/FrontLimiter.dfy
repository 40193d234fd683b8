/**
 The rate limiter of a front connection: counters that are looked at only when they overflow, and
 reset then if the window is more than one second old. Times are in nanoseconds.
 */
module FrontLimiter {
  import opened Common

  const SECOND: int := 1_000_000_000

  datatype Limits = Limits(messages: nat, bytes: nat)

  datatype Limiter = Limiter(start: int, messages: nat, bytes: nat)

  /** A message as the limiter sees it. */
  datatype Arrival = Arrival(time: int, size: nat)

  predicate Overflows(limits: Limits, l: Limiter) {
    l.messages > limits.messages || l.bytes > limits.bytes
  }

  function Counted(l: Limiter, a: Arrival): Limiter {
    l.(messages := l.messages + 1, bytes := l.bytes + a.size)
  }

  /** The limiter after one message; None when the message gets the connection killed. */
  function Admit(limits: Limits, l: Limiter, a: Arrival): (r: Option<Limiter>)
    ensures r.Some? ==> !Overflows(limits, r.value)
  {
    var c := Counted(l, a);
    if !Overflows(limits, c) then Some(c)
    else if a.time - l.start > SECOND then Some(Limiter(a.time, 0, 0))
    else None
  }

  /** The limiter after a run of messages; nothing is read after a kill. */
  function After(limits: Limits, t0: int, run: seq<Arrival>): (r: Option<Limiter>)
    ensures r.Some? ==> !Overflows(limits, r.value)
  {
    if run == [] then Some(Limiter(t0, 0, 0))
    else
      var r := After(limits, t0, run[..|run| - 1]);
      if r.None? then None else Admit(limits, r.value, run[|run| - 1])
  }

  /** Messages come in the order of time, none before the connection. */
  predicate InOrder(t0: int, run: seq<Arrival>) {
    (forall i :: 0 <= i < |run| ==> t0 <= run[i].time)
    && forall i, j :: 0 <= i < j < |run| ==> run[i].time <= run[j].time
  }

  predicate Within(a: Arrival, lo: int, hi: int) { lo <= a.time <= hi }

  /** The messages of a run that fall in a closed interval, and their bytes. */
  function CountIn(run: seq<Arrival>, lo: int, hi: int): nat {
    if run == [] then 0
    else CountIn(run[..|run| - 1], lo, hi) + if Within(run[|run| - 1], lo, hi) then 1 else 0
  }

  function BytesIn(run: seq<Arrival>, lo: int, hi: int): nat {
    if run == [] then 0
    else BytesIn(run[..|run| - 1], lo, hi) + if Within(run[|run| - 1], lo, hi) then run[|run| - 1].size else 0
  }

  lemma {:induction false} NoneBefore(run: seq<Arrival>, lo: int, hi: int)
    requires forall i :: 0 <= i < |run| ==> run[i].time < lo
    ensures CountIn(run, lo, hi) == 0 && BytesIn(run, lo, hi) == 0
  {
    if run != [] {
      NoneBefore(run[..|run| - 1], lo, hi);
    }
  }

  // ---------------------------------------------------------------- the ceiling

  /** The shortest time between two resets: more than a second, by the clock's tick. */
  const GAP: int := SECOND + 1

  /** How many resets fit in a closed interval. */
  function MostResets(length: nat): nat { length / GAP + 1 }

  /** The most bytes one window can count without overflowing: the byte limit, or what the messages can carry. */
  function Cap(limits: Limits, max: nat): nat {
    if limits.bytes <= limits.messages * max then limits.bytes else limits.messages * max
  }

  lemma {:induction false} CountersFit(limits: Limits, max: nat, t0: int, run: seq<Arrival>)
    requires After(limits, t0, run).Some? && forall i :: 0 <= i < |run| ==> run[i].size <= max
    ensures var l := After(limits, t0, run).value; l.bytes <= l.messages * max && l.bytes <= Cap(limits, max)
  {
    if run != [] {
      CountersFit(limits, max, t0, run[..|run| - 1]);
      OneMore(After(limits, t0, run[..|run| - 1]).value.messages + 1, max);
    }
    TimesGrow(After(limits, t0, run).value.messages, limits.messages, max);
  }

  lemma OneMore(n: nat, k: nat)
    requires n > 0
    ensures n * k == (n - 1) * k + k
  {
  }

  /** What r resets inside the interval allow, while the run has not left it. */
  predicate Spent(limits: Limits, max: nat, run: seq<Arrival>, lo: int, hi: int, l: Limiter, r: nat) {
    CountIn(run, lo, hi) <= r * (limits.messages + 1) + l.messages
    && BytesIn(run, lo, hi) <= r * (Cap(limits, max) + max) + l.bytes
    && (r >= 1 ==> lo + (r - 1) * GAP <= l.start <= hi)
  }

  lemma SpendOne(limits: Limits, max: nat, run: seq<Arrival>, lo: int, hi: int, l: Limiter, r: nat, a: Arrival)
    requires Spent(limits, max, run, lo, hi, l, r) && !Overflows(limits, l) && l.bytes <= Cap(limits, max)
    requires a.size <= max && Within(a, lo, hi) && Admit(limits, l, a).Some?
    ensures var l' := Admit(limits, l, a).value;
            Spent(limits, max, run + [a], lo, hi, l', if Overflows(limits, Counted(l, a)) then r + 1 else r)
  {
    assert (run + [a])[..|run|] == run;
    var cap := Cap(limits, max);
    assert (r + 1) * (limits.messages + 1) == r * (limits.messages + 1) + limits.messages + 1;
    assert (r + 1) * (cap + max) == r * (cap + max) + cap + max;
    assert r >= 1 ==> r * GAP == (r - 1) * GAP + GAP;
  }

  /** A run that is not killed has some number r of resets in the interval, which bounds what falls in it. */
  lemma {:induction false} ResetsBound(limits: Limits, max: nat, t0: int, run: seq<Arrival>, lo: int, hi: int) returns (r: nat)
    requires InOrder(t0, run) && After(limits, t0, run).Some? && lo <= hi
    requires forall i :: 0 <= i < |run| ==> run[i].size <= max
    ensures run == [] || run[|run| - 1].time <= hi ==> Spent(limits, max, run, lo, hi, After(limits, t0, run).value, r)
    ensures CountIn(run, lo, hi) <= r * (limits.messages + 1) + limits.messages
    ensures BytesIn(run, lo, hi) <= r * (Cap(limits, max) + max) + Cap(limits, max)
    ensures r >= 1 ==> (r - 1) * GAP <= hi - lo
  {
    CountersFit(limits, max, t0, run);
    if run == [] {
      r := 0;
    } else {
      var init, a := run[..|run| - 1], run[|run| - 1];
      assert init + [a] == run;
      if a.time < lo {
        NoneBefore(run, lo, hi);
        r := 0;
      } else {
        r := ResetsBound(limits, max, t0, init, lo, hi);
        if a.time <= hi {
          var l := After(limits, t0, init).value;
          CountersFit(limits, max, t0, init);
          SpendOne(limits, max, init, lo, hi, l, r, a);
          r := if Overflows(limits, Counted(l, a)) then r + 1 else r;
        }
      }
    }
  }

  lemma TimesGrow(x: nat, y: nat, k: nat)
    requires x <= y
    ensures x * k <= y * k
  {
  }

  lemma ResetsFit(r: nat, length: nat)
    requires r >= 1 ==> (r - 1) * GAP <= length
    ensures r <= MostResets(length)
  {
  }

  /**
   The exact ceiling: what a connection that is not killed can get through in a closed interval of any
   length, with messages of at most `max` bytes.
   */
  lemma Ceiling(limits: Limits, max: nat, t0: int, run: seq<Arrival>, lo: int, length: nat)
    requires InOrder(t0, run) && After(limits, t0, run).Some?
    requires forall i :: 0 <= i < |run| ==> run[i].size <= max
    ensures var r := MostResets(length); var cap := Cap(limits, max);
            CountIn(run, lo, lo + length) <= r * (limits.messages + 1) + limits.messages
            && BytesIn(run, lo, lo + length) <= r * (cap + max) + cap
  {
    var r := ResetsBound(limits, max, t0, run, lo, lo + length);
    ResetsFit(r, length);
    TimesGrow(r, MostResets(length), limits.messages + 1);
    TimesGrow(r, MostResets(length), Cap(limits, max) + max);
  }

  /** T resets fit in T whole seconds, and no more; from 10^9 + 2 seconds on, the ticks between them add up. */
  lemma ResetsInSeconds(seconds: nat)
    requires seconds >= 1
    ensures MostResets(seconds * SECOND) <= seconds
    ensures MostResets(seconds * SECOND) == seconds <==> seconds <= SECOND + 1
  {
  }

  lemma CeilingSum(seconds: nat, limit: nat, extra: nat)
    ensures seconds * (limit + extra) + limit == (seconds + 1) * limit + seconds * extra
  {
  }

  lemma CeilingFrom(r: nat, seconds: nat, limit: nat, extra: nat, amount: nat)
    requires r <= seconds && amount <= r * (limit + extra) + limit
    ensures amount <= (seconds + 1) * limit + seconds * extra
  {
    TimesGrow(r, seconds, limit + extra);
    CeilingSum(seconds, limit, extra);
  }

  /**
   A connection that is not killed gets at most (T+1)*L + T messages and (T+1)*B + T*M bytes through
   in any closed interval of T whole seconds, T >= 1.
   */
  lemma RateCeiling(limits: Limits, max: nat, t0: int, run: seq<Arrival>, lo: int, seconds: nat)
    requires InOrder(t0, run) && After(limits, t0, run).Some? && seconds >= 1
    requires forall i :: 0 <= i < |run| ==> run[i].size <= max
    ensures var hi := lo + seconds * SECOND;
            CountIn(run, lo, hi) <= (seconds + 1) * limits.messages + seconds
            && BytesIn(run, lo, hi) <= (seconds + 1) * limits.bytes + seconds * max
  {
    var length := seconds * SECOND;
    var r := MostResets(length);
    Ceiling(limits, max, t0, run, lo, length);
    ResetsInSeconds(seconds);
    CeilingFrom(r, seconds, limits.messages, 1, CountIn(run, lo, lo + length));
    CapGrows(r, Cap(limits, max), limits.bytes, max);
    CeilingFrom(r, seconds, limits.bytes, max, BytesIn(run, lo, lo + length));
  }

  lemma CapGrows(r: nat, cap: nat, bytes: nat, max: nat)
    requires cap <= bytes
    ensures r * (cap + max) + cap <= r * (bytes + max) + bytes
  {
    TimesGrow(cap + max, bytes + max, r);
  }

  lemma TimesGrowStrictly(x: nat, y: nat, k: nat)
    requires x < y && k > 0
    ensures x * k < y * k
  {
  }

  /**
   When the bound in whole seconds is the exact ceiling: for messages up to 10^9 + 1 seconds, and for bytes if
   also as many messages as the limit allows can carry as many bytes as the limit allows.
   */
  lemma RateCeilingIsExactIff(limits: Limits, max: nat, seconds: nat)
    requires seconds >= 1
    ensures var r := MostResets(seconds * SECOND); var cap := Cap(limits, max);
            (r * (limits.messages + 1) + limits.messages == (seconds + 1) * limits.messages + seconds <==> seconds <= SECOND + 1)
            && (r * (cap + max) + cap == (seconds + 1) * limits.bytes + seconds * max
                <==> limits.bytes <= limits.messages * max && (seconds <= SECOND + 1 || max == 0))
  {
    var r, cap := MostResets(seconds * SECOND), Cap(limits, max);
    ResetsInSeconds(seconds);
    CeilingSum(seconds, limits.messages, 1);
    CeilingSum(seconds, limits.bytes, max);
    if r < seconds {
      TimesGrowStrictly(r, seconds, limits.messages + 1);
    }
    if cap < limits.bytes {
      TimesGrow(r, seconds, cap + max);
      TimesGrow(cap + max, limits.bytes + max, seconds);
    } else if r < seconds && max > 0 {
      TimesGrowStrictly(r, seconds, cap + max);
    }
  }

  // ---------------------------------------------------------------- no false kill

  /** What the counters hold came after the window opened. */
  lemma {:induction false} CountersAreRecent(limits: Limits, t0: int, run: seq<Arrival>, hi: int)
    requires InOrder(t0, run) && After(limits, t0, run).Some?
    requires forall i :: 0 <= i < |run| ==> run[i].time <= hi
    ensures var l := After(limits, t0, run).value;
            l.messages <= CountIn(run, l.start, hi) && l.bytes <= BytesIn(run, l.start, hi)
            && t0 <= l.start && (l.start == t0 || exists i :: 0 <= i < |run| && run[i].time == l.start)
  {
    if run != [] {
      var init, a := run[..|run| - 1], run[|run| - 1];
      CountersAreRecent(limits, t0, init, hi);
      var l := After(limits, t0, init).value;
      if l.start != t0 {
        var i :| 0 <= i < |init| && init[i].time == l.start;
        assert run[i].time == l.start;
      }
      if Overflows(limits, Counted(l, a)) {
        assert run[|run| - 1].time == After(limits, t0, run).value.start;
      }
    }
  }

  /** The client keeps to the limits in the closed second from x on. */
  predicate CalmFrom(limits: Limits, run: seq<Arrival>, x: int) {
    CountIn(run, x, x + SECOND) <= limits.messages && BytesIn(run, x, x + SECOND) <= limits.bytes
  }

  ghost predicate Polite(limits: Limits, run: seq<Arrival>) {
    forall x: int :: CalmFrom(limits, run, x)
  }

  lemma {:induction false} PrefixCounts(run: seq<Arrival>, lo: int, hi: int)
    requires run != []
    ensures CountIn(run[..|run| - 1], lo, hi) <= CountIn(run, lo, hi)
    ensures BytesIn(run[..|run| - 1], lo, hi) <= BytesIn(run, lo, hi)
  {
  }

  /** A client that keeps to the limits in every closed second is never killed, however long the run. */
  lemma {:induction false} PoliteIsNeverKilled(limits: Limits, t0: int, run: seq<Arrival>)
    requires InOrder(t0, run) && Polite(limits, run)
    ensures After(limits, t0, run).Some?
    decreases |run|
  {
    if run != [] {
      var init, a := run[..|run| - 1], run[|run| - 1];
      forall x: int
        ensures CalmFrom(limits, init, x)
      {
        assert CalmFrom(limits, run, x);
        PrefixCounts(run, x, x + SECOND);
      }
      PoliteIsNeverKilled(limits, t0, init);
      var l := After(limits, t0, init).value;
      assert CalmFrom(limits, run, l.start);
      if Admit(limits, l, a).None? {
        CountersAreRecent(limits, t0, init, l.start + SECOND);
      }
    }
  }

  // ---------------------------------------------------------------- the ceiling is reached

  /** The bytes of the first n messages of a window that is filled as early as its cap allows. */
  function Filled(max: nat, cap: nat, n: nat): (r: nat)
    ensures r <= cap
  {
    if n * max <= cap then n * max else cap
  }

  lemma FillSize(max: nat, cap: nat, n: nat)
    requires n > 0
    ensures 0 <= Filled(max, cap, n) - Filled(max, cap, n - 1) <= max
  {
    assert n * max == (n - 1) * max + max;
  }

  function FillOne(time: int, max: nat, cap: nat, n: nat): Arrival
    requires n > 0
  {
    FillSize(max, cap, n);
    Arrival(time, Filled(max, cap, n) - Filled(max, cap, n - 1))
  }

  /** A run, and n more messages at one time. */
  function Fill(run: seq<Arrival>, time: int, max: nat, cap: nat, n: nat): seq<Arrival> {
    if n == 0 then run else Fill(run, time, max, cap, n - 1) + [FillOne(time, max, cap, n)]
  }

  /** n bursts, just over a second apart, of a full window and one message more. */
  function Bursts(limits: Limits, max: nat, n: nat): seq<Arrival> {
    if n == 0 then []
    else
      var time := (n - 1) * GAP;
      Fill(Bursts(limits, max, n - 1), time, max, Cap(limits, max), limits.messages) + [Arrival(time, max)]
  }

  lemma Append(run: seq<Arrival>, a: Arrival)
    ensures (run + [a])[..|run + [a]| - 1] == run && (run + [a])[|run + [a]| - 1] == a
  {
  }

  lemma {:induction false} FillAfter(limits: Limits, max: nat, t0: int, run: seq<Arrival>, start: int, time: int, n: nat)
    requires After(limits, t0, run) == Some(Limiter(start, 0, 0)) && n <= limits.messages
    ensures var cap := Cap(limits, max);
            After(limits, t0, Fill(run, time, max, cap, n)) == Some(Limiter(start, n, Filled(max, cap, n)))
    decreases n
  {
    var cap := Cap(limits, max);
    if n > 0 {
      FillAfter(limits, max, t0, run, start, time, n - 1);
      FillSize(max, cap, n);
      Append(Fill(run, time, max, cap, n - 1), FillOne(time, max, cap, n));
    }
  }

  /** A full window more than a second old lets one message more through, and is reset by it. */
  lemma {:induction false} BurstsAfter(limits: Limits, max: nat, n: nat)
    ensures After(limits, -GAP, Bursts(limits, max, n)) == Some(Limiter((n - 1) * GAP, 0, 0))
    decreases n
  {
    if n > 0 {
      var time := (n - 1) * GAP;
      BurstsAfter(limits, max, n - 1);
      FillAfter(limits, max, -GAP, Bursts(limits, max, n - 1), (n - 2) * GAP, time, limits.messages);
      Append(Fill(Bursts(limits, max, n - 1), time, max, Cap(limits, max), limits.messages), Arrival(time, max));
      assert time - (n - 2) * GAP == GAP;
    }
  }

  /** The run lies between lo and hi, in order, with messages of at most the given size. */
  predicate Fits(run: seq<Arrival>, lo: int, hi: int, max: nat) {
    (forall i :: 0 <= i < |run| ==> Within(run[i], lo, hi) && run[i].size <= max)
    && forall i, j :: 0 <= i < j < |run| ==> run[i].time <= run[j].time
  }

  lemma AppendFits(run: seq<Arrival>, lo: int, hi: int, max: nat, a: Arrival)
    requires Fits(run, lo, hi, max) && lo <= a.time && hi <= a.time && a.size <= max
    ensures Fits(run + [a], lo, a.time, max)
  {
  }

  lemma {:induction false} FillFits(run: seq<Arrival>, lo: int, hi: int, time: int, max: nat, cap: nat, n: nat)
    requires Fits(run, lo, hi, max) && lo <= time && hi <= time
    ensures Fits(Fill(run, time, max, cap, n), lo, time, max)
    decreases n
  {
    if n > 0 {
      FillFits(run, lo, hi, time, max, cap, n - 1);
      FillSize(max, cap, n);
      AppendFits(Fill(run, time, max, cap, n - 1), lo, time, max, FillOne(time, max, cap, n));
    }
  }

  lemma {:induction false} BurstsFit(limits: Limits, max: nat, n: nat)
    ensures Fits(Bursts(limits, max, n), 0, if n == 0 then 0 else (n - 1) * GAP, max)
    decreases n
  {
    if n > 0 {
      var time := (n - 1) * GAP;
      BurstsFit(limits, max, n - 1);
      FillFits(Bursts(limits, max, n - 1), 0, if n == 1 then 0 else (n - 2) * GAP, time, max, Cap(limits, max), limits.messages);
      AppendFits(Fill(Bursts(limits, max, n - 1), time, max, Cap(limits, max), limits.messages), 0, time, max, Arrival(time, max));
    }
  }

  lemma AppendCounts(run: seq<Arrival>, a: Arrival, lo: int, hi: int)
    requires Within(a, lo, hi)
    ensures CountIn(run + [a], lo, hi) == CountIn(run, lo, hi) + 1
    ensures BytesIn(run + [a], lo, hi) == BytesIn(run, lo, hi) + a.size
  {
    Append(run, a);
  }

  lemma {:induction false} FillCounts(run: seq<Arrival>, time: int, max: nat, cap: nat, n: nat, lo: int, hi: int)
    requires lo <= time <= hi
    ensures var all := Fill(run, time, max, cap, n);
            CountIn(all, lo, hi) == CountIn(run, lo, hi) + n
            && BytesIn(all, lo, hi) == BytesIn(run, lo, hi) + Filled(max, cap, n)
    decreases n
  {
    if n > 0 {
      FillCounts(run, time, max, cap, n - 1, lo, hi);
      FillSize(max, cap, n);
      AppendCounts(Fill(run, time, max, cap, n - 1), FillOne(time, max, cap, n), lo, hi);
    }
  }

  lemma {:induction false} BurstsCount(limits: Limits, max: nat, n: nat, hi: int)
    requires n > 0 ==> (n - 1) * GAP <= hi
    ensures var all := Bursts(limits, max, n);
            CountIn(all, 0, hi) == n * (limits.messages + 1)
            && BytesIn(all, 0, hi) == n * (Cap(limits, max) + max)
    decreases n
  {
    if n > 0 {
      var time, cap := (n - 1) * GAP, Cap(limits, max);
      BurstsCount(limits, max, n - 1, hi);
      FillCounts(Bursts(limits, max, n - 1), time, max, cap, limits.messages, 0, hi);
      AppendCounts(Fill(Bursts(limits, max, n - 1), time, max, cap, limits.messages), Arrival(time, max), 0, hi);
      OneMore(n, limits.messages + 1);
      OneMore(n, cap + max);
    }
  }

  /** r bursts, and one full window more. */
  function FullRun(limits: Limits, max: nat, r: nat): seq<Arrival> {
    Fill(Bursts(limits, max, r), (r - 1) * GAP, max, Cap(limits, max), limits.messages)
  }

  lemma FullRunPasses(limits: Limits, max: nat, r: nat)
    requires r > 0
    ensures After(limits, -GAP, FullRun(limits, max, r)).Some?
    ensures Fits(FullRun(limits, max, r), 0, (r - 1) * GAP, max)
  {
    var time := (r - 1) * GAP;
    BurstsAfter(limits, max, r);
    FillAfter(limits, max, -GAP, Bursts(limits, max, r), time, time, limits.messages);
    BurstsFit(limits, max, r);
    FillFits(Bursts(limits, max, r), 0, time, time, max, Cap(limits, max), limits.messages);
  }

  lemma FullRunCounts(limits: Limits, max: nat, r: nat, length: nat)
    requires r > 0 && (r - 1) * GAP <= length
    ensures var run := FullRun(limits, max, r); var cap := Cap(limits, max);
            CountIn(run, 0, length) == r * (limits.messages + 1) + limits.messages
            && BytesIn(run, 0, length) == r * (cap + max) + cap
  {
    BurstsCount(limits, max, r, length);
    FillCounts(Bursts(limits, max, r), (r - 1) * GAP, max, Cap(limits, max), limits.messages, 0, length);
  }

  /**
   The ceiling cannot be lowered: for all limits, message sizes and lengths some run that is not killed
   reaches it, for messages and bytes at once.
   */
  lemma CeilingIsReached(limits: Limits, max: nat, length: nat) returns (run: seq<Arrival>)
    ensures InOrder(-GAP, run) && After(limits, -GAP, run).Some?
    ensures forall i :: 0 <= i < |run| ==> run[i].size <= max
    ensures var r := MostResets(length); var cap := Cap(limits, max);
            CountIn(run, 0, length) == r * (limits.messages + 1) + limits.messages
            && BytesIn(run, 0, length) == r * (cap + max) + cap
  {
    var r := MostResets(length);
    FullRunPasses(limits, max, r);
    FullRunCounts(limits, max, r, length);
    run := FullRun(limits, max, r);
  }
}
