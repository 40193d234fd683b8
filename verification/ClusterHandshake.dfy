/** Exactly which ways of cutting the peer's handshake into chunks make it succeed. */
module ClusterHandshake {
  import opened ClusterFraming
  import opened ClusterNode

  /** What successive handshake reads of the given chunks come to. */
  function GreetChunks(chunks: seq<Bytes>): Greeting {
    if chunks == [] then Greeting(Waiting, 0, [])
    else
      var g := GreetChunks(chunks[..|chunks| - 1]);
      if g.verdict.Waiting? then Greet(g.len, g.buffer + chunks[|chunks| - 1]) else g
  }

  /** Some chunk ends after exactly `total` bytes. */
  predicate EndsAt(chunks: seq<Bytes>, total: nat) {
    exists j :: 0 < j <= |chunks| && |Concat(chunks[..j])| == total
  }

  /** The first chunk holds a whole, non-zero length. */
  predicate Opens(chunks: seq<Bytes>) {
    chunks != [] && |chunks[0]| >= 4 && FromLittle(chunks[0]) != 0
  }

  lemma EndsAtMore(init: seq<Bytes>, c: Bytes, total: nat)
    ensures EndsAt(init + [c], total) <==> EndsAt(init, total) || |Concat(init + [c])| == total
  {
    var chunks := init + [c];
    assert forall j :: 0 < j <= |init| ==> chunks[..j] == init[..j];
    assert chunks[..|chunks|] == chunks;
  }

  /** What the state of a handshake says about the chunks read. */
  predicate Described(chunks: seq<Bytes>, g: Greeting)
    requires Opens(chunks)
  {
    var n := FromLittle(chunks[0]);
    var all := Concat(chunks);
    |all| >= 4 && FromLittle(all) == n
    && (g.verdict.Waiting? <==> |all| < 4 + n)
    && (g.verdict.Waiting? ==> g.len == n && g.buffer == all[4..])
    && (g.verdict.Complete? <==> EndsAt(chunks, 4 + n))
  }

  lemma GreetFirst(c: Bytes)
    ensures if Opens([c]) then Described([c], Greet(0, [] + c)) else Greet(0, [] + c).verdict.Refused?
  {
    assert [c][..0] == [] && Concat([c]) == [] + c == c;
    if Opens([c]) {
      EndsAtMore([], c, 4 + FromLittle(c));
    }
  }

  lemma GreetMore(init: seq<Bytes>, c: Bytes, g: Greeting)
    requires Opens(init) && Described(init, g)
    ensures Described(init + [c], if g.verdict.Waiting? then Greet(g.len, g.buffer + c) else g)
  {
    var chunks := init + [c];
    var n := FromLittle(init[0]);
    assert chunks[..|chunks| - 1] == init && Concat(chunks) == Concat(init) + c;
    assert init[..|init|] == init;
    EndsAtMore(init, c, 4 + n);
    NoEndBelow(init, 4 + n);
    assert Concat(chunks)[4..] == Concat(init)[4..] + c;
  }

  /** As long as the handshake is waiting, all it has read is held; otherwise it hit its end or went past. */
  lemma {:induction false} GreetState(chunks: seq<Bytes>)
    requires chunks != []
    ensures if Opens(chunks) then Described(chunks, GreetChunks(chunks)) else GreetChunks(chunks).verdict.Refused?
    decreases |chunks|
  {
    var init, c := chunks[..|chunks| - 1], chunks[|chunks| - 1];
    assert init + [c] == chunks;
    if init == [] {
      assert chunks == [c];
      GreetFirst(c);
    } else {
      GreetState(init);
      if Opens(init) {
        GreetMore(init, c, GreetChunks(init));
      }
    }
  }

  lemma {:induction false} ConcatGrows(chunks: seq<Bytes>, j: nat)
    requires j <= |chunks|
    ensures |Concat(chunks[..j])| <= |Concat(chunks)|
    decreases |chunks|
  {
    if j == |chunks| {
      assert chunks[..j] == chunks;
    } else {
      var init := chunks[..|chunks| - 1];
      ConcatGrows(init, j);
      assert init[..j] == chunks[..j];
    }
  }

  lemma NoEndBelow(chunks: seq<Bytes>, total: nat)
    ensures |Concat(chunks)| < total ==> !EndsAt(chunks, total)
  {
    if |Concat(chunks)| < total && EndsAt(chunks, total) {
      var j :| 0 < j <= |chunks| && |Concat(chunks[..j])| == total;
      ConcatGrows(chunks, j);
    }
  }

  /**
   The handshake completes exactly when the first chunk holds the whole length, that length is not
   zero, and some chunk ends exactly with the handshake.
   */
  lemma HandshakeCompletesIff(chunks: seq<Bytes>)
    ensures GreetChunks(chunks).verdict.Complete?
            <==> Opens(chunks) && EndsAt(chunks, 4 + FromLittle(chunks[0]))
  {
    if chunks != [] {
      GreetState(chunks);
    }
  }

  /** It is refused exactly when it is opened badly, or runs past its end without stopping there. */
  lemma HandshakeRefusedIff(chunks: seq<Bytes>)
    ensures GreetChunks(chunks).verdict.Refused?
            <==> chunks != [] && (!Opens(chunks)
                                  || (|Concat(chunks)| > 4 + FromLittle(chunks[0]) && !EndsAt(chunks, 4 + FromLittle(chunks[0]))))
  {
    if chunks != [] {
      GreetState(chunks);
      if Opens(chunks) && |Concat(chunks)| == 4 + FromLittle(chunks[0]) {
        assert chunks[..|chunks|] == chunks;
      }
    }
  }
}
