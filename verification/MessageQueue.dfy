/** The queue of outgoing messages, which keeps the newest message at the front of its list. */
module MessageQueues {
  import opened ClusterFraming

  function Reversed(s: seq<Bytes>): seq<Bytes> {
    if s == [] then [] else Reversed(s[1..]) + [s[0]]
  }

  function TotalSize(s: seq<Bytes>): nat {
    if s == [] then 0 else |s[0]| + TotalSize(s[1..])
  }

  lemma {:induction false} ReversedLast(s: seq<Bytes>)
    requires s != []
    ensures Reversed(s) == [s[|s| - 1]] + Reversed(s[..|s| - 1])
  {
    if |s| == 1 {
      assert s[1..] == [] && s[..0] == [];
    } else {
      ReversedLast(s[1..]);
      assert s[1..][..|s| - 2] == s[..|s| - 1][1..];
    }
  }

  lemma {:induction false} TotalSizeLast(s: seq<Bytes>)
    requires s != []
    ensures TotalSize(s) == TotalSize(s[..|s| - 1]) + |s[|s| - 1]|
  {
    if |s| == 1 {
      assert s[1..] == [] && s[..0] == [];
    } else {
      TotalSizeLast(s[1..]);
      assert s[1..][..|s| - 2] == s[..|s| - 1][1..];
    }
  }

  class MessageQueue {
    var list: seq<Bytes>
    var totalSize: nat

    /** The byte count is always the sum of the queued sizes. */
    ghost predicate Valid()
      reads this
    {
      totalSize == TotalSize(list)
    }

    /** The messages in the order they leave. */
    ghost function Contents(): seq<Bytes>
      reads this
    {
      Reversed(list)
    }

    constructor ()
      ensures Valid() && Contents() == []
    {
      list, totalSize := [], 0;
    }

    method Push(message: Bytes)
      requires Valid()
      modifies this
      ensures Valid() && Contents() == old(Contents()) + [message]
    {
      list := [message] + list;
      assert list[1..] == old(list);
      totalSize := totalSize + |list[0]|;
    }

    method TryPop() returns (found: bool, message: Bytes)
      requires Valid()
      modifies this
      ensures Valid() && found == (old(Contents()) != [])
      ensures found ==> old(Contents()) == [message] + Contents()
      ensures !found ==> Contents() == old(Contents())
    {
      if list == [] {
        return false, [];
      }
      ReversedLast(list);
      TotalSizeLast(list);
      message := list[|list| - 1];
      list := list[..|list| - 1];
      totalSize := totalSize - |message|;
      found := true;
    }

    method Clear()
      modifies this
      ensures Valid() && Contents() == []
    {
      list := [];
      totalSize := 0;
    }
  }
}
