/** The ring of messages inside a mailbox: the critical sections of sys_mbox_post() and sys_arch_mbox_fetch() in
    SW_stub/lwtcp/sys_arch.c. */
module Mailbox {
  type Block = nat

  const SIZE: nat := 100

  /** An index after its increment. */
  function Inc(i: nat): (r: nat)
    requires i < SIZE
    ensures r < SIZE
  {
    if i + 1 == SIZE then 0 else i + 1
  }

  /** The slot k places after first. */
  function Slot(first: nat, k: nat): (r: nat)
    requires first < SIZE && k < SIZE
    ensures r < SIZE
  {
    if first + k < SIZE then first + k else first + k - SIZE
  }

  function Count(first: nat, last: nat): (r: nat)
    requires first < SIZE && last < SIZE
    ensures r < SIZE && Slot(first, r) == last
  {
    if first <= last then last - first else last + SIZE - first
  }

  /** The messages in the ring, oldest first. */
  function Ring(msgs: seq<Block>, first: nat, last: nat): (r: seq<Block>)
    requires |msgs| == SIZE && first < SIZE && last < SIZE
    ensures |r| == Count(first, last)
  {
    seq(Count(first, last), k requires 0 <= k < Count(first, last) => msgs[Slot(first, k)])
  }

  /** Writing the slot at last does not touch the messages in the ring. */
  lemma StoreIs(msgs: seq<Block>, first: nat, last: nat, b: Block)
    requires |msgs| == SIZE && first < SIZE && last < SIZE
    ensures Ring(msgs[last := b], first, last) == Ring(msgs, first, last)
  {
  }

  /** Moving last on adds the message stored there, exactly when fewer than 99 are in the ring. With 99 the ring comes
      to look empty. */
  lemma AdvanceIs(msgs: seq<Block>, first: nat, last: nat)
    requires |msgs| == SIZE && first < SIZE && last < SIZE
    ensures Ring(msgs, first, Inc(last)) == Ring(msgs, first, last) + [msgs[last]] <==> Count(first, last) < 99
    ensures Count(first, last) == 99 ==> Ring(msgs, first, Inc(last)) == []
  {
    if Count(first, last) < 99 {
      assert Count(first, Inc(last)) == Count(first, last) + 1;
    }
  }

  lemma TakeIs(msgs: seq<Block>, first: nat, last: nat)
    requires |msgs| == SIZE && first < SIZE && last < SIZE && first != last
    ensures Ring(msgs, first, last) == [msgs[first]] + Ring(msgs, Inc(first), last)
  {
    var n := Count(first, last);
    assert Count(Inc(first), last) == n - 1;
    forall k | 0 < k < n ensures Slot(first, k) == Slot(Inc(first), k - 1) {
    }
  }

  class Mbox {
    const msgs: array<Block>
    var first: nat
    var last: nat

    ghost predicate Valid()
      reads this
    {
      msgs.Length == SIZE && first < SIZE && last < SIZE
    }

    function Contents(): seq<Block>
      requires Valid()
      reads this, msgs
    {
      Ring(msgs[..], first, last)
    }

    /** sys_mbox_new(). */
    constructor ()
      ensures Valid() && fresh(msgs) && Contents() == []
    {
      msgs := new Block[SIZE];
      first, last := 0, 0;
    }

    /** sys_mbox_post() between taking and releasing the mutex; signal says whether the waiting thread is woken. */
    method Post(msg: Block) returns (signal: bool)
      requires Valid()
      modifies this`last, msgs
      ensures Valid() && signal == (old(Contents()) == [])
      ensures |old(Contents())| < 99 <==> Contents() == old(Contents()) + [msg]
      ensures |old(Contents())| == 99 ==> Contents() == []
    {
      hide Ring;
      ghost var before := msgs[..];
      msgs[last] := msg;
      StoreIs(before, first, last, msg);
      assert msgs[..] == before[last := msg];
      signal := last == first;
      AdvanceIs(msgs[..], first, last);
      last := last + 1;
      if last == SIZE {
        last := 0;
      }
    }

    /** sys_arch_mbox_fetch() once it holds the mutex: nothing, or the oldest message. */
    method Fetch() returns (found: bool, msg: Block)
      requires Valid()
      modifies this`first
      ensures Valid() && found == (old(Contents()) != [])
      ensures found ==> old(Contents()) == [msg] + Contents()
      ensures !found ==> Contents() == old(Contents())
    {
      hide Ring;
      if first == last {
        return false, 0;
      }
      TakeIs(msgs[..], first, last);
      found, msg := true, msgs[first];
      first := first + 1;
      if first == SIZE {
        first := 0;
      }
    }
  }
}
