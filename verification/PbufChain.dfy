/** Chains of pool pbufs in SW_stub/lwtcp/pbuf.c: how pbuf_alloc() sizes them and how pbuf_realloc() shortens them. */
module PbufChain {
  import opened Bytes
  import opened SeqNum

  const BUFSIZE: nat := 128   // PBUF_POOL_BUFSIZE

  datatype Layer = Transport | Ip | Link | Raw

  /** Room for the headers of the layers below: PBUF_TRANSPORT_HLEN, PBUF_IP_HLEN and PBUF_LINK_HLEN. */
  function Offset(l: Layer): nat {
    match l
    case Transport => 20 + 20 + 16
    case Ip => 20 + 16
    case Link => 0
    case Raw => 0
  }

  function Sum(lens: seq<nat>): nat {
    if lens == [] then 0 else lens[0] + Sum(lens[1..])
  }

  lemma {:induction false} SumAppend(lens: seq<nat>, n: nat)
    ensures Sum(lens + [n]) == Sum(lens) + n
    decreases |lens|
  {
    if lens != [] {
      assert (lens + [n])[1..] == lens[1..] + [n];
      SumAppend(lens[1..], n);
    } else {
      assert lens + [n] == [n];
    }
  }

  /** The number of pbufs that hold size bytes when the first has to leave room for headers. */
  function Needed(size: nat, offset: nat): nat
    requires offset < BUFSIZE
  {
    if size <= BUFSIZE - offset then 1 else 1 + (size - (BUFSIZE - offset) + BUFSIZE - 1) / BUFSIZE
  }

  /** The lengths add up to size; the first leaves room for the headers, and all but the last are full. */
  ghost predicate Fits(lens: seq<nat>, size: nat, offset: nat) {
    && lens != [] && Sum(lens) == size
    && lens[0] <= BUFSIZE - offset
    && (forall k :: 0 < k < |lens| ==> 0 < lens[k] <= BUFSIZE)
    && (|lens| > 1 ==> lens[0] == BUFSIZE - offset)
    && (forall k :: 0 < k < |lens| - 1 ==> lens[k] == BUFSIZE)
  }

  /** pbuf_alloc() from a pool that yields avail pbufs before it runs out: it succeeds exactly when that is enough,
      takes no more than it needs, and gives the chain it has back when it fails. */
  method AllocPool(l: Layer, size: u16, avail: nat) returns (ok: bool, lens: seq<nat>, taken: nat)
    ensures ok <==> avail >= Needed(size, Offset(l))
    ensures ok ==> Fits(lens, size, Offset(l)) && |lens| == taken == Needed(size, Offset(l))
    ensures !ok ==> lens == [] && taken == avail
  {
    var offset := Offset(l);
    var n: int := size;
    if avail == 0 {
      return false, [], 0;
    }
    taken := 1;
    var first: nat := if n > BUFSIZE - offset then BUFSIZE - offset else n;
    lens := [first];
    var rsize := n - first;
    assert lens[1..] == [] && Sum(lens) == first + Sum([]);
    while rsize > 0
      invariant 1 <= taken == |lens| <= avail
      invariant lens[0] == first && (rsize > 0 ==> forall k :: 0 < k < |lens| ==> lens[k] == BUFSIZE)
      invariant forall k :: 0 < k < |lens| ==> 0 < lens[k] <= BUFSIZE
      invariant forall k :: 0 < k < |lens| - 1 ==> lens[k] == BUFSIZE
      invariant Sum(lens) == n - if rsize > 0 then rsize else 0
      invariant rsize == n - first - (taken as int - 1) * BUFSIZE && rsize + BUFSIZE > 0
    {
      if taken == avail {
        NeedsMore(n, first, taken, offset);
        return false, [], taken;
      }
      var len: nat := if rsize > BUFSIZE then BUFSIZE else rsize;
      SumAppend(lens, len);
      lens := lens + [len];
      taken := taken + 1;
      rsize := rsize - BUFSIZE;
    }
    NeedsThat(n, first, taken, offset);
    ok := true;
  }

  lemma NeedsMore(size: nat, first: nat, taken: nat, offset: nat)
    requires offset < BUFSIZE && first == (if size > BUFSIZE - offset then BUFSIZE - offset else size)
    requires taken > 0 && size - first - (taken as int - 1) * BUFSIZE > 0
    ensures Needed(size, offset) > taken
  {
  }

  lemma NeedsThat(size: nat, first: nat, taken: nat, offset: nat)
    requires offset < BUFSIZE && first == (if size > BUFSIZE - offset then BUFSIZE - offset else size)
    requires taken > 0 && 0 < size - first - (taken as int - 2) * BUFSIZE &&
             size - first - (taken as int - 1) * BUFSIZE <= 0
    ensures Needed(size, offset) == taken
  {
  }

  // ----- pbuf_realloc()

  /** pbuf_realloc() on a chain of pool pbufs, whose tot_len is the number of bytes in it: what stays is exactly the
      first size bytes, in the pbufs they were in; the others are freed. */
  method Realloc(chain: seq<seq<byte>>, size: u16) returns (kept: seq<seq<byte>>, ghost freed: seq<seq<byte>>)
    requires chain != []
    ensures size < |Flatten(chain)| ==> Flatten(kept) == Flatten(chain)[..size]
    ensures size >= |Flatten(chain)| ==> kept == chain && freed == []
    ensures 0 < |kept| && |kept| + |freed| == |chain| && freed == chain[|kept|..]
    ensures forall k :: 0 <= k < |kept| - 1 ==> kept[k] == chain[k]
    ensures kept[|kept| - 1] <= chain[|kept| - 1]
  {
    hide Flatten;
    if |Flatten(chain)| <= size {
      return chain, [];
    }
    FlattenNone(chain);
    var rsize: nat := size;
    var i := 0;
    while rsize > |chain[i]|
      invariant i < |chain| && rsize + |Flatten(chain[..i])| == size
      decreases |chain| - i
    {
      FlattenTurn(chain, i);
      rsize := rsize - |chain[i]|;
      i := i + 1;
    }
    kept := chain[..i] + [chain[i][..rsize]];
    freed := chain[i + 1..];
    KeptIs(chain, i, rsize);
  }

  lemma FlattenNone(chain: seq<seq<byte>>)
    ensures |Flatten(chain[..0])| == 0
  {
  }

  lemma FlattenTurn(chain: seq<seq<byte>>, i: nat)
    requires i < |chain|
    ensures |Flatten(chain[..i + 1])| == |Flatten(chain[..i])| + |chain[i]|
    ensures i + 1 == |chain| ==> |Flatten(chain[..i + 1])| == |Flatten(chain)|
  {
    FlattenAppend(chain[..i], chain[i]);
    assert chain[..i] + [chain[i]] == chain[..i + 1];
    assert chain[..|chain|] == chain;
  }

  lemma KeptIs(chain: seq<seq<byte>>, i: nat, rsize: nat)
    requires i < |chain| && rsize <= |chain[i]|
    ensures rsize + |Flatten(chain[..i])| <= |Flatten(chain)|
    ensures Flatten(chain[..i] + [chain[i][..rsize]]) == Flatten(chain)[..rsize + |Flatten(chain[..i])|]
  {
    FlattenSplit(chain, i);
    FlattenAppend(chain[..i], chain[i][..rsize]);
    assert chain[i..][1..] == chain[i + 1..];
    assert Flatten(chain[i..]) == chain[i] + Flatten(chain[i + 1..]);
  }
}
