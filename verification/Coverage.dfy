/** Which bytes the out-of-sequence queue of tcp_receive() holds after an arrival, position by position: on the
    unbounded positions of Reassembly, to which the 32-bit code of SW_stub/lwtcp/tcp_input.c is refined. */
module Coverage {
  import opened SeqNum
  import opened Reassembly

  predicate Holds(p: Piece, k: int) {
    p.at <= k < p.End()
  }

  /** Some queued piece holds position k. */
  ghost predicate Covered(q: seq<Piece>, k: int) {
    exists i :: 0 <= i < |q| && Holds(q[i], k)
  }

  /** Position k was queued, and stays so when p comes: lost is what lies behind p in a piece that starts before p. */
  ghost predicate Kept(q: seq<Piece>, p: Piece, k: int) {
    exists i :: 0 <= i < |q| && Holds(q[i], k) && !(q[i].at < p.at && p.End() <= k)
  }

  ghost predicate StartsAt(q: seq<Piece>, at: nat) {
    exists i :: 0 <= i < |q| && q[i].at == at
  }

  /** Position k of p joins the queue: all of p if a piece with the same start is queued, and otherwise what lies before
      the next queued start. */
  ghost predicate Added(q: seq<Piece>, p: Piece, k: int) {
    Holds(p, k) && (StartsAt(q, p.at) || forall i :: 0 <= i < |q| && q[i].at > p.at ==> k < q[i].at)
  }

  lemma CoveredConcat(a: seq<Piece>, b: seq<Piece>, k: int)
    ensures Covered(a + b, k) <==> Covered(a, k) || Covered(b, k)
  {
    hide Holds;
    if Covered(a, k) {
      var i :| 0 <= i < |a| && Holds(a[i], k);
      assert Holds((a + b)[i], k);
    }
    if Covered(b, k) {
      var i :| 0 <= i < |b| && Holds(b[i], k);
      assert Holds((a + b)[|a| + i], k);
    }
  }

  lemma CoveredOne(p: Piece, k: int)
    ensures Covered([p], k) <==> Holds(p, k)
  {
    hide Holds;
    if Holds(p, k) {
      assert Holds([p][0], k);
    }
  }

  lemma CoveredPair(p: Piece, r: Piece, k: int)
    ensures Covered([p, r], k) <==> Holds(p, k) || Holds(r, k)
  {
    hide Holds, Covered;
    assert [p, r] == [p] + [r];
    CoveredConcat([p], [r], k);
    CoveredOne(p, k);
    CoveredOne(r, k);
  }

  // ----- In order

  lemma AboveHead(q: seq<Piece>, low: nat, stream: seq<byte>, k: int)
    requires QueueOk(q, low, stream) && q != [] && Covered(q, k)
    ensures k >= q[0].at
  {
    var i :| 0 <= i < |q| && Holds(q[i], k);
    if i > 0 {
      QueueSorted(q, 0, i, low, stream);
    }
  }

  lemma {:induction false} DrainCovers(r: Receiver, low: nat, stream: seq<byte>, k: int)
    requires low <= r.next <= |stream| && r.window < TWO16
    requires QueueOk(r.queue, low, stream) && (r.queue != [] ==> r.next <= r.queue[0].at)
    ensures var r' := Drain(r).0; Covered(r'.queue, k) <==> Covered(r.queue, k) && k >= r'.next
    decreases |r.queue|
  {
    hide QueueOk, Covered;
    if r.queue != [] && r.queue[0].at == r.next {
      var head, rest := r.queue[0], r.queue[1..];
      assert r.queue == [head] + rest;
      QueueConcat([head], rest, low, stream);
      HeadOk(r.queue, low, stream);
      CoveredConcat([head], rest, k);
      CoveredOne(head, k);
      var r1 := Receiver(head.End(), Shrink(r.window, |head.data|), rest);
      DrainSafe(r1, low, stream);
      DrainCovers(r1, low, stream, k);
    } else if r.queue != [] && Covered(r.queue, k) {
      AboveHead(r.queue, low, stream, k);
    } else {
      NothingCovered(k);
    }
  }

  lemma NothingCovered(k: int)
    ensures !Covered([], k)
  {
  }

  lemma {:induction false} DrainWindow(r: Receiver, low: nat, stream: seq<byte>)
    requires low <= r.next <= |stream| && r.window < TWO16
    requires QueueOk(r.queue, low, stream) && (r.queue != [] ==> r.next <= r.queue[0].at)
    ensures var r' := Drain(r).0; r'.next >= r.next && r'.window == Shrink(r.window, r'.next - r.next)
    decreases |r.queue|
  {
    hide QueueOk;
    if r.queue != [] && r.queue[0].at == r.next {
      var head, rest := r.queue[0], r.queue[1..];
      assert r.queue == [head] + rest;
      QueueConcat([head], rest, low, stream);
      HeadOk(r.queue, low, stream);
      DrainWindow(Receiver(head.End(), Shrink(r.window, |head.data|), rest), low, stream);
    }
  }

  lemma HandUpCovers(r: Receiver, p: Piece, stream: seq<byte>, k: int)
    requires Inv(r, stream) && IsSlice(p, stream) && p.at == r.next && 0 < |p.data| <= MAX_LEN
    ensures var r' := HandUp(r, p).0;
            && (Covered(r'.queue, k) <==> Covered(r.queue, k) && k >= r'.next)
            && r'.next > r.next && r'.window == Shrink(r.window, r'.next - r.next)
  {
    hide QueueOk, Covered, Drain;
    CutIsSlice(p, stream);
    HeadOk(r.queue, r.next, stream);
    var p' := if r.queue != [] && p.at <= r.queue[0].at <= p.End() then CutEnd(p, r.queue[0].at) else p;
    var r1 := Receiver(p'.End(), Shrink(r.window, |p'.data|), r.queue);
    DrainCovers(r1, r.next, stream, k);
    DrainWindow(r1, r.next, stream);
  }

  // ----- Out of order

  lemma KeptConcat(a: seq<Piece>, b: seq<Piece>, p: Piece, k: int)
    ensures Kept(a + b, p, k) <==> Kept(a, p, k) || Kept(b, p, k)
  {
    hide Holds;
    if Kept(a, p, k) {
      var i :| 0 <= i < |a| && Holds(a[i], k) && !(a[i].at < p.at && p.End() <= k);
      assert Holds((a + b)[i], k);
    }
    if Kept(b, p, k) {
      var i :| 0 <= i < |b| && Holds(b[i], k) && !(b[i].at < p.at && p.End() <= k);
      assert Holds((a + b)[|a| + i], k);
    }
  }

  lemma KeptOne(x: Piece, p: Piece, k: int)
    ensures Kept([x], p, k) <==> Holds(x, k) && !(x.at < p.at && p.End() <= k)
  {
    hide Holds;
    if Holds(x, k) {
      assert Holds([x][0], k);
    }
  }

  /** A run of pieces that all end at or before p, or all start at or after it, stays as it is. */
  lemma KeptAll(q: seq<Piece>, p: Piece, k: int)
    requires forall i :: 0 <= i < |q| ==> q[i].End() <= p.at || q[i].at >= p.at
    ensures Kept(q, p, k) <==> Covered(q, k)
  {
    if Covered(q, k) {
      var i :| 0 <= i < |q| && Holds(q[i], k);
      assert !(q[i].at < p.at && p.End() <= k);
    }
  }

  /** The queue around the place of p: before are the pieces that end below its start, after those that start above. */
  lemma Around(q: seq<Piece>, i: nat, low: nat, stream: seq<byte>)
    requires QueueOk(q, low, stream) && i < |q|
    ensures forall j :: 0 <= j < i ==> q[j].End() <= q[i].at && q[j].at < q[i].at
    ensures forall j :: i < j < |q| ==> q[i].End() <= q[j].at && q[i].at < q[j].at
  {
    hide QueueOk;
    forall j | 0 <= j < i ensures q[j].End() <= q[i].at && q[j].at < q[i].at {
      QueueSorted(q, j, i, low, stream);
    }
    forall j | i < j < |q| ensures q[i].End() <= q[j].at && q[i].at < q[j].at {
      QueueSorted(q, i, j, low, stream);
    }
  }

  /** What joins the queue when no queued piece starts where p does and those behind it are c. */
  lemma AddedBefore(a: seq<Piece>, c: seq<Piece>, p: Piece, k: int)
    requires forall i :: 0 <= i < |a| ==> a[i].at < p.at
    requires forall i :: 0 <= i < |c| ==> p.at < c[0].at <= c[i].at
    ensures Added(a + c, p, k) <==> Holds(if c == [] then p else CutEnd(p, c[0].at), k)
  {
    var q := a + c;
    assert forall i :: 0 <= i < |q| ==> q[i].at != p.at;
    if c != [] {
      assert q[|a|].at == c[0].at;
    }
  }

  lemma {:induction false} SortedFrom(c: seq<Piece>, low: nat, stream: seq<byte>)
    requires QueueOk(c, low, stream)
    ensures forall i :: 0 <= i < |c| ==> c[0].at <= c[i].at
  {
    forall i | 0 <= i < |c| ensures c[0].at <= c[i].at {
      if i > 0 {
        QueueSorted(c, 0, i, low, stream);
      }
    }
  }

  /** p goes between the last piece that starts before it, which is cut, and those that start after it. */
  lemma SpliceCovers(a: seq<Piece>, x: Piece, c: seq<Piece>, p: Piece, low: nat, stream: seq<byte>, k: int)
    requires QueueOk(a + [x] + c, low, stream) && x.at < p.at && (c != [] ==> p.at < c[0].at)
    ensures var r := if c == [] then p else CutEnd(p, c[0].at);
            Covered(a + [CutEnd(x, p.at), r] + c, k) <==> Kept(a + [x] + c, p, k) || Added(a + [x] + c, p, k)
  {
    hide QueueOk, Covered, Kept, Added;
    var l, r := CutEnd(x, p.at), if c == [] then p else CutEnd(p, c[0].at);
    CoveredConcat(a + [l, r], c, k);
    CoveredConcat(a, [l, r], k);
    CoveredPair(l, r, k);
    KeptConcat(a + [x], c, p, k);
    KeptConcat(a, [x], p, k);
    KeptOne(x, p, k);
    Neighbours(a, x, c, low, stream);
    KeptAll(a, p, k);
    KeptAll(c, p, k);
    AddedBefore(a + [x], c, p, k);
  }

  lemma Neighbours(a: seq<Piece>, x: Piece, c: seq<Piece>, low: nat, stream: seq<byte>)
    requires QueueOk(a + [x] + c, low, stream)
    ensures forall i :: 0 <= i < |a| ==> a[i].End() <= x.at && a[i].at < x.at
    ensures forall i :: 0 <= i < |c| ==> x.End() <= c[0].at <= c[i].at
  {
    hide QueueOk;
    var q := a + [x] + c;
    Around(q, |a|, low, stream);
    forall i | 0 <= i < |a| ensures a[i].End() <= x.at && a[i].at < x.at {
      assert q[i] == a[i];
    }
    QueueConcat(a + [x], c, low, stream);
    SortedFrom(c, low, stream);
  }

  /** The same when nothing queued starts before p. */
  lemma FrontCovers(c: seq<Piece>, p: Piece, low: nat, stream: seq<byte>, k: int)
    requires QueueOk(c, low, stream) && c != [] && p.at < c[0].at
    ensures Covered([CutEnd(p, c[0].at)] + c, k) <==> Kept(c, p, k) || Added(c, p, k)
  {
    hide QueueOk, Covered, Kept, Added;
    CoveredConcat([CutEnd(p, c[0].at)], c, k);
    CoveredOne(CutEnd(p, c[0].at), k);
    SortedFrom(c, low, stream);
    KeptAll(c, p, k);
    assert [] + c == c;
    AddedBefore([], c, p, k);
  }

  /** The same when a queued piece starts where p does: the longer of the two stays. */
  lemma ReplaceCovers(a: seq<Piece>, x: Piece, c: seq<Piece>, p: Piece, low: nat, stream: seq<byte>, k: int)
    requires QueueOk(a + [x] + c, low, stream) && x.at == p.at
    ensures var longer := if |p.data| > |x.data| then p else x;
            Covered(a + [longer] + c, k) <==> Kept(a + [x] + c, p, k) || Added(a + [x] + c, p, k)
  {
    hide QueueOk, Covered, Kept;
    var q, longer := a + [x] + c, if |p.data| > |x.data| then p else x;
    CoveredConcat(a + [longer], c, k);
    CoveredConcat(a, [longer], k);
    CoveredOne(longer, k);
    KeptConcat(a + [x], c, p, k);
    KeptConcat(a, [x], p, k);
    KeptOne(x, p, k);
    Neighbours(a, x, c, low, stream);
    KeptAll(a, p, k);
    KeptAll(c, p, k);
    assert q[|a|].at == p.at;
  }

  lemma {:induction false} PlaceCovers(q: seq<Piece>, i: nat, p: Piece, low: nat, stream: seq<byte>, k: int)
    requires i < |q| && QueueOk(q, low, stream) && (i > 0 ==> q[i - 1].at < p.at)
    ensures Covered(Place(q, i, p, true), k) <==> Kept(q, p, k) || Added(q, p, k)
    decreases |q| - i
  {
    hide QueueOk, Covered, Kept, Added;
    if p.at == q[i].at {
      assert q == q[..i] + [q[i]] + q[i + 1..];
      assert q[i := p] == q[..i] + [p] + q[i + 1..];
      ReplaceCovers(q[..i], q[i], q[i + 1..], p, low, stream, k);
    } else if i == 0 && p.at < q[0].at {
      FrontCovers(q, p, low, stream, k);
    } else if i > 0 && q[i - 1].at < p.at < q[i].at {
      assert q == q[..i - 1] + [q[i - 1]] + q[i..];
      SpliceCovers(q[..i - 1], q[i - 1], q[i..], p, low, stream, k);
    } else if i + 1 == |q| {
      assert q == q[..i] + [q[i]] + [];
      assert q[..i] + [CutEnd(q[i], p.at), p] + [] == q[..i] + [CutEnd(q[i], p.at), p];
      SpliceCovers(q[..i], q[i], [], p, low, stream, k);
    } else {
      PlaceCovers(q, i + 1, p, low, stream, k);
    }
  }

  lemma {:induction false} PlaceWithoutMemory(q: seq<Piece>, i: nat, p: Piece)
    requires i < |q|
    ensures Place(q, i, p, false) == q
    decreases |q| - i
  {
    if i + 1 < |q| {
      PlaceWithoutMemory(q, i + 1, p);
    }
  }

  lemma EnqueueCovers(q: seq<Piece>, p: Piece, alloc: bool, low: nat, stream: seq<byte>, k: int)
    requires QueueOk(q, low, stream)
    ensures alloc ==> (Covered(Enqueue(q, p, alloc), k) <==> Kept(q, p, k) || Added(q, p, k))
    ensures !alloc ==> Enqueue(q, p, alloc) == q
  {
    hide QueueOk, Place;
    if q == [] {
      CoveredOne(p, k);
    } else if alloc {
      PlaceCovers(q, 0, p, low, stream, k);
    } else {
      PlaceWithoutMemory(q, 0, p);
    }
  }

  // ----- Any arrival

  /** An arrival that is copied into the queue: beyond the next byte and inside the window, with memory for it. */
  predicate Queues(r: Receiver, p: Piece, alloc: bool) {
    alloc && p.data != [] && r.next < p.at < r.next + r.window
  }

  /** Which bytes are queued after an arrival.  When rcv_nxt moves, exactly those that were and that lie at or above its
      new place; when the segment is queued, those of Kept and Added; and otherwise the queue does not change. */
  lemma ArriveCovers(r: Receiver, p: Piece, alloc: bool, stream: seq<byte>, k: int)
    requires Inv(r, stream) && IsSlice(p, stream) && |p.data| <= MAX_LEN
    ensures var r' := Arrive(r, p, alloc).0;
            && (r'.next > r.next ==> (Covered(r'.queue, k) <==> Covered(r.queue, k) && k >= r'.next))
            && (Queues(r, p, alloc) ==>
                  r'.next == r.next && (Covered(r'.queue, k) <==> Kept(r.queue, p, k) || Added(r.queue, p, k)))
            && (r'.next == r.next && !Queues(r, p, alloc) ==> r' == r)
            && r'.next >= r.next && r'.window == Shrink(r.window, r'.next - r.next)
  {
    hide Covered, Kept, Added, QueueOk, HandUp, Enqueue;
    var p' := Trimmed(r, p);
    CutIsSlice(p, stream);
    if p.data != [] && r.next <= p'.at < r.next + r.window {
      if p'.at == r.next {
        HandUpCovers(r, p', stream, k);
      } else {
        EnqueueCovers(r.queue, p, alloc, r.next, stream, k);
      }
    }
  }

  // ----- When nothing is lost

  /** p ends inside a queued piece that starts before it. */
  ghost predicate CutsOff(q: seq<Piece>, p: Piece) {
    exists i :: 0 <= i < |q| && q[i].at < p.at && p.End() < q[i].End()
  }

  /** No queued piece starts where p does, and p has a byte at or past a queued start above it that is not queued. */
  ghost predicate RunsPast(q: seq<Piece>, p: Piece) {
    !StartsAt(q, p.at) && exists k :: PastStart(q, p, k)
  }

  ghost predicate PastStart(q: seq<Piece>, p: Piece, k: int) {
    Holds(p, k) && !Covered(q, k) && exists i :: 0 <= i < |q| && p.at < q[i].at <= k
  }

  /** Pieces of a valid queue share no position. */
  lemma HeldOnce(q: seq<Piece>, i: nat, j: nat, low: nat, stream: seq<byte>, k: int)
    requires QueueOk(q, low, stream) && i < |q| && j < |q| && Holds(q[i], k) && Holds(q[j], k)
    ensures i == j
  {
    if i < j {
      QueueSorted(q, i, j, low, stream);
    } else if j < i {
      QueueSorted(q, j, i, low, stream);
    }
  }

  lemma CutOffIsLost(q: seq<Piece>, p: Piece, low: nat, stream: seq<byte>)
    requires QueueOk(q, low, stream) && CutsOff(q, p)
    ensures Covered(q, p.End()) && !Kept(q, p, p.End()) && !Added(q, p, p.End())
  {
    hide QueueOk;
    var i :| 0 <= i < |q| && q[i].at < p.at && p.End() < q[i].End();
    assert Holds(q[i], p.End());
    forall j | 0 <= j < |q| && Holds(q[j], p.End()) ensures j == i {
      HeldOnce(q, i, j, low, stream, p.End());
    }
  }

  lemma PastStartIsLost(q: seq<Piece>, p: Piece, k: int)
    requires PastStart(q, p, k) && !StartsAt(q, p.at)
    ensures !Kept(q, p, k) && !Added(q, p, k)
  {
  }

  lemma NothingLost(q: seq<Piece>, p: Piece, k: int)
    requires !CutsOff(q, p) && !RunsPast(q, p)
    ensures Covered(q, k) || Holds(p, k) <==> Kept(q, p, k) || Added(q, p, k)
  {
    if Covered(q, k) {
      var i :| 0 <= i < |q| && Holds(q[i], k);
      assert !(q[i].at < p.at && p.End() <= k);
    } else if Holds(p, k) {
      assert !StartsAt(q, p.at) ==> !PastStart(q, p, k);
    }
  }

  /** A queued segment adds its bytes to the queue and takes none away if and only if it neither cuts one off nor runs
      past the start of one; a segment that starts where a queued one does may run past. */
  lemma QueuesUnion(r: Receiver, p: Piece, stream: seq<byte>)
    requires Inv(r, stream) && IsSlice(p, stream) && |p.data| <= MAX_LEN && Queues(r, p, true)
    ensures var r' := Arrive(r, p, true).0;
            (forall k :: Covered(r'.queue, k) <==> Covered(r.queue, k) || Holds(p, k))
            <==> !CutsOff(r.queue, p) && !RunsPast(r.queue, p)
  {
    hide Inv, QueueOk, Arrive, Covered, Holds, Kept, Added, CutsOff, PastStart, StartsAt;
    var r' := Arrive(r, p, true).0;
    forall k ensures Covered(r'.queue, k) <==> Kept(r.queue, p, k) || Added(r.queue, p, k) {
      ArriveCovers(r, p, true, stream, k);
    }
    QueueOf(r, stream);
    if CutsOff(r.queue, p) {
      CutOffIsLost(r.queue, p, r.next, stream);
      assert !Covered(r'.queue, p.End());
    } else if RunsPast(r.queue, p) {
      var k :| PastStart(r.queue, p, k);
      PastStartIsLost(r.queue, p, k);
      PastIsHeld(r.queue, p, k);
      assert !Covered(r'.queue, k);
    } else {
      forall k ensures Covered(r'.queue, k) <==> Covered(r.queue, k) || Holds(p, k) {
        NothingLost(r.queue, p, k);
      }
    }
  }

  lemma QueueOf(r: Receiver, stream: seq<byte>)
    requires Inv(r, stream)
    ensures QueueOk(r.queue, r.next, stream)
  {
  }

  lemma PastIsHeld(q: seq<Piece>, p: Piece, k: int)
    requires PastStart(q, p, k)
    ensures Holds(p, k)
  {
  }

  /** A segment that lies inside a queued one costs the bytes behind it: with [2, 8) queued, [4, 6) loses 6 and 7. */
  lemma InsideLoses(stream: seq<byte>, window: nat, k: int)
    requires |stream| >= 8 && 4 < window < TWO16
    ensures var r, p := Receiver(0, window, [Piece(2, stream[2..8])]), Piece(4, stream[4..6]);
            && Inv(r, stream) && IsSlice(p, stream)
            && (Covered(r.queue, k) <==> 2 <= k < 8) && (Covered(Arrive(r, p, true).0.queue, k) <==> 2 <= k < 6)
  {
    var x, p := Piece(2, stream[2..8]), Piece(4, stream[4..6]);
    CoveredOne(x, k);
    CoveredPair(CutEnd(x, 4), p, k);
    assert Place([x], 0, p, true) == [CutEnd(x, 4), p];
  }

  /** A segment that contains a queued one loses the bytes behind that: with [4, 6) queued, [2, 8) brings 2 to 5. */
  lemma AroundLoses(stream: seq<byte>, window: nat, k: int)
    requires |stream| >= 8 && 2 < window < TWO16
    ensures var r, p := Receiver(0, window, [Piece(4, stream[4..6])]), Piece(2, stream[2..8]);
            && Inv(r, stream) && IsSlice(p, stream)
            && (Covered(r.queue, k) <==> 4 <= k < 6) && (Covered(Arrive(r, p, true).0.queue, k) <==> 2 <= k < 6)
  {
    var x, p := Piece(4, stream[4..6]), Piece(2, stream[2..8]);
    CoveredOne(x, k);
    CoveredPair(CutEnd(p, 4), x, k);
    assert Place([x], 0, p, true) == [CutEnd(p, 4)] + [x] == [CutEnd(p, 4), x];
  }
}
