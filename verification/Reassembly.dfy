/**
 The receive half of tcp_receive() on unbounded stream positions: trimming, in-order hand-up and the
 out-of-sequence queue.  TcpReceive shows that the 32-bit code behaves exactly like this one.
 */
module Reassembly {
  import opened SeqNum

  /** A run of stream bytes: data[k] is claimed to be the byte at position at + k. */
  datatype Piece = Piece(at: nat, data: seq<byte>) {
    function End(): nat {
      at + |data|
    }
  }

  /** next is the position of rcv_nxt, window is rcv_wnd. */
  datatype Receiver = Receiver(next: nat, window: nat, queue: seq<Piece>)

  const TCP_WND := 1024

  /** The length of a segment is a uint16_t. */
  const MAX_LEN := 0xffff

  function CutFront(p: Piece, start: nat): Piece
    requires p.at <= start <= p.End()
  {
    Piece(start, p.data[start - p.at..])
  }

  function CutEnd(p: Piece, end: nat): Piece
    requires p.at <= end
  {
    if p.End() <= end then p else Piece(p.at, p.data[..end - p.at])
  }

  function Shrink(window: nat, len: nat): nat {
    if window < len then 0 else window - len
  }

  /** The walk along the out-of-sequence queue, standing at queue[i]. */
  function Place(q: seq<Piece>, i: nat, p: Piece, alloc: bool): seq<Piece>
    requires i < |q|
    decreases |q| - i
  {
    if p.at == q[i].at then
      if |p.data| > |q[i].data| && alloc then q[i := p] else q
    else if i == 0 && p.at < q[0].at then
      if alloc then [CutEnd(p, q[0].at)] + q else q
    else if i > 0 && q[i - 1].at < p.at < q[i].at then
      if alloc then q[..i - 1] + [CutEnd(q[i - 1], p.at), CutEnd(p, q[i].at)] + q[i..] else q
    else if i + 1 == |q| then
      if p.at > q[i].at && alloc then q[..i] + [CutEnd(q[i], p.at), p] else q
    else
      Place(q, i + 1, p, alloc)
  }

  function Enqueue(q: seq<Piece>, p: Piece, alloc: bool): seq<Piece> {
    if q != [] then Place(q, 0, p, alloc) else if alloc then [p] else []
  }

  /** Hands up the queued pieces that have become next in sequence. */
  function Drain(r: Receiver): (Receiver, seq<byte>)
    decreases |r.queue|
  {
    if r.queue == [] || r.queue[0].at != r.next then (r, [])
    else
      var head := r.queue[0];
      var (r', more) := Drain(Receiver(head.End(), Shrink(r.window, |head.data|), r.queue[1..]));
      (r', head.data + more)
  }

  /** An in-sequence piece is trimmed against the queue and handed up with what it makes contiguous. */
  function HandUp(r: Receiver, p: Piece): (Receiver, seq<byte>)
    requires p.at == r.next
  {
    var p' := if r.queue != [] && p.at <= r.queue[0].at <= p.End() then CutEnd(p, r.queue[0].at) else p;
    var (r', more) := Drain(Receiver(p'.End(), Shrink(r.window, |p'.data|), r.queue));
    (r', p'.data + more)
  }

  /** The left edge of an arriving piece after trimming what has already been received. */
  function Trimmed(r: Receiver, p: Piece): Piece {
    if p.at < r.next < p.End() then CutFront(p, r.next) else p
  }

  function Arrive(r: Receiver, p: Piece, alloc: bool): (Receiver, seq<byte>) {
    if p.data == [] then (r, [])
    else
      var p' := Trimmed(r, p);
      if p'.at < r.next || r.next + r.window <= p'.at then (r, [])
      else if p'.at == r.next then HandUp(r, p')
      else (r.(queue := Enqueue(r.queue, p', alloc)), [])
  }

  // ----- The invariant

  ghost predicate IsSlice(p: Piece, stream: seq<byte>) {
    p.End() <= |stream| && p.data == stream[p.at..p.End()]
  }

  ghost predicate PieceOk(p: Piece, low: nat, stream: seq<byte>) {
    0 < |p.data| <= MAX_LEN && IsSlice(p, stream) && low < p.at < low + TWO16
  }

  /** Queue pieces are nonempty true slices strictly above low, in order and without overlap. */
  ghost predicate QueueOk(q: seq<Piece>, low: nat, stream: seq<byte>) {
    && (forall i :: 0 <= i < |q| ==> PieceOk(q[i], low, stream))
    && (forall i :: 0 <= i < |q| - 1 ==> q[i].End() <= q[i + 1].at)
  }

  ghost predicate Inv(r: Receiver, stream: seq<byte>) {
    && r.next <= |stream|
    && r.window < TWO16
    && QueueOk(r.queue, r.next, stream)
  }

  /**
   The one arrival that breaks the queue: an accepted out-of-sequence piece that starts where a queued piece
   starts, is longer than it, is copied successfully, and runs past the start of the piece queued behind it.
   */
  predicate Overruns(r: Receiver, p: Piece, alloc: bool) {
    && alloc
    && r.next < p.at < r.next + r.window
    && exists i ::
         0 <= i < |r.queue| - 1 && r.queue[i].at == p.at && |r.queue[i].data| < |p.data| && r.queue[i + 1].at < p.End()
  }

  // ----- Proofs

  lemma CutIsSlice(p: Piece, stream: seq<byte>)
    requires IsSlice(p, stream)
    ensures forall start :: p.at <= start <= p.End() ==> IsSlice(CutFront(p, start), stream)
    ensures forall end :: p.at <= end ==> IsSlice(CutEnd(p, end), stream)
  {
  }

  lemma QueueConcat(a: seq<Piece>, b: seq<Piece>, low: nat, stream: seq<byte>)
    ensures QueueOk(a + b, low, stream) <==>
            QueueOk(a, low, stream) && QueueOk(b, low, stream) && (a != [] && b != [] ==> a[|a| - 1].End() <= b[0].at)
  {
    hide PieceOk;
    var q := a + b;
    if QueueOk(q, low, stream) {
      assert forall i :: 0 <= i < |a| ==> q[i] == a[i] && PieceOk(q[i], low, stream);
      forall i | 0 <= i < |a| - 1 ensures a[i].End() <= a[i + 1].at {
        assert q[i].End() <= q[i + 1].at;
      }
      forall i | 0 <= i < |b| ensures PieceOk(b[i], low, stream) {
        assert PieceOk(q[|a| + i], low, stream);
      }
      forall i | 0 <= i < |b| - 1 ensures b[i].End() <= b[i + 1].at {
        assert q[|a| + i].End() <= q[|a| + i + 1].at;
      }
      assert a != [] && b != [] ==> q[|a| - 1].End() <= q[|a| - 1 + 1].at;
    }
  }

  /** In a valid queue starts grow strictly, whatever the distance. */
  lemma {:induction false} QueueSorted(q: seq<Piece>, i: nat, j: nat, low: nat, stream: seq<byte>)
    requires QueueOk(q, low, stream) && i < j < |q|
    ensures q[i].End() <= q[j].at && q[i].at < q[j].at
    decreases j - i
  {
    if i + 1 < j {
      QueueSorted(q, i, j - 1, low, stream);
      assert PieceOk(q[j - 1], low, stream);
    }
    assert PieceOk(q[i], low, stream);
  }

  lemma OneOk(p: Piece, low: nat, stream: seq<byte>)
    requires PieceOk(p, low, stream)
    ensures QueueOk([p], low, stream)
  {
  }

  lemma {:induction false} PlaceKeepsOrder(q: seq<Piece>, i: nat, p: Piece, alloc: bool, low: nat, stream: seq<byte>)
    requires i < |q| && QueueOk(q, low, stream) && PieceOk(p, low, stream)
    requires i > 0 ==> q[i - 1].at < p.at
    requires !(alloc && exists k ::
                 i <= k < |q| - 1 && q[k].at == p.at && |q[k].data| < |p.data| && q[k + 1].at < p.End())
    ensures QueueOk(Place(q, i, p, alloc), low, stream)
    decreases |q| - i
  {
    hide QueueOk, PieceOk;
    if p.at == q[i].at {
      ReplaceKeepsOrder(q, i, p, low, stream);
    } else if i == 0 && p.at < q[0].at {
      CutIsPiece(p, q[0].at, low, stream);
      OneOk(CutEnd(p, q[0].at), low, stream);
      QueueConcat([CutEnd(p, q[0].at)], q, low, stream);
    } else if i > 0 && q[i - 1].at < p.at < q[i].at {
      SpliceKeepsOrder(q, i, p, low, stream);
    } else if i + 1 == |q| {
      AppendKeepsOrder(q, p, low, stream);
    } else {
      PlaceKeepsOrder(q, i + 1, p, alloc, low, stream);
    }
  }

  lemma CutIsPiece(p: Piece, end: nat, low: nat, stream: seq<byte>)
    requires PieceOk(p, low, stream) && p.at < end
    ensures PieceOk(CutEnd(p, end), low, stream) && CutEnd(p, end).End() <= end
  {
    CutIsSlice(p, stream);
  }

  lemma ReplaceKeepsOrder(q: seq<Piece>, i: nat, p: Piece, low: nat, stream: seq<byte>)
    requires i < |q| && QueueOk(q, low, stream) && PieceOk(p, low, stream) && q[i].at == p.at
    ensures QueueOk(q[i := p], low, stream) <==> (i < |q| - 1 ==> p.End() <= q[i + 1].at)
  {
    var q' := q[i := p];
    if i < |q| - 1 ==> p.End() <= q[i + 1].at {
      forall k | 0 <= k < |q'| ensures PieceOk(q'[k], low, stream) && (k < |q'| - 1 ==> q'[k].End() <= q'[k + 1].at) {
        assert PieceOk(q[k], low, stream);
      }
    } else {
      assert q'[i].End() > q'[i + 1].at;
    }
  }

  lemma SpliceKeepsOrder(q: seq<Piece>, i: nat, p: Piece, low: nat, stream: seq<byte>)
    requires 0 < i < |q| && QueueOk(q, low, stream) && PieceOk(p, low, stream) && q[i - 1].at < p.at < q[i].at
    ensures QueueOk(q[..i - 1] + [CutEnd(q[i - 1], p.at), CutEnd(p, q[i].at)] + q[i..], low, stream)
  {
    var l, r := CutEnd(q[i - 1], p.at), CutEnd(p, q[i].at);
    assert PieceOk(q[i - 1], low, stream);
    CutIsPiece(q[i - 1], p.at, low, stream);
    CutIsPiece(p, q[i].at, low, stream);
    assert QueueOk(q[..i - 1], low, stream) && (i > 1 ==> q[i - 2].End() <= l.at) by {
      assert q == q[..i - 1] + q[i - 1..];
      QueueConcat(q[..i - 1], q[i - 1..], low, stream);
    }
    assert QueueOk(q[i..], low, stream) by {
      assert q == q[..i] + q[i..];
      QueueConcat(q[..i], q[i..], low, stream);
    }
    assert QueueOk([l, r], low, stream);
    JoinQueues(q[..i - 1], [l, r], q[i..], low, stream);
  }

  lemma JoinQueues(a: seq<Piece>, b: seq<Piece>, c: seq<Piece>, low: nat, stream: seq<byte>)
    requires QueueOk(a, low, stream) && QueueOk(b, low, stream) && QueueOk(c, low, stream)
    requires b != [] && c != [] && (a != [] ==> a[|a| - 1].End() <= b[0].at) && b[|b| - 1].End() <= c[0].at
    ensures QueueOk(a + b + c, low, stream)
  {
    QueueConcat(a, b, low, stream);
    QueueConcat(a + b, c, low, stream);
  }

  lemma AppendKeepsOrder(q: seq<Piece>, p: Piece, low: nat, stream: seq<byte>)
    requires q != [] && QueueOk(q, low, stream) && PieceOk(p, low, stream)
    requires q[|q| - 1].at < p.at
    ensures QueueOk(q[..|q| - 1] + [CutEnd(q[|q| - 1], p.at), p], low, stream)
  {
    var n := |q| - 1;
    assert PieceOk(q[n], low, stream);
    CutIsPiece(q[n], p.at, low, stream);
    assert q == q[..n] + q[n..];
    QueueConcat(q[..n], q[n..], low, stream);
    QueueConcat(q[..n], [CutEnd(q[n], p.at), p], low, stream);
  }

  /** An overrunning piece does break the order. */
  lemma {:induction false} OverrunBreaksOrder(q: seq<Piece>, i: nat, k: nat, p: Piece, low: nat, stream: seq<byte>)
    requires i <= k < |q| - 1 && QueueOk(q, low, stream) && PieceOk(p, low, stream)
    requires q[k].at == p.at && |q[k].data| < |p.data| && q[k + 1].at < p.End()
    ensures !QueueOk(Place(q, i, p, true), low, stream)
    decreases k - i
  {
    hide QueueOk, PieceOk;
    if i == k {
      ReplaceKeepsOrder(q, k, p, low, stream);
    } else {
      QueueSorted(q, i, k, low, stream);
      OverrunBreaksOrder(q, i + 1, k, p, low, stream);
    }
  }

  function Starts(q: seq<Piece>): set<nat> {
    set i | 0 <= i < |q| :: q[i].at
  }

  lemma StartsConcat(a: seq<Piece>, b: seq<Piece>)
    ensures Starts(a + b) == Starts(a) + Starts(b)
  {
    forall i | 0 <= i < |b| ensures b[i].at in Starts(a + b) {
      assert (a + b)[|a| + i] == b[i];
    }
    forall i | 0 <= i < |a| ensures a[i].at in Starts(a + b) {
      assert (a + b)[i] == a[i];
    }
  }

  lemma StartsOne(p: Piece)
    ensures Starts([p]) == {p.at}
  {
    assert [p][0].at in Starts([p]);
  }

  lemma ReplaceStarts(q: seq<Piece>, i: nat, mid: seq<Piece>, j: nat)
    requires i <= j <= |q|
    ensures Starts(q[..i] + mid + q[j..]) == Starts(q[..i]) + Starts(mid) + Starts(q[j..])
    ensures mid == q[i..j] ==> Starts(q) == Starts(q[..i]) + Starts(mid) + Starts(q[j..])
  {
    StartsConcat(q[..i] + mid, q[j..]);
    StartsConcat(q[..i], mid);
    assert mid == q[i..j] ==> q == q[..i] + mid + q[j..];
  }

  lemma SetAt(q: seq<Piece>, i: nat, p: Piece)
    requires i < |q|
    ensures q[i := p] == q[..i] + [p] + q[i + 1..]
  {
  }

  /** Queueing forgets the start of no queued piece and adds that of the new one: only right edges are cut. */
  lemma {:induction false} PlaceKeepsStarts(q: seq<Piece>, i: nat, p: Piece, alloc: bool)
    requires i < |q|
    requires i > 0 ==> q[i - 1].at < p.at
    ensures Starts(Place(q, i, p, alloc)) == if alloc then Starts(q) + {p.at} else Starts(q)
    decreases |q| - i
  {
    hide Starts;
    StartsOne(q[i]);
    StartsOne(p);
    if p.at == q[i].at {
      ReplaceStarts(q, i, [q[i]], i + 1);
      assert q[i..i + 1] == [q[i]];
      if |p.data| > |q[i].data| && alloc {
        ReplaceStarts(q, i, [p], i + 1);
        SetAt(q, i, p);
      }
    } else if i == 0 && p.at < q[0].at {
      StartsOne(CutEnd(p, q[0].at));
      StartsConcat([CutEnd(p, q[0].at)], q);
    } else if i > 0 && q[i - 1].at < p.at < q[i].at {
      SpliceStarts(q, i - 1, CutEnd(q[i - 1], p.at), CutEnd(p, q[i].at));
    } else if i + 1 == |q| {
      SpliceStarts(q, i, CutEnd(q[i], p.at), p);
      assert q[..i] + [CutEnd(q[i], p.at), p] + q[i + 1..] == q[..i] + [CutEnd(q[i], p.at), p];
    } else {
      PlaceKeepsStarts(q, i + 1, p, alloc);
    }
  }

  lemma SpliceStarts(q: seq<Piece>, i: nat, l: Piece, r: Piece)
    requires i < |q| && l.at == q[i].at
    ensures Starts(q[..i] + [l, r] + q[i + 1..]) == Starts(q) + {r.at}
  {
    ReplaceStarts(q, i, [q[i]], i + 1);
    ReplaceStarts(q, i, [l, r], i + 1);
    StartsConcat([l], [r]);
    assert [l, r] == [l] + [r];
    StartsOne(l);
    StartsOne(r);
    StartsOne(q[i]);
  }

  /** Raising the low mark up to the first start keeps a queue valid. */
  lemma RaiseLow(q: seq<Piece>, low: nat, low': nat, stream: seq<byte>)
    requires QueueOk(q, low, stream) && low <= low' && (q != [] ==> low' < q[0].at)
    ensures QueueOk(q, low', stream)
  {
    forall i | 0 <= i < |q| ensures PieceOk(q[i], low', stream) {
      assert PieceOk(q[i], low, stream);
      if i > 0 {
        QueueSorted(q, 0, i, low, stream);
      }
    }
  }

  lemma {:induction false} DrainSafe(r: Receiver, low: nat, stream: seq<byte>)
    requires low <= r.next <= |stream| && r.window < TWO16
    requires QueueOk(r.queue, low, stream) && (r.queue != [] ==> r.next <= r.queue[0].at)
    ensures var (r', up) := Drain(r);
            Inv(r', stream) && r.next <= r'.next && up == stream[r.next..r'.next]
    decreases |r.queue|
  {
    if r.queue != [] && r.queue[0].at == r.next {
      var head, rest := r.queue[0], r.queue[1..];
      assert r.queue == [head] + rest;
      QueueConcat([head], rest, low, stream);
      assert PieceOk(head, low, stream);
      DrainSafe(Receiver(head.End(), Shrink(r.window, |head.data|), rest), low, stream);
    } else {
      RaiseLow(r.queue, low, r.next, stream);
    }
  }

  lemma HeadOk(q: seq<Piece>, low: nat, stream: seq<byte>)
    requires QueueOk(q, low, stream)
    ensures q != [] ==> PieceOk(q[0], low, stream)
  {
  }

  lemma HandUpSafe(r: Receiver, p: Piece, stream: seq<byte>)
    requires Inv(r, stream) && IsSlice(p, stream) && p.at == r.next && 0 < |p.data| <= MAX_LEN
    ensures var (r', up) := HandUp(r, p);
            && Inv(r', stream) && r.next < r'.next && up == stream[r.next..r'.next]
            && (r'.next >= p.End() || (r.queue != [] && r'.next >= r.queue[0].End()))
  {
    hide QueueOk;
    CutIsSlice(p, stream);
    HeadOk(r.queue, r.next, stream);
    var p' := if r.queue != [] && p.at <= r.queue[0].at <= p.End() then CutEnd(p, r.queue[0].at) else p;
    var r1 := Receiver(p'.End(), Shrink(r.window, |p'.data|), r.queue);
    DrainSafe(r1, r.next, stream);
    if r.queue != [] && r.queue[0].at == r1.next {
      var head, rest := r.queue[0], r.queue[1..];
      assert r.queue == [head] + rest;
      QueueConcat([head], rest, r.next, stream);
      DrainSafe(Receiver(head.End(), Shrink(r1.window, |head.data|), rest), r.next, stream);
    }
  }

  /** Queueing alone: the order survives exactly when the piece does not overrun its successor. */
  lemma EnqueueSafe(r: Receiver, p: Piece, alloc: bool, stream: seq<byte>)
    requires Inv(r, stream) && PieceOk(p, r.next, stream) && p.at < r.next + r.window
    ensures QueueOk(Enqueue(r.queue, p, alloc), r.next, stream) <==> !Overruns(r, p, alloc)
  {
    if Overruns(r, p, alloc) {
      var k :| 0 <= k < |r.queue| - 1 && r.queue[k].at == p.at && |r.queue[k].data| < |p.data|
               && r.queue[k + 1].at < p.End();
      OverrunBreaksOrder(r.queue, 0, k, p, r.next, stream);
    } else if r.queue != [] {
      PlaceKeepsOrder(r.queue, 0, p, alloc, r.next, stream);
    }
  }

  /** One arriving piece: what is handed up is the next stretch of the stream, and the queue stays in order
      if and only if the piece does not overrun its successor. */
  lemma ArriveSafe(r: Receiver, p: Piece, alloc: bool, stream: seq<byte>)
    requires Inv(r, stream) && IsSlice(p, stream) && |p.data| <= MAX_LEN
    ensures var (r', up) := Arrive(r, p, alloc);
            && r.next <= r'.next <= |stream|
            && up == stream[r.next..r'.next]
            && (Inv(r', stream) <==> !Overruns(r, p, alloc))
  {
    var p' := Trimmed(r, p);
    CutIsSlice(p, stream);
    if p.data != [] && r.next <= p'.at < r.next + r.window {
      if p'.at == r.next {
        HandUpSafe(r, p', stream);
      } else {
        EnqueueSafe(r, p, alloc, stream);
      }
    }
  }

  /** An arrival moves rcv_nxt exactly when it carries the next expected byte and the window is open, and then to
      its own end or to that of the queued piece it was trimmed against. */
  lemma ArriveProgress(r: Receiver, p: Piece, alloc: bool, stream: seq<byte>)
    requires Inv(r, stream) && IsSlice(p, stream) && |p.data| <= MAX_LEN
    ensures var r' := Arrive(r, p, alloc).0;
            && (r'.next > r.next <==> p.at <= r.next < p.End() && r.window > 0)
            && (r'.next > r.next ==> r'.next >= p.End() || (r.queue != [] && r'.next >= r.queue[0].End()))
  {
    var p' := Trimmed(r, p);
    CutIsSlice(p, stream);
    if p.data != [] && p'.at == r.next && r.window > 0 {
      HandUpSafe(r, p', stream);
    }
  }
}
