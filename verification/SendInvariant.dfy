/** The send-side invariant, kept by every operation. */
module SendInvariant {
  import opened SeqNum
  import opened TcpSend
  import opened SendQueue

  /** Positions: where unacked ++ unsent starts, what is acknowledged, and the highest position ever sent; and how many
      bytes the send buffer can hold, which depends on who opened the connection. */
  datatype View = View(first: nat, acked: nat, max: nat, cap: nat)

  function Fin(st: State): nat {
    if st.closing then 1 else 0
  }

  function Queue(st: State): seq<Segment> {
    st.unacked + st.unsent
  }

  /** The queue is a gap-free copy of what lies between the segment holding lastack and snd_lbb. */
  ghost predicate QueueInv(st: State, base: int, written: seq<byte>, v: View) {
    var q := Queue(st);
    && Chain(q, v.first, base, written)
    && v.first + Total(q) == |written| + Fin(st)
    && v.first <= v.acked <= |written| + Fin(st)
    && (if q == [] then v.acked == |written| + Fin(st) else v.acked < v.first + TcpLen(q[0]))
    && st.queueLen == PbufCount(q) <= TCP_SND_QUEUELEN
  }

  /** The sequence variables of the PCB and the conservation of buffer space. */
  ghost predicate FieldInv(st: State, base: int, end: nat, v: View) {
    && v.acked <= v.max <= end
    && st.sndLbb == Wrap(base + end)
    && st.lastAck == Wrap(base + v.acked)
    && st.sndMax == Wrap(base + v.max)
    && v.cap <= TCP_SND_BUF && end - v.acked <= v.cap + Fin(st)
    && st.sndBuf == Wrap16(v.cap - (end - v.acked))
    && st.mss <= TCP_MSS
  }

  ghost predicate Inv(st: State, base: int, written: seq<byte>, v: View) {
    QueueInv(st, base, written, v) && FieldInv(st, base, |written| + Fin(st), v)
  }

  /** Everything unacked was sent. */
  ghost predicate AllSent(st: State, v: View) {
    v.first + Total(st.unacked) <= v.max
  }

  /** The buffer space never exceeds the capacity, except when a FIN was queued with the buffer already full. */
  lemma BufferBound(st: State, base: int, written: seq<byte>, v: View)
    requires Inv(st, base, written, v)
    ensures st.sndBuf <= v.cap <==> |written| + Fin(st) - v.acked <= v.cap
    ensures st.sndBuf <= v.cap ==> st.sndBuf == v.cap - (|written| + Fin(st) - v.acked)
    ensures st.sndBuf > v.cap ==> st.sndBuf == 65535
  {
  }

  // ----- tcp_enqueue()

  lemma QueueGrows(st: State, queue: seq<Segment>, fin: bool, base: int, written: seq<byte>, written': seq<byte>,
                   v: View)
    requires QueueInv(st, base, written, v) && !st.closing
    requires written <= written' && queue != [] && queue[0].fin == fin
    requires Chain(queue, |written|, base, written') && PbufCount(Queue(st)) + PbufCount(queue) <= TCP_SND_QUEUELEN
    requires st.mss <= TCP_MSS && Total(queue) > 0 && 0 < TcpLen(queue[0])
    ensures var unsent' := Append(st.unsent, fin, queue, st.mss);
            var q' := st.unacked + unsent';
            && Chain(q', v.first, base, written') && Total(q') == Total(Queue(st)) + Total(queue)
            && Data(q') == Data(Queue(st)) + Data(queue)
            && PbufCount(q') == PbufCount(Queue(st)) + PbufCount(queue)
            && q' != [] && (Queue(st) == [] || TcpLen(q'[0]) >= TcpLen(Queue(st)[0]))
            && TcpLen(q'[0]) > 0
  {
    hide Append, SegOk, Wrap, Data, Total, Chain, PbufCount, Merges;
    var more := written'[|written|..];
    assert written' == written + more;
    var q := Queue(st);
    ChainExtend(q, v.first, base, written, more);
    var mid := v.first + Total(st.unacked);
    Concat(st.unacked, st.unsent, v.first, base, written');
    AppendChain(st.unsent, queue, fin, st.mss, mid, base, written');
    var unsent' := Append(st.unsent, fin, queue, st.mss);
    Concat(st.unacked, unsent', v.first, base, written');
    AppendHead(st.unsent, queue, fin, st.mss);
    assert Data(st.unacked) + (Data(st.unsent) + Data(queue)) == Data(st.unacked) + Data(st.unsent) + Data(queue);
    ChainLens(q, v.first, base, written);
  }

  lemma AppendHead(unsent: seq<Segment>, queue: seq<Segment>, fin: bool, mss: u16)
    requires queue != [] && TcpLen(queue[0]) > 0
    ensures var q := Append(unsent, fin, queue, mss);
            q != [] && if unsent == [] then TcpLen(q[0]) > 0 else TcpLen(q[0]) >= TcpLen(unsent[0])
  {
  }

  lemma {:induction false} ChainLens(q: seq<Segment>, at: nat, base: int, written: seq<byte>)
    requires Chain(q, at, base, written)
    ensures forall i :: 0 <= i < |q| ==> TcpLen(q[i]) > 0
    decreases |q|
  {
    if q != [] {
      ChainLens(q[1..], at + TcpLen(q[0]), base, written);
    }
  }

  lemma TotalHead(q: seq<Segment>)
    ensures q == [] ==> Total(q) == 0 && PbufCount(q) == 0
    ensures q != [] ==> TcpLen(q[0]) <= Total(q)
  {
  }

  lemma EnqueueQueue(st: State, st': State, data: seq<byte>, fin: bool, queue: seq<Segment>, base: int,
                     written: seq<byte>, v: View)
    requires QueueInv(st, base, written, v) && !st.closing && st.mss <= TCP_MSS
    requires queue != [] && queue[0].fin == fin && 0 < TcpLen(queue[0])
    requires Chain(queue, |written|, base, written + data) && Total(queue) == |data| + (if fin then 1 else 0)
    requires PbufCount(Queue(st)) + PbufCount(queue) <= TCP_SND_QUEUELEN
    requires st'.unacked == st.unacked && st'.unsent == Append(st.unsent, fin, queue, st.mss)
    requires st'.queueLen == PbufCount(Queue(st)) + PbufCount(queue) && st'.closing == fin
    ensures QueueInv(st', base, written + data, v)
    ensures Data(Queue(st')) == Data(Queue(st)) + Data(queue)
  {
    hide Append, SegOk, Wrap, Data, Total, Chain, PbufCount, TcpLen;
    TotalHead(queue);
    TotalHead(Queue(st));
    QueueGrows(st, queue, fin, base, written, written + data, v);
  }

  lemma EnqueueFields(st: State, st': State, taken: nat, base: int, end: nat, v: View)
    requires FieldInv(st, base, end, v) && !st.closing
    requires taken <= st.sndBuf + Fin(st') && (st'.closing ==> taken == 1)
    requires st'.sndLbb == Wrap(st.sndLbb + taken) && st'.sndBuf == Wrap16(st.sndBuf - taken)
    requires st'.lastAck == st.lastAck && st'.sndMax == st.sndMax && st'.mss == st.mss
    ensures FieldInv(st', base, end + taken, v)
  {
    WrapAdd(base + end, taken);
  }

  lemma EnqueueCases(st: State, data: seq<byte>, fin: bool, copy: bool, fails: set<nat>)
    requires |data| < TWO16
    ensures var (st', ok) := Enqueue(st, data, fin, copy, fails);
            && (!ok ==> st' == st)
            && (ok ==>
                  var taken := |data| + (if fin then 1 else 0);
                  && |data| <= st.sndBuf && st.queueLen < TCP_SND_QUEUELEN
                  && var b := Build(data, fin, copy, st.mss, st.sndLbb, st.queueLen, 0, fails);
                  && b.Built? && b.queue != []
                  && st' == st.(unsent := Append(st.unsent, fin, b.queue, st.mss), sndLbb := Wrap(st.sndLbb + taken),
                                sndBuf := Wrap16(st.sndBuf - taken), queueLen := b.queueLen))
  {
    if st.queueLen <= TCP_SND_QUEUELEN {
      BuildNonempty(data, fin, copy, st.mss, st.sndLbb, st.queueLen, 0, fails);
    }
  }

  /** Success appends exactly the data (or the FIN) to the queue; failure at any allocation changes nothing. */
  lemma EnqueueKeeps(st: State, data: seq<byte>, fin: bool, copy: bool, fails: set<nat>, base: int,
                     written: seq<byte>, v: View)
    requires Inv(st, base, written, v) && !st.closing
    requires |data| < TWO16 && if fin then data == [] else data != []
    ensures var (st', ok) := Enqueue(st, data, fin, copy, fails);
            && (!ok ==> st' == st)
            && (ok ==> Inv(st'.(closing := fin), base, written + data, v) && Data(Queue(st')) == Data(Queue(st)) + data)
  {
    hide Append, SegOk, Wrap, Wrap16, Data, Total, Chain, PbufCount, TcpLen, Enqueue, Build, FieldInv, QueueInv;
    EnqueueCases(st, data, fin, copy, fails);
    var (st', ok) := Enqueue(st, data, fin, copy, fails);
    if ok {
      InvParts(st, base, written, v);
      var b := Build(data, fin, copy, st.mss, st.sndLbb, st.queueLen, 0, fails);
      assert (written + data)[|written|..|written| + |data|] == data;
      BuildChain(data, fin, copy, st.mss, |written|, st.queueLen, 0, fails, base, written + data);
      ChainLens(b.queue, |written|, base, written + data);
      var st2 := st'.(closing := fin);
      EnqueueQueue(st, st2, data, fin, b.queue, base, written, v);
      EnqueueFields(st, st2, |data| + Fin(st2), base, |written|, v);
    }
  }

  lemma InvParts(st: State, base: int, written: seq<byte>, v: View)
    requires Inv(st, base, written, v)
    ensures st.mss <= TCP_MSS && st.queueLen == PbufCount(Queue(st)) <= TCP_SND_QUEUELEN
    ensures st.sndLbb == Wrap(base + |written| + Fin(st)) && st.lastAck == Wrap(base + v.acked)
    ensures v.acked <= v.max <= |written| + Fin(st) <= v.acked + TCP_SND_BUF + 1
    ensures Chain(Queue(st), v.first, base, written) && v.first + Total(Queue(st)) == |written| + Fin(st)
    ensures v.first <= v.acked && (Queue(st) == [] || v.acked < v.first + TcpLen(Queue(st)[0]))
    ensures Total(Queue(st)) < TWO16
  {
    var q := Queue(st);
    if q != [] {
      FirstLen(q, v.first, base, written);
    }
  }

  lemma FirstLen(q: seq<Segment>, at: nat, base: int, written: seq<byte>)
    requires Chain(q, at, base, written) && q != []
    ensures TcpLen(q[0]) <= TCP_MSS + 1
  {
  }

  // ----- ACKs

  lemma {:induction false} QueueLenDrop(q: seq<Segment>, ackno: u32, n: u8)
    requires PbufCount(q) <= n
    ensures PbufCount(DropAcked(q, ackno)) <= PbufCount(q)
    ensures QueueLenAfterDrop(q, ackno, n) == n - (PbufCount(q) - PbufCount(DropAcked(q, ackno)))
    decreases |q|
  {
    if q != [] && SeqLeq(Wrap(q[0].seqno + TcpLen(q[0])), ackno) {
      assert (n - q[0].pbufs) % 256 == n - q[0].pbufs;
      QueueLenDrop(q[1..], ackno, n - q[0].pbufs);
    }
  }

  /** Which ACK numbers are taken for new data: those in (acked, max], and, when nothing is outstanding, the one
      exactly 2^31 ahead. */
  lemma AckAccepted(st: State, ackno: u32, base: int, written: seq<byte>, v: View)
    requires Inv(st, base, written, v)
    ensures var d := Wrap(ackno - st.lastAck);
            Acceptable(st, ackno) <==> 0 < d <= v.max - v.acked || (v.max == v.acked && d == TWO31)
  {
    hide Chain, Total, PbufCount, SeqLt, SeqLeq, Wrap;
    AckDistance(ackno, st.lastAck, st.sndMax, base + v.acked, v.max - v.acked);
  }

  lemma AckDistance(ackno: u32, lastAck: u32, sndMax: u32, acked: int, m: nat)
    requires lastAck == Wrap(acked) && sndMax == Wrap(acked + m) && m < TWO31
    ensures var d := Wrap(ackno - lastAck);
            SeqLt(lastAck, ackno) && SeqLeq(ackno, sndMax) <==> 0 < d <= m || (m == 0 && d == TWO31)
  {
    hide SeqLt, SeqLeq, Wrap;
    SeqLtMeans(lastAck, ackno);
    SeqLeqMeans(ackno, sndMax);
    WrapAdd(acked, m);
    Further(ackno, lastAck, sndMax, m);
  }

  /** The queue after an ACK that moves the acknowledged position to ack. */
  lemma AckQueue(st: State, st': State, ack: nat, base: int, written: seq<byte>, v: View) returns (v': View)
    requires QueueInv(st, base, written, v) && v.acked <= ack <= |written| + Fin(st) && Total(Queue(st)) < TWO31
    requires st'.unacked == DropAcked(st.unacked, Wrap(base + ack)) &&
             st'.unsent == DropAcked(st.unsent, Wrap(base + ack))
    requires st'.queueLen == QueueLenAfterDrop(st.unacked, Wrap(base + ack),
                                               QueueLenAfterDrop(st.unsent, Wrap(base + ack), st.queueLen))
    requires st'.closing == st.closing
    ensures v'.acked == ack && v'.max == v.max && v'.cap == v.cap && QueueInv(st', base, written, v')
    ensures Queue(st') == Queue(st)[AckedCount(Queue(st), v.first, ack)..]
    ensures v'.first == v.first + Total(Queue(st)[..AckedCount(Queue(st), v.first, ack)])
    ensures st'.unacked != [] ==> st'.unsent == st.unsent
  {
    hide Chain, Total, Wrap, DropAcked, AckedCount, Data, PbufCount, TcpLen, QueueLenAfterDrop;
    var q, k, ackno := Queue(st), AckedCount(Queue(st), v.first, ack), Wrap(base + ack);
    ChainLens(q, v.first, base, written);
    assert st.unsent != [] ==> st.unsent[0] == q[|st.unacked|];
    DropBoth(st.unacked, st.unsent, v.first, ack, base, written);
    AckedRest(q, v.first, ack, base, written);
    v' := v.(first := v.first + Total(q[..k]), acked := ack);
    Concat(st.unacked, st.unsent, v.first, base, written);
    Concat(st'.unacked, st'.unsent, v.first, base, written);
    QueueLenDrop(st.unsent, ackno, st.queueLen);
    QueueLenDrop(st.unacked, ackno, QueueLenAfterDrop(st.unsent, ackno, st.queueLen));
    TotalHead(Queue(st'));
  }

  lemma AckFields(st: State, st': State, ackno: u32, d: nat, base: int, end: nat, v: View, v': View)
    requires FieldInv(st, base, end, v) && d == Wrap(ackno - st.lastAck) <= v.max - v.acked
    requires v'.acked == v.acked + d && v'.max == v.max && v'.cap == v.cap
    requires st'.lastAck == ackno && st'.sndBuf == Wrap16(st.sndBuf + Wrap16(ackno - st.lastAck))
    requires st'.sndLbb == st.sndLbb && st'.sndMax == st.sndMax && st'.mss == st.mss && st'.closing == st.closing
    ensures FieldInv(st', base, end, v')
    ensures ackno == Wrap(base + v'.acked)
  {
    hide Wrap, Wrap16;
    AckNumber(ackno, st.lastAck, base + v.acked, d);
    BufAfterAck(v.cap, end - v.acked, d, ackno - st.lastAck);
    assert base + v.acked + d == base + v'.acked && end - v.acked - d == end - v'.acked;
  }

  lemma AckNumber(ackno: u32, lastAck: u32, acked: int, d: nat)
    requires lastAck == Wrap(acked) && d == Wrap(ackno - lastAck)
    ensures ackno == Wrap(acked + d)
  {
  }

  lemma BufAfterAck(cap: nat, out: nat, d: nat, diff: int)
    requires d == Wrap(diff)
    ensures Wrap16(Wrap16(cap - out) + Wrap16(diff)) == Wrap16(cap - (out - d))
  {
    hide Wrap16;
    Wrap16Add(cap - out, diff);
    Wrap16Add(cap - out, d);
    Wrap16OfWrap(diff);
    assert cap - out + d == cap - (out - d);
  }

  lemma Wrap16Add(x: int, y: int)
    ensures Wrap16(Wrap16(x) + Wrap16(y)) == Wrap16(x + y)
  {
    var a, b := x / TWO16, y / TWO16;
    assert x == TWO16 * a + x % TWO16 && y == TWO16 * b + y % TWO16;
    var s := x % TWO16 + y % TWO16;
    assert x + y == TWO16 * (a + b) + s;
  }

  lemma AckCases(st: State, ackno: u32)
    ensures !Acceptable(st, ackno) ==> Ack(st, ackno) == st
    ensures Acceptable(st, ackno) ==>
              Ack(st, ackno) ==
              st.(sndBuf := Wrap16(st.sndBuf + Wrap16(ackno - st.lastAck)),
                  lastAck := ackno,
                  unsent := DropAcked(st.unsent, ackno),
                  sndNxt := NextAfterDrop(st.unsent, ackno, st.sndNxt),
                  unacked := DropAcked(st.unacked, ackno),
                  queueLen := QueueLenAfterDrop(st.unacked, ackno, QueueLenAfterDrop(st.unsent, ackno, st.queueLen)))
  {
  }

  lemma AckTaken(st: State, st': State, ackno: u32, base: int, written: seq<byte>, v: View) returns (v': View)
    requires Inv(st, base, written, v) && Acceptable(st, ackno) && Wrap(ackno - st.lastAck) != TWO31
    requires st'.sndBuf == Wrap16(st.sndBuf + Wrap16(ackno - st.lastAck)) && st'.lastAck == ackno
    requires st'.unsent == DropAcked(st.unsent, ackno) && st'.unacked == DropAcked(st.unacked, ackno)
    requires st'.queueLen == QueueLenAfterDrop(st.unacked, ackno, QueueLenAfterDrop(st.unsent, ackno, st.queueLen))
    requires st'.sndLbb == st.sndLbb && st'.sndMax == st.sndMax && st'.mss == st.mss && st'.closing == st.closing
    ensures Inv(st', base, written, v') && v'.max == v.max && v'.cap == v.cap
    ensures v'.acked == v.acked + Wrap(ackno - st.lastAck)
    ensures Queue(st') == Queue(st)[AckedCount(Queue(st), v.first, v'.acked)..]
    ensures v'.first == v.first + Total(Queue(st)[..AckedCount(Queue(st), v.first, v'.acked)])
    ensures st'.unacked != [] ==> st'.unsent == st.unsent
  {
    hide Chain, Total, Wrap, Wrap16, DropAcked, AckedCount, PbufCount, QueueLenAfterDrop, Acceptable, QueueInv,
      FieldInv, Queue, TcpLen, SeqLt, SeqLeq, NextAfterDrop;
    var d := AckMoves(st, ackno, base, written, v);
    v' := AckQueue(st, st', v.acked + d, base, written, v);
    AckFields(st, st', ackno, d, base, |written| + Fin(st), v, v');
  }

  /** By how much an ACK number that is taken moves what is acknowledged. */
  lemma AckMoves(st: State, ackno: u32, base: int, written: seq<byte>, v: View) returns (d: nat)
    requires Inv(st, base, written, v) && Acceptable(st, ackno) && Wrap(ackno - st.lastAck) != TWO31
    ensures d == Wrap(ackno - st.lastAck) <= v.max - v.acked && ackno == Wrap(base + (v.acked + d))
    ensures v.acked + d <= |written| + Fin(st) && Total(Queue(st)) < TWO16
  {
    hide Chain, Total, Wrap, PbufCount, Acceptable, Inv, Queue;
    d := Wrap(ackno - st.lastAck);
    AckAccepted(st, ackno, base, written, v);
    InvParts(st, base, written, v);
    AckNumber(ackno, st.lastAck, base + v.acked, d);
    assert base + v.acked + d == base + (v.acked + d);
  }

  /** Every ACK number, new, old or absurd, except the one exactly 2^31 ahead: the acknowledged prefix of
      unacked ++ unsent goes, and nothing else. */
  lemma AckKeeps(st: State, ackno: u32, base: int, written: seq<byte>, v: View) returns (v': View)
    requires Inv(st, base, written, v) && Wrap(ackno - st.lastAck) != TWO31
    ensures Inv(Ack(st, ackno), base, written, v') && v'.max == v.max && v'.cap == v.cap
    ensures v'.acked == v.acked + if Acceptable(st, ackno) then Wrap(ackno - st.lastAck) else 0
    ensures Acceptable(st, ackno) ==> Queue(Ack(st, ackno)) == Queue(st)[AckedCount(Queue(st), v.first, v'.acked)..]
    ensures Acceptable(st, ackno) ==> v'.first == v.first + Total(Queue(st)[..AckedCount(Queue(st), v.first, v'.acked)])
    ensures !Acceptable(st, ackno) ==> Ack(st, ackno) == st && v' == v
    ensures AllSent(st, v) ==> AllSent(Ack(st, ackno), v')
  {
    hide Ack, Wrap, Wrap16, DropAcked, AckedCount, NextAfterDrop, QueueLenAfterDrop, Acceptable, Inv, Queue;
    v' := v;
    AckCases(st, ackno);
    if Acceptable(st, ackno) {
      v' := AckTaken(st, Ack(st, ackno), ackno, base, written, v);
      AckSent(st, Ack(st, ackno), base, written, v, v');
    }
  }

  lemma AckSent(st: State, st': State, base: int, written: seq<byte>, v: View, v': View)
    requires Inv(st, base, written, v) && Inv(st', base, written, v') && v'.max == v.max && st'.closing == st.closing
    requires st'.unacked != [] ==> st'.unsent == st.unsent
    ensures AllSent(st, v) ==> AllSent(st', v')
  {
    hide Chain, Wrap, Wrap16, PbufCount, TcpLen;
    Concat(st.unacked, st.unsent, 0, base, written);
    Concat(st'.unacked, st'.unsent, 0, base, written);
  }

  /** What is excluded above is exactly the ACK number after which no view fits any more. */
  lemma AckExactly(st: State, ackno: u32, base: int, written: seq<byte>, v: View)
    requires Inv(st, base, written, v)
    ensures (exists v' :: Inv(Ack(st, ackno), base, written, v'))
            <==> !(v.max == v.acked && Wrap(ackno - st.lastAck) == TWO31)
  {
    hide Ack, Inv, Wrap, Acceptable, Chain, Total, PbufCount;
    InvParts(st, base, written, v);
    AckAccepted(st, ackno, base, written, v);
    AckCases(st, ackno);
    if Wrap(ackno - st.lastAck) != TWO31 || !Acceptable(st, ackno) {
      if Acceptable(st, ackno) {
        var v' := AckKeeps(st, ackno, base, written, v);
      } else {
        assert Inv(Ack(st, ackno), base, written, v);
      }
    } else {
      assert v.max == v.acked;
      forall v' ensures !Inv(Ack(st, ackno), base, written, v') {
        NoView(st, Ack(st, ackno), ackno, base, written, v, v');
      }
    }
  }

  lemma NoView(st: State, st': State, ackno: u32, base: int, written: seq<byte>, v: View, v': View)
    requires Inv(st, base, written, v) && Wrap(ackno - st.lastAck) == TWO31
    requires st'.lastAck == ackno && st'.closing == st.closing
    ensures !Inv(st', base, written, v')
  {
    hide QueueInv, Wrap16;
    if Inv(st', base, written, v') {
      FarApart(base + v.acked, base + v'.acked);
      assert false;
    }
  }

  lemma FarApart(x: int, y: int)
    requires -TWO16 < y - x < TWO16
    ensures Wrap(Wrap(y) - Wrap(x)) != TWO31
  {
    WrapSub(y, x);
  }

  // ----- tcp_output()

  /** The unsigned window test of tcp_output() in positions, also for a first segment that starts below lastack. */
  lemma FitsMeans(s: Segment, at: nat, acked: nat, wnd: u32, base: int)
    requires s.seqno == Wrap(base + at) && acked <= at + s.len < acked + TWO32
    ensures Fits(s, Wrap(base + acked), wnd) <==> at + s.len <= acked + wnd
  {
    hide SeqLt;
    FitsDistance(base + at, base + acked, s.len);
  }

  lemma FitsDistance(x: int, y: int, len: u16)
    requires 0 <= x + len - y < TWO32
    ensures Wrap(Wrap(Wrap(x) - Wrap(y)) + len) == x + len - y
  {
    WrapSub(x, y);
    WrapAdd(x - y, len);
  }

  /** The segments of a run starting at position at end (FIN aside) at or below limit. */
  ghost predicate WithinWindow(q: seq<Segment>, at: nat, limit: nat) {
    q == [] || (at + q[0].len <= limit && WithinWindow(q[1..], at + TcpLen(q[0]), limit))
  }

  ghost predicate Sends(f: Flow, f': Flow, sent: seq<Segment>, mid: nat, limit: nat) {
    && f.unsent == sent + f'.unsent
    && f'.unacked == f.unacked + sent
    && WithinWindow(sent, mid, limit)
    && (f'.unsent != [] ==> mid + Total(sent) + f'.unsent[0].len > limit)
  }

  lemma {:induction false} SendLoopKeeps(f: Flow, mid: nat, acked: nat, max: nat, wnd: u32, base: int,
                                         written: seq<byte>)
    returns (max': nat)
    requires Chain(f.unsent, mid, base, written) && f.max == Wrap(base + max)
    requires max <= mid + TWO16 && mid + Total(f.unsent) <= max + TWO16
    requires f.unsent != [] ==> acked <= mid + f.unsent[0].len
    requires mid + Total(f.unsent) < acked + TWO31 && acked <= mid + TWO16
    ensures var (f', sent) := SendLoop(f, Wrap(base + acked), wnd);
            && Sends(f, f', sent, mid, acked + wnd)
            && f'.max == Wrap(base + max')
            && max' == if sent != [] && max < mid + Total(sent) then mid + Total(sent) else max
    decreases |f.unsent|
  {
    hide Chain, SegOk, Total, SendLoop, SendHead, Sends, Fits, Wrap, SeqLt;
    max' := max;
    if f.unsent != [] {
      var seg := f.unsent[0];
      FirstSeqno(f.unsent, mid, base, written);
      HeadRun(f.unsent, mid, base, written);
      ChainLens(f.unsent, mid, base, written);
      FitsMeans(seg, mid, acked, wnd, base);
      if mid + seg.len <= acked + wnd {
        var end := mid + TcpLen(seg);
        SendOne(f, mid, max, base, written);
        var max1 := if max < end then end else max;
        SecondStart(f.unsent, mid, acked, base, written);
        max' := SendLoopKeeps(SendHead(f), end, acked, max1, wnd, base, written);
        SendsCons(f, mid, acked, wnd, base);
        TotalHead(SendLoop(SendHead(f), Wrap(base + acked), wnd).1);
      } else {
        SendsNone(f, mid, acked, wnd, base);
      }
    } else {
      SendsNone(f, mid, acked, wnd, base);
    }
  }

  lemma SecondStart(q: seq<Segment>, mid: nat, acked: nat, base: int, written: seq<byte>)
    requires Chain(q, mid, base, written) && q != [] && acked <= mid + q[0].len
    ensures |q| > 1 ==> acked <= mid + TcpLen(q[0]) + q[1].len
  {
  }

  lemma SendOne(f: Flow, mid: nat, max: nat, base: int, written: seq<byte>)
    requires Chain(f.unsent, mid, base, written) && f.unsent != [] && f.max == Wrap(base + max)
    requires max <= mid + TWO16 && mid + Total(f.unsent) <= max + TWO16
    ensures var end := mid + TcpLen(f.unsent[0]);
            && SendHead(f).unsent == f.unsent[1..] && SendHead(f).unacked == f.unacked + [f.unsent[0]]
            && SendHead(f).max == Wrap(base + if max < end then end else max)
            && end + Total(f.unsent[1..]) == mid + Total(f.unsent)
  {
    var end := mid + TcpLen(f.unsent[0]);
    WrapAdd(base + mid, TcpLen(f.unsent[0]));
    SeqCompare(base + max, base + end);
    hide SeqLt, Wrap;
  }

  lemma SendsCons(f: Flow, mid: nat, acked: nat, wnd: u32, base: int)
    requires f.unsent != [] && Fits(f.unsent[0], Wrap(base + acked), wnd) && mid + f.unsent[0].len <= acked + wnd
    requires TcpLen(f.unsent[0]) > 0
    requires var (f', sent) := SendLoop(SendHead(f), Wrap(base + acked), wnd);
             Sends(SendHead(f), f', sent, mid + TcpLen(f.unsent[0]), acked + wnd)
    ensures var (f', sent) := SendLoop(f, Wrap(base + acked), wnd);
            && Sends(f, f', sent, mid, acked + wnd) && sent != []
            && SendLoop(SendHead(f), Wrap(base + acked), wnd) == (f', sent[1..])
            && Total(sent) == TcpLen(sent[0]) + Total(sent[1..]) && sent[0] == f.unsent[0]
  {
    hide Fits, Wrap, SeqLt, SendLoop, Sends, Total, TcpLen;
    var (f', sent) := SendLoop(SendHead(f), Wrap(base + acked), wnd);
    SendLoopUnfold(f, Wrap(base + acked), wnd);
    PrependSent(f, SendHead(f), f', f.unsent[0], sent, mid, acked + wnd);
  }

  lemma SendLoopUnfold(f: Flow, lastAck: u32, wnd: u32)
    requires f.unsent != [] && Fits(f.unsent[0], lastAck, wnd)
    ensures var (f', sent) := SendLoop(SendHead(f), lastAck, wnd);
            SendLoop(f, lastAck, wnd) == (f', [f.unsent[0]] + sent)
    ensures SendHead(f).unsent == f.unsent[1..]
    ensures TcpLen(f.unsent[0]) > 0 ==> SendHead(f).unacked == f.unacked + [f.unsent[0]]
  {
    hide Fits, Wrap, SeqLt;
  }

  lemma WindowCons(seg: Segment, sent: seq<Segment>, mid: nat, limit: nat)
    requires mid + seg.len <= limit && WithinWindow(sent, mid + TcpLen(seg), limit)
    ensures ([seg] + sent)[1..] == sent && Total([seg] + sent) == TcpLen(seg) + Total(sent)
    ensures WithinWindow([seg] + sent, mid, limit)
  {
    assert ([seg] + sent)[1..] == sent;
  }

  lemma PrependSent(f: Flow, f1: Flow, f': Flow, seg: Segment, sent: seq<Segment>, mid: nat, limit: nat)
    requires f.unsent != [] && seg == f.unsent[0] && f1.unsent == f.unsent[1..] && f1.unacked == f.unacked + [seg]
    requires mid + seg.len <= limit && Sends(f1, f', sent, mid + TcpLen(seg), limit)
    ensures Sends(f, f', [seg] + sent, mid, limit)
    ensures ([seg] + sent)[1..] == sent && Total([seg] + sent) == TcpLen(seg) + Total(sent)
  {
    hide WithinWindow, Total, TcpLen;
    WindowCons(seg, sent, mid, limit);
    assert f.unsent == [seg] + f1.unsent;
    assert [seg] + (sent + f'.unsent) == [seg] + sent + f'.unsent;
    assert f.unacked + [seg] + sent == f.unacked + ([seg] + sent);
  }

  lemma SendsNone(f: Flow, mid: nat, acked: nat, wnd: u32, base: int)
    requires f.unsent != [] ==> !Fits(f.unsent[0], Wrap(base + acked), wnd) && mid + f.unsent[0].len > acked + wnd
    ensures SendLoop(f, Wrap(base + acked), wnd) == (f, []) && Sends(f, f, [], mid, acked + wnd)
  {
    hide Fits, Wrap;
    assert f.unsent == [] + f.unsent && f.unacked + [] == f.unacked;
  }

  /** Output() sends the longest prefix of unsent that the window allows and only moves it to unacked. */
  lemma OutputKeeps(st: State, base: int, written: seq<byte>, v: View) returns (v': View)
    requires Inv(st, base, written, v)
    ensures var (st', sent) := Output(st);
            && Queue(st') == Queue(st) && st.unsent == sent + st'.unsent
            && WithinWindow(sent, v.first + Total(st.unacked), v.acked + Window(st))
            && (st.ackNow ==> sent == [])
            && (!st.ackNow && st'.unsent != [] ==>
                  v.first + Total(st.unacked) + Total(sent) + st'.unsent[0].len > v.acked + Window(st))
            && var end := v.first + Total(st.unacked) + Total(sent);
            && v' == v.(max := if sent != [] && v.max < end then end else v.max)
            && Total(st'.unacked) == Total(st.unacked) + Total(sent)
            && Inv(st', base, written, v')
  {
    hide Chain, Total, Output, Wrap, PbufCount, WithinWindow, Window, QueueInv, FieldInv;
    OutputCases(st);
    if st.ackNow {
      v' := v;
      NothingWithin(v.first + Total(st.unacked), v.acked + Window(st));
      InvParts(st, base, written, v);
      assert st.unsent == [] + st.unsent;
      MaxNumber(st, base, |written| + Fin(st), v);
      SameQueue(st, st.(ackNow := false), base, written, v, v);
    } else {
      v' := SendsKeep(st, base, written, v);
    }
  }

  lemma OutputCases(st: State)
    ensures st.ackNow ==> Output(st) == (st.(ackNow := false), [])
    ensures !st.ackNow ==>
              var (f, sent) := SendLoop(FlowOf(st), st.lastAck, Window(st));
              Output(st) == (st.(unsent := f.unsent, unacked := f.unacked, sndNxt := f.nxt, sndMax := f.max), sent)
  {
    hide SendLoop, Window;
  }

  lemma SendsKeep(st: State, base: int, written: seq<byte>, v: View) returns (v': View)
    requires Inv(st, base, written, v) && !st.ackNow
    ensures var (st', sent) := Output(st);
            var mid := v.first + Total(st.unacked);
            var end := mid + Total(sent);
            && Queue(st') == Queue(st) && st.unsent == sent + st'.unsent
            && WithinWindow(sent, mid, v.acked + Window(st))
            && (st'.unsent != [] ==> end + st'.unsent[0].len > v.acked + Window(st))
            && v' == v.(max := if sent != [] && v.max < end then end else v.max)
            && Total(st'.unacked) == Total(st.unacked) + Total(sent)
            && Inv(st', base, written, v')
  {
    hide Inv, Total, SendLoop, Wrap, WithinWindow, Window, Output, Queue;
    OutputCases(st);
    var (f', sent) := SendLoop(FlowOf(st), st.lastAck, Window(st));
    var max' := FlowKeeps(st, base, written, v);
    v' := v.(max := max');
    QueueIs(st);
    QueueIs(Output(st).0);
    SameQueue(st, Output(st).0, base, written, v, v');
  }

  lemma QueueIs(st: State)
    ensures Queue(st) == st.unacked + st.unsent
  {
  }

  /** What the loop of tcp_output() does to the lists and to snd_max. */
  lemma FlowKeeps(st: State, base: int, written: seq<byte>, v: View) returns (max': nat)
    requires Inv(st, base, written, v)
    ensures var (f', sent) := SendLoop(FlowOf(st), st.lastAck, Window(st));
            var mid := v.first + Total(st.unacked);
            var end := mid + Total(sent);
            && f'.unacked + f'.unsent == st.unacked + st.unsent && st.unsent == sent + f'.unsent
            && WithinWindow(sent, mid, v.acked + Window(st))
            && (f'.unsent != [] ==> end + f'.unsent[0].len > v.acked + Window(st))
            && Total(f'.unacked) == Total(st.unacked) + Total(sent)
            && max' == (if sent != [] && v.max < end then end else v.max)
            && v.acked <= max' <= |written| + Fin(st) && f'.max == Wrap(base + max')
  {
    hide Chain, Total, SegOk, SendLoop, TcpLen, Wrap, PbufCount, WithinWindow, Sends, Window, QueueInv, FieldInv;
    InvParts(st, base, written, v);
    UnsentStart(st, base, written, v);
    MaxNumber(st, base, |written| + Fin(st), v);
    var mid := v.first + Total(st.unacked);
    var (f', sent) := SendLoop(FlowOf(st), st.lastAck, Window(st));
    max' := SendLoopKeeps(FlowOf(st), mid, v.acked, v.max, Window(st), base, written);
    SendsMeans(FlowOf(st), f', sent, mid, v.acked + Window(st));
  }

  lemma MaxNumber(st: State, base: int, end: nat, v: View)
    requires FieldInv(st, base, end, v)
    ensures st.sndMax == Wrap(base + v.max)
  {
  }

  lemma NothingWithin(at: nat, limit: nat)
    ensures WithinWindow([], at, limit) && Total([]) == 0
  {
  }

  lemma SendsMeans(f: Flow, f': Flow, sent: seq<Segment>, mid: nat, limit: nat)
    requires Sends(f, f', sent, mid, limit)
    ensures f.unsent == sent + f'.unsent && f'.unacked + f'.unsent == f.unacked + f.unsent
    ensures WithinWindow(sent, mid, limit) && (f'.unsent != [] ==> mid + Total(sent) + f'.unsent[0].len > limit)
    ensures Total(sent) <= Total(f.unsent) && Total(f'.unacked) == Total(f.unacked) + Total(sent)
  {
    assert f.unacked + sent + f'.unsent == f.unacked + (sent + f'.unsent);
    Concat(sent, f'.unsent, 0, 0, []);
    Concat(f.unacked, sent, 0, 0, []);
  }

  lemma UnsentStart(st: State, base: int, written: seq<byte>, v: View)
    requires Inv(st, base, written, v)
    ensures var mid := v.first + Total(st.unacked);
            && Chain(st.unsent, mid, base, written) && mid + Total(st.unsent) == |written| + Fin(st)
            && v.acked <= mid + TWO16 && mid <= |written| + Fin(st) && v.max <= mid + TWO16
            && (st.unsent != [] ==> v.acked <= mid + st.unsent[0].len)
  {
    hide Chain, SegOk, Wrap, PbufCount, TcpLen;
    InvParts(st, base, written, v);
    Concat(st.unacked, st.unsent, v.first, base, written);
    if st.unacked != [] {
      TotalHead(st.unacked);
    } else {
      assert Queue(st) == st.unsent;
      if st.unsent != [] {
        FinLast(st.unsent, v.first, base, written);
      }
    }
  }

  lemma FinLast(q: seq<Segment>, at: nat, base: int, written: seq<byte>)
    requires Chain(q, at, base, written) && q != []
    ensures q[0].fin ==> at == |written| && q[0].len == 0
    ensures TcpLen(q[0]) == if q[0].fin then 1 else q[0].len
  {
  }

  lemma SameQueue(st: State, st': State, base: int, written: seq<byte>, v: View, v': View)
    requires Inv(st, base, written, v) && Queue(st') == Queue(st) && st'.queueLen == st.queueLen
    requires v' == v.(max := v'.max) && v.acked <= v'.max <= |written| + Fin(st) && st'.sndMax == Wrap(base + v'.max)
    requires st'.sndLbb == st.sndLbb && st'.lastAck == st.lastAck && st'.sndBuf == st.sndBuf
    requires st'.mss == st.mss && st'.closing == st.closing
    ensures Inv(st', base, written, v')
  {
    hide Chain, Total, Wrap, PbufCount, Queue;
  }

  // ----- Retransmission

  /** Requeueing leaves the concatenation alone, and what is retransmitted is its first segment. */
  lemma RequeueKeeps(st: State, base: int, written: seq<byte>, v: View)
    requires Inv(st, base, written, v)
    ensures Inv(Requeue(st), base, written, v) && Queue(Requeue(st)) == Queue(st)
    ensures Rexmit(Requeue(st)) == [] || (Queue(st) != [] && Rexmit(Requeue(st)) == [Queue(st)[0]])
  {
    hide Inv, Fits;
    if |st.unacked| > 1 {
      assert st.unacked == st.unacked[..1] + st.unacked[1..];
      assert Queue(Requeue(st)) == Queue(st);
    }
    SameQueueRequeue(st, base, written, v);
  }

  /** The first unacked segment is resent exactly when there is one and the window reaches its end. */
  lemma RexmitExactly(st: State, base: int, written: seq<byte>, v: View)
    requires Inv(st, base, written, v)
    ensures Rexmit(Requeue(st)) ==
            if st.unacked != [] && v.first + st.unacked[0].len <= v.acked + Window(st) then [Queue(st)[0]] else []
  {
    hide Fits, PbufCount, Total;
    if st.unacked != [] {
      var s := st.unacked[0];
      assert Queue(st)[0] == s;
      assert SegOk(s, v.first, base, written);
      FitsMeans(s, v.first, v.acked, Window(st), base);
    }
  }

  lemma SameQueueRequeue(st: State, base: int, written: seq<byte>, v: View)
    requires Inv(st, base, written, v) && Queue(Requeue(st)) == Queue(st)
    ensures Inv(Requeue(st), base, written, v)
  {
    hide QueueInv, Queue, Wrap;
    InvParts(st, base, written, v);
    SameQueue(st, Requeue(st), base, written, v, v);
  }

  // ----- snd_nxt

  /** snd_nxt names the first unsent segment, or the end of the queue when everything has been sent. */
  predicate NextIsFirstUnsent(st: State) {
    st.sndNxt == if st.unsent != [] then st.unsent[0].seqno else st.sndLbb
  }

  lemma {:induction false} NextAfterDropIs(q: seq<Segment>, ackno: u32)
    requires q != []
    ensures var rest := DropAcked(q, ackno);
            NextAfterDrop(q, ackno, q[0].seqno) == if rest != [] then rest[0].seqno else q[|q| - 1].seqno
    decreases |q|
  {
    if |q| > 1 && SeqLeq(Wrap(q[0].seqno + TcpLen(q[0])), ackno) {
      NextAfterDropIs(q[1..], ackno);
    }
  }

  lemma LastBelowEnd(q: seq<Segment>, at: nat, base: int, written: seq<byte>)
    requires Chain(q, at, base, written) && q != []
    ensures q[|q| - 1].seqno != Wrap(base + at + Total(q))
  {
    hide Chain, Total;
    SplitLast(q, at, base, written);
    var last := q[|q| - 1];
    SeqCompare(base + at + Total(q[..|q| - 1]), base + at + Total(q));
  }

  lemma AckedAll(st: State, base: int, written: seq<byte>, v: View)
    requires Inv(st, base, written, v)
    ensures st.lastAck == st.sndLbb <==> Queue(st) == []
  {
    hide Chain, PbufCount, SeqLt, SeqGt, SeqLeq, SeqGeq, Wrap;
    SeqCompare(base + v.acked, base + |written| + Fin(st));
    TotalHead(Queue(st));
  }

  /** An ACK leaves snd_nxt stale exactly when it acknowledges everything while requeued segments were waiting. */
  lemma AckNext(st: State, ackno: u32, base: int, written: seq<byte>, v: View)
    requires Inv(st, base, written, v) && NextIsFirstUnsent(st) && Wrap(ackno - st.lastAck) != TWO31
    ensures NextIsFirstUnsent(Ack(st, ackno)) <==> !(Acceptable(st, ackno) && st.unsent != [] && ackno == st.sndLbb)
  {
    hide Inv, Wrap, Acceptable, DropAcked, NextAfterDrop, Ack, QueueLenAfterDrop;
    AckCases(st, ackno);
    if Acceptable(st, ackno) {
      var st' := Ack(st, ackno);
      var v' := AckTaken(st, st', ackno, base, written, v);
      AckedAll(st', base, written, v');
      if st.unsent != [] {
        NextAfterDropIs(st.unsent, ackno);
        LastUnsent(st, base, written, v);
      } else {
        NextOfNothing(ackno, st.sndNxt);
      }
    }
  }

  lemma NextOfNothing(ackno: u32, sndNxt: u32)
    ensures NextAfterDrop([], ackno, sndNxt) == sndNxt && DropAcked([], ackno) == []
  {
  }

  lemma LastUnsent(st: State, base: int, written: seq<byte>, v: View)
    requires Inv(st, base, written, v) && st.unsent != []
    ensures st.unsent[|st.unsent| - 1].seqno != st.sndLbb
  {
    hide Chain, PbufCount, Wrap, Total;
    UnsentStart(st, base, written, v);
    LastBelowEnd(st.unsent, v.first + Total(st.unacked), base, written);
  }

  /** The other operations set snd_nxt right, or keep it right. */
  lemma OthersKeepNext(st: State, data: seq<byte>, fin: bool, copy: bool, fails: set<nat>, base: int,
                       written: seq<byte>, v: View)
    requires Inv(st, base, written, v) && NextIsFirstUnsent(st) && |data| < TWO16
    ensures NextIsFirstUnsent(Requeue(st))
    ensures NextIsFirstUnsent(Enqueue(st, data, fin, copy, fails).0)
  {
    hide Inv, Enqueue, Build, Append;
    EnqueueCases(st, data, fin, copy, fails);
    InvParts(st, base, written, v);
    if Enqueue(st, data, fin, copy, fails).1 {
      var b := Build(data, fin, copy, st.mss, st.sndLbb, st.queueLen, 0, fails);
      AppendFirst(st.unsent, b.queue, fin, st.mss);
      BuildFirst(data, fin, copy, st.mss, st.sndLbb, st.queueLen, fails);
    }
  }

  lemma AppendFirst(unsent: seq<Segment>, queue: seq<Segment>, fin: bool, mss: u16)
    requires queue != []
    ensures var q := Append(unsent, fin, queue, mss);
            q != [] && q[0].seqno == if unsent != [] then unsent[0].seqno else queue[0].seqno
  {
  }

  lemma BuildFirst(data: seq<byte>, fin: bool, copy: bool, mss: u16, seqno: u32, queueLen: u8, fails: set<nat>)
    requires queueLen <= TCP_SND_QUEUELEN
    ensures var b := Build(data, fin, copy, mss, seqno, queueLen, 0, fails);
            b.Built? ==> b.queue != [] && b.queue[0].seqno == seqno
  {
  }

  lemma {:induction false} SendLoopNext(f: Flow, mid: nat, lastAck: u32, wnd: u32, base: int, written: seq<byte>)
    requires Chain(f.unsent, mid, base, written)
    ensures var (f', sent) := SendLoop(f, lastAck, wnd);
            f'.nxt == (if sent != [] then Wrap(base + mid + Total(sent)) else f.nxt)
    decreases |f.unsent|
  {
    hide Fits, SeqLt, SegOk, Wrap;
    if f.unsent != [] && Fits(f.unsent[0], lastAck, wnd) {
      var end := mid + TcpLen(f.unsent[0]);
      FirstSeqno(f.unsent, mid, base, written);
      SendLoopNext(SendHead(f), end, lastAck, wnd, base, written);
      var sent := SendLoop(SendHead(f), lastAck, wnd).1;
      assert ([f.unsent[0]] + sent)[1..] == sent;
    }
  }

  lemma FirstSeqno(q: seq<Segment>, mid: nat, base: int, written: seq<byte>)
    requires Chain(q, mid, base, written) && q != []
    ensures q[0].seqno == Wrap(base + mid) && Wrap(q[0].seqno + TcpLen(q[0])) == Wrap(base + mid + TcpLen(q[0]))
  {
    WrapAdd(base + mid, TcpLen(q[0]));
  }

  /** tcp_output() sets snd_nxt right as soon as it sends a segment, whatever it was before. */
  lemma OutputNext(st: State, base: int, written: seq<byte>, v: View)
    requires Inv(st, base, written, v) && (NextIsFirstUnsent(st) || Output(st).1 != [])
    ensures NextIsFirstUnsent(Output(st).0)
  {
    hide Chain, SendLoop, Wrap, PbufCount, Total, WithinWindow, Inv;
    var (st', sent) := Output(st);
    if sent != [] {
      var mid := v.first + Total(st.unacked);
      UnsentStart(st, base, written, v);
      InvParts(st, base, written, v);
      SendLoopNext(FlowOf(st), mid, st.lastAck, Window(st), base, written);
      var v' := OutputKeeps(st, base, written, v);
      Concat(sent, st'.unsent, mid, base, written);
      if st'.unsent != [] {
        FirstSeqno(st'.unsent, mid + Total(sent), base, written);
      } else {
        TotalHead(st'.unsent);
      }
    } else {
      var v' := OutputKeeps(st, base, written, v);
      assert [] + st'.unsent == st'.unsent;
      NothingSent(st);
    }
  }

  lemma NothingSent(st: State)
    requires Output(st).1 == []
    ensures Output(st).0.sndNxt == st.sndNxt && Output(st).0.sndLbb == st.sndLbb
  {
  }
}
