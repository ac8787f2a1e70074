/** What a retransmission timeout puts back on unsent (SW_stub/lwtcp/tcp.c), and what tcp_output() then sends again. */
module Retransmission {
  import opened SeqNum
  import opened TcpSend
  import opened SendQueue
  import opened SendInvariant

  /** Afterwards the first queued segment alone is unacked, and snd_nxt names the second if that had been sent. */
  lemma RequeueExactly(st: State)
    ensures var q, st' := Queue(st), Requeue(st);
            && (st.unacked == [] ==> st' == st)
            && (st.unacked != [] ==>
                  && st'.unacked == [q[0]] && st'.unsent == q[1..]
                  && st' == st.(unacked := st'.unacked, unsent := st'.unsent, sndNxt := st'.sndNxt)
                  && st'.sndNxt == if |st.unacked| > 1 then q[1].seqno else st.sndNxt)
  {
    if |st.unacked| == 1 {
      assert Queue(st)[1..] == st.unsent;
    } else if st.unacked != [] {
      assert Queue(st)[1..] == st.unacked[1..] + st.unsent;
    }
  }

  /** A transmission leaves everything but the two lists, snd_nxt, snd_max and TF_ACK_NOW alone.  With TF_ACK_NOW set
      it only clears the flag: the segments go out with the next one. */
  lemma OutputFrame(st: State)
    ensures var st' := Output(st).0;
            && !st'.ackNow
            && st' == st.(unsent := st'.unsent, unacked := st'.unacked, sndNxt := st'.sndNxt, sndMax := st'.sndMax,
                          ackNow := false)
            && (st.ackNow ==> Output(st).1 == [] && Output(st') == Output(st.(ackNow := false)))
  {
    hide SendLoop;
  }

  lemma {:induction false} OutputMoves(f: Flow, lastAck: u32, wnd: u32)
    requires forall k :: 0 <= k < |f.unsent| ==> TcpLen(f.unsent[k]) > 0
    ensures var (f', sent) := SendLoop(f, lastAck, wnd); f'.unacked == f.unacked + sent
    decreases |f.unsent|
  {
    hide Fits, SeqLt, Wrap, TcpLen;
    if f.unsent != [] && Fits(f.unsent[0], lastAck, wnd) {
      SendLoopUnfold(f, lastAck, wnd);
      OutputMoves(SendHead(f), lastAck, wnd);
      var sent := SendLoop(SendHead(f), lastAck, wnd).1;
      assert f.unacked + [f.unsent[0]] + sent == f.unacked + ([f.unsent[0]] + sent);
    }
  }

  /** What was sent is what became unacked. */
  lemma SentIsUnacked(st: State, base: int, written: seq<byte>, v: View)
    requires Inv(st, base, written, v)
    ensures Output(st).0.unacked == st.unacked + Output(st).1
  {
    hide SendLoop, Chain, Total, TcpLen, PbufCount, Window;
    UnsentStart(st, base, written, v);
    ChainLens(st.unsent, v.first + Total(st.unacked), base, written);
    OutputCases(st);
    OutputMoves(FlowOf(st), st.lastAck, Window(st));
  }

  /** The segments sent within a limit, if they reach the end of the queue, reach the end of what was written. */
  lemma {:induction false} ReachesEnd(q: seq<Segment>, at: nat, limit: nat, base: int, written: seq<byte>, fin: nat)
    requires Chain(q, at, base, written) && q != [] && at + Total(q) == |written| + fin && fin <= 1
    requires WithinWindow(q, at, limit)
    ensures |written| <= limit
    decreases |q|
  {
    if |q| > 1 {
      ReachesEnd(q[1..], at + TcpLen(q[0]), limit, base, written, fin);
    } else {
      assert q[1..] == [];
    }
  }

  lemma WithinWritten(s: Segment, at: nat, base: int, written: seq<byte>)
    requires SegOk(s, at, base, written)
    ensures at + s.len <= |written|
  {
  }

  /** After a timeout and a tcp_output() the queue is split between what was sent again and what the window left
      unsent, in order; all of it was sent again if and only if the window reaches the end of what was written. */
  lemma TimeoutResends(st: State, base: int, written: seq<byte>, v: View)
    requires Inv(st, base, written, v) && st.unacked != [] && !st.ackNow
    ensures var st1 := Requeue(st);
            var (st2, sent) := Output(st1);
            && Queue(st) == [Queue(st)[0]] + sent + st2.unsent && st2.unacked == [Queue(st)[0]] + sent
            && (Rexmit(st1) + sent == Queue(st) <==> |written| <= v.acked + Window(st))
  {
    hide Inv, Chain, Total, SegOk, Output, Wrap, PbufCount, WithinWindow, Window, TcpLen, Requeue, Rexmit;
    var st1 := Requeue(st);
    RequeueExactly(st);
    RequeueKeeps(st, base, written, v);
    var (st2, sent) := Output(st1);
    var v2 := OutputKeeps(st1, base, written, v);
    SentIsUnacked(st1, base, written, v);
    var q := Queue(st);
    assert q == [q[0]] + q[1..];
    OneSegment(q[0], v.first, base, written);
    assert st2.unsent != [] ==> q[1 + |sent|] == st2.unsent[0];
    assert [q[0]] + (sent + st2.unsent) == [q[0]] + sent + st2.unsent;
    RexmitExactly(st, base, written, v);
    SameWindow(st);
    InvParts(st, base, written, v);
    WindowReaches(q, sent, v.first, v.acked + Window(st), base, written, Fin(st));
  }

  lemma SameWindow(st: State)
    ensures Window(Requeue(st)) == Window(st) && Requeue(st).ackNow == st.ackNow
  {
  }

  /** The first segment if the limit reaches its end, and then sent, are all of q if the limit reaches all of it. */
  lemma WindowReaches(q: seq<Segment>, sent: seq<Segment>, at: nat, limit: nat, base: int, written: seq<byte>, fin: nat)
    requires Chain(q, at, base, written) && q != [] && at + Total(q) == |written| + fin && fin <= 1
    requires sent <= q[1..] && WithinWindow(sent, at + TcpLen(q[0]), limit)
    requires |sent| < |q| - 1 ==> at + TcpLen(q[0]) + Total(sent) + q[1 + |sent|].len > limit
    ensures (if at + q[0].len <= limit then [q[0]] else []) + sent == q <==> |written| <= limit
  {
    hide Chain, Total, SegOk, Wrap, PbufCount, WithinWindow, TcpLen;
    HeadRun(q, at, base, written);
    WithinWritten(q[0], at, base, written);
    var resent := (if at + q[0].len <= limit then [q[0]] else []) + sent;
    if |sent| < |q| - 1 {
      assert sent == q[1..][..|sent|];
      NotAllWithin(q[1..], |sent|, at + TcpLen(q[0]), base, written);
      assert |written| > limit && |resent| < |q|;
    } else if at + q[0].len > limit {
      assert |written| > limit && |resent| < |q|;
    } else {
      assert sent == q[1..] && resent == [q[0]] + sent == q;
      WithinHead(q, at, limit);
      ReachesEnd(q, at, limit, base, written, fin);
    }
  }

  lemma NotAllWithin(q: seq<Segment>, k: nat, at: nat, base: int, written: seq<byte>)
    requires Chain(q, at, base, written) && k < |q|
    ensures at + Total(q[..k]) + q[k].len <= |written|
  {
    hide Chain, Total, SegOk, Wrap, PbufCount, TcpLen;
    assert q == q[..k] + q[k..];
    Concat(q[..k], q[k..], at, base, written);
    HeadRun(q[k..], at + Total(q[..k]), base, written);
    WithinWritten(q[k], at + Total(q[..k]), base, written);
  }

  lemma WithinHead(q: seq<Segment>, at: nat, limit: nat)
    requires q != [] && at + q[0].len <= limit && WithinWindow(q[1..], at + TcpLen(q[0]), limit)
    ensures WithinWindow(q, at, limit)
  {
  }

  // ----- What stays the same

  /** Of an acknowledged prefix of k segments, what was unacked goes first. */
  lemma AckSplits(st: State, ackno: u32, base: int, written: seq<byte>, v: View)
    requires Inv(st, base, written, v) && Acceptable(st, ackno) && Wrap(ackno - st.lastAck) != TWO31
    ensures var q, st' := Queue(st), Ack(st, ackno);
            var k := AckedCount(q, v.first, v.acked + Wrap(ackno - st.lastAck));
            st'.unacked == q[k..if k < |st.unacked| then |st.unacked| else k]
  {
    hide Inv, Wrap, Ack, DropAcked, AckedCount, NextAfterDrop, QueueLenAfterDrop, Acceptable;
    AckCases(st, ackno);
    var v' := AckTaken(st, Ack(st, ackno), ackno, base, written, v);
    InvParts(Ack(st, ackno), base, written, v');
    UnackedDrops(st, ackno, base, written, v, v'.acked);
  }

  lemma UnackedDrops(st: State, ackno: u32, base: int, written: seq<byte>, v: View, ack: nat)
    requires Inv(st, base, written, v) && v.acked <= ack <= |written| + Fin(st) && ackno == Wrap(base + ack)
    ensures var q := Queue(st);
            var k := AckedCount(q, v.first, ack);
            DropAcked(st.unacked, ackno) == q[k..if k < |st.unacked| then |st.unacked| else k]
  {
    hide Chain, Total, Wrap, DropAcked, AckedCount, PbufCount, TcpLen;
    InvParts(st, base, written, v);
    ChainLens(Queue(st), v.first, base, written);
    assert st.unsent != [] ==> st.unsent[0] == Queue(st)[|st.unacked|];
    Concat(st.unacked, st.unsent, v.first, base, written);
    DropAckedIs(st.unacked, v.first, ack, base, written);
    AckedCountConcat(st.unacked, st.unsent, v.first, ack);
  }

  /** snd_nxt after an ACK that takes k segments off unsent: the next of them, or the last if there is none. */
  lemma {:induction false} NextAfterDrops(q: seq<Segment>, ackno: u32, sndNxt: u32)
    ensures var k := |q| - |DropAcked(q, ackno)|;
            && 0 <= k && DropAcked(q, ackno) == q[k..]
            && NextAfterDrop(q, ackno, sndNxt) ==
               if k == 0 || |q| == 1 then sndNxt else if k < |q| then q[k].seqno else q[|q| - 1].seqno
    decreases |q|
  {
    hide SeqLeq, Wrap;
    if q != [] && SeqLeq(Wrap(q[0].seqno + TcpLen(q[0])), ackno) {
      NextAfterDrops(q[1..], ackno, if |q| > 1 then q[1].seqno else sndNxt);
    }
  }

  /** An ACK changes the two lists and the fields that go with them, and nothing else. */
  lemma AckFrame(st: State, ackno: u32)
    ensures var st' := Ack(st, ackno);
            && st' == st.(unsent := st'.unsent, unacked := st'.unacked, sndNxt := st'.sndNxt, lastAck := st'.lastAck,
                          sndBuf := st'.sndBuf, queueLen := st'.queueLen)
            && (st'.sndNxt != st.sndNxt ==> st'.unsent != st.unsent)
  {
    hide Acceptable, Wrap16, QueueLenAfterDrop, SeqLeq;
    NextAfterDrops(st.unsent, ackno, st.sndNxt);
  }
}
