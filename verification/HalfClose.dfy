/** When tcp_process() takes our FIN for acknowledged, and when it is: the test ackno == snd_nxt of FIN_WAIT_1, CLOSING
    and LAST_ACK in SW_stub/lwtcp/tcp_input.c, on the send queue behind it. */
module HalfClose {
  import opened SeqNum
  import opened TcpSend
  import opened SendQueue
  import opened SendInvariant
  import SR = SendRuns
  import L = PcbLists
  import P = PcbStates
  import PR = PcbRuns

  /** A FIN was queued, and everything up to and including it is acknowledged. */
  predicate FinAcked(st: State) {
    st.closing && st.lastAck == st.sndLbb
  }

  /** The segment as tcp_process() sees it, after tcp_receive() has dealt with its ACK number. */
  function Seen(g: P.Segment, st: State, ackno: u32): P.Segment {
    g.(ack := true, acksNext := ackno == Ack(st, ackno).sndNxt)
  }

  /** What the state says of our direction after the segment. */
  predicate TakenForAcked(state: L.State, g: P.Segment, st: State, ackno: u32)
    requires PR.Synchronised(state) && !g.rst
  {
    var v := P.Process(state, Seen(g, st, ackno));
    PR.HalvesOf(PR.After(state, v)).ours == PR.NextAcked
  }

  /** While a FIN is queued, an ACK number equal to snd_nxt acknowledges it exactly when nothing is left unsent. And
      when the FIN is acknowledged, its ACK number fails to equal snd_nxt exactly when it covers segments that
      tcp_slowtmr() had put back on unsent. */
  lemma NextMeans(st: State, ackno: u32, base: int, written: seq<byte>, v: View)
    requires Inv(st, base, written, v) && AllSent(st, v) && NextIsFirstUnsent(st) && st.closing
    requires Wrap(ackno - st.lastAck) != TWO31
    ensures var st' := Ack(st, ackno);
            && (ackno == st'.sndNxt ==> (FinAcked(st') <==> st'.unsent == []))
            && (ackno == st.sndLbb && FinAcked(st') ==>
                  (ackno == st'.sndNxt <==> !(Acceptable(st, ackno) && st.unsent != [])))
  {
    hide Inv, Ack, Wrap, Acceptable, DropAcked, NextAfterDrop, QueueLenAfterDrop, AllSent, Chain, Total;
    var st' := Ack(st, ackno);
    AckCases(st, ackno);
    AckNext(st, ackno, base, written, v);
    var v' := AckKeeps(st, ackno, base, written, v);
    AckedAll(st', base, written, v');
    if ackno == st'.sndNxt && st'.unsent == [] {
      if NextIsFirstUnsent(st') {
        LastNumber(st, ackno, base, written, v);
      } else {
        NextAfterDropIs(st.unsent, ackno);
        LastUnsent(st, base, written, v);
        assert false;
      }
    }
  }

  lemma LastNumber(st: State, ackno: u32, base: int, written: seq<byte>, v: View)
    requires Inv(st, base, written, v) && AllSent(st, v) && ackno == st.sndLbb && Ack(st, ackno).unsent == []
    ensures Ack(st, ackno).lastAck == ackno
  {
    hide Inv, Ack, Wrap, Acceptable, Chain, Total, PbufCount, DropAcked;
    AckCases(st, ackno);
    if !Acceptable(st, ackno) {
      assert st.unsent == [];
      AckAccepted(st, ackno, base, written, v);
      InvParts(st, base, written, v);
      UnsentStart(st, base, written, v);
      TotalHead([]);
      SameNumber(base + v.acked, base + |written| + Fin(st));
      AllOut(st, v, |written| + Fin(st));
    }
  }

  lemma AllOut(st: State, v: View, end: nat)
    requires AllSent(st, v) && v.first + Total(st.unacked) == end && v.max <= end
    ensures v.max == end
  {
  }

  lemma SameNumber(x: int, y: int)
    requires x <= y < x + TWO31
    ensures Wrap(Wrap(y) - Wrap(x)) == y - x
  {
    WrapSub(y, x);
  }

  /** So, of a segment that arrives while our FIN is queued: it is taken for an acknowledgement of the FIN that it is
      not exactly when its ACK number is snd_nxt and something is left unsent; and it acknowledges the FIN without
      being taken for that exactly when it covers requeued segments. */
  lemma TakenExactly(state: L.State, g: P.Segment, st: State, ackno: u32, base: int, written: seq<byte>, v: View)
    requires PR.Synchronised(state) && PR.HalvesOf(state).ours == PR.FinQueued && !g.rst && st.closing
    requires Inv(st, base, written, v) && AllSent(st, v) && NextIsFirstUnsent(st)
    requires Wrap(ackno - st.lastAck) != TWO31
    ensures var st', taken := Ack(st, ackno), TakenForAcked(state, g, st, ackno);
            && (taken && !FinAcked(st') <==> ackno == st'.sndNxt && st'.unsent != [])
            && (!taken && FinAcked(st') && ackno == st.sndLbb
                <==> Acceptable(st, ackno) && ackno == st.sndLbb && st.unsent != [])
  {
    hide Inv, Ack, Wrap, Acceptable, AllSent, NextIsFirstUnsent, P.Process, PR.After, PR.HalvesOf, Queue;
    NextMeans(st, ackno, base, written, v);
    AckCases(st, ackno);
    TakenIs(state, g, st, ackno);
  }

  lemma TakenIs(state: L.State, g: P.Segment, st: State, ackno: u32)
    requires PR.Synchronised(state) && PR.HalvesOf(state).ours == PR.FinQueued && !g.rst
    ensures TakenForAcked(state, g, st, ackno) <==> ackno == Ack(st, ackno).sndNxt
  {
    hide Ack;
  }

  // ----- Runs in which the two disagree

  const BLANK := P.Segment(L.Tuple(0, 0, 0, 0), false, false, false, false, false, false, false, false)

  /** One-byte segments and a congestion window of one: the first of two bytes is sent, the application closes, and the
      ACK of that byte, which is what snd_nxt names, frees the PCB with a byte and the FIN still to be sent. */
  lemma FreedUnsent()
    ensures var st, evs := SR.Fresh(0, 256, 1, 1024, 1), [SR.Write([1, 2], true, {}), SR.Transmit, SR.Close({})];
            var closing := SR.Run(st, evs).st;
            && SR.SaneRun(st, evs) && closing.closing && NextIsFirstUnsent(closing)
            && P.Process(L.LAST_ACK, Seen(BLANK, closing, 1)) == P.Go(L.CLOSED)
            && |Ack(closing, 1).unsent| == 2 && !FinAcked(Ack(closing, 1))
  {
    hide SR.Run, SR.SaneRun, SR.Step, P.Process, Ack;
    var st := SR.Fresh(0, 256, 1, 1024, 1);
    var x, y, fin := Segment(0, 1, false, [1], 1), Segment(1, 1, false, [2], 1), Segment(2, 0, true, [], 1);
    var st1 := st.(unsent := [x, y], sndLbb := 2, sndBuf := 254, queueLen := 2);
    var st2 := st1.(unsent := [y], unacked := [x], sndNxt := 1, sndMax := 1);
    var st3 := st2.(unsent := [y, fin], sndLbb := 3, sndBuf := 253, queueLen := 3, closing := true);
    SR.WriteTwo(st, st1, x, y, 1);
    SendFirst(st1, st2, x, y);
    CloseBehind(st2, st3, y, fin);
    AckFirst(st3, x, y, fin);
    SR.RunThree(st, SR.Write([1, 2], true, {}), SR.Transmit, SR.Close({}));
    Verdicts(st3, 1);
  }

  /** A byte and the FIN are sent, the timer puts the FIN back on unsent, and the ACK of both arrives: the FIN is
      acknowledged, and tcp_process() takes no notice. */
  lemma FinAckMissed()
    ensures var st := SR.Fresh(0, 256, 1, 1024, 1024);
            var evs := [SR.Write([1], true, {}), SR.Close({}), SR.Transmit, SR.Timeout];
            var closing := SR.Run(st, evs).st;
            && SR.SaneRun(st, evs) && closing.closing && NextIsFirstUnsent(closing)
            && FinAcked(Ack(closing, 2)) && Queue(Ack(closing, 2)) == []
            && Ack(closing, 2).sndMax == 2 && Ack(closing, 2).sndNxt == 1
            && P.Process(L.LAST_ACK, Seen(BLANK, closing, 2)) == P.Stay
  {
    hide SR.Run, SR.SaneRun, SR.Step, P.Process, Ack;
    var st := SR.Fresh(0, 256, 1, 1024, 1024);
    var x, fin := Segment(0, 1, false, [1], 1), Segment(1, 0, true, [], 1);
    var st1 := st.(unsent := [x], sndLbb := 1, sndBuf := 255, queueLen := 1);
    var st2 := st1.(unsent := [x, fin], sndLbb := 2, sndBuf := 254, queueLen := 2, closing := true);
    var st3 := st2.(unsent := [], unacked := [x, fin], sndNxt := 2, sndMax := 2);
    var st4 := st3.(unsent := [fin], unacked := [x], sndNxt := 1);
    WriteOne(st, st1, x);
    CloseAtOnce(st1, st2, x, fin);
    SendBoth(st2, st3, x, fin);
    SR.RequeueTwo(st3, st4, x, fin);
    AckBoth(st4, x, fin);
    SR.RunTwo(st, SR.Write([1], true, {}), SR.Close({}));
    SR.RunTwo(st2, SR.Transmit, SR.Timeout);
    SR.RunFour(st, SR.Write([1], true, {}), SR.Close({}), SR.Transmit, SR.Timeout);
    Verdicts(st4, 2);
  }

  /** And nothing that happens later mends it: nothing is left to be sent, and snd_nxt keeps naming an acknowledged
      number, so that only an old ACK number can still close the connection. */
  lemma {:induction false} MissedForGood(st: State, evs: seq<SR.Event>)
    requires FinAcked(st) && Queue(st) == [] && st.sndMax == st.lastAck && SR.SaneRun(st, evs)
    ensures var st' := SR.Run(st, evs).st;
            FinAcked(st') && Queue(st') == [] && st'.lastAck == st.lastAck && st'.sndNxt == st.sndNxt
    decreases |evs|
  {
    hide Acceptable;
    if evs != [] {
      NothingMore(st, evs[0]);
      MissedForGood(SR.Step(st, evs[0]).st, evs[1..]);
    }
  }

  lemma NothingMore(st: State, ev: SR.Event)
    requires FinAcked(st) && Queue(st) == [] && st.sndMax == st.lastAck && SR.Sane(st, ev)
    ensures var st' := SR.Step(st, ev).st;
            && FinAcked(st') && Queue(st') == [] && st'.lastAck == st.lastAck && st'.sndNxt == st.sndNxt
            && st'.sndMax == st.sndMax
  {
    hide SeqLt, Enqueue;
    assert st.unacked == [] && st.unsent == [];
    if ev.AckReceived? {
      SeqLtMeans(st.lastAck, ev.ackno);
      SeqLtMeans(ev.ackno, st.lastAck);
      assert !Acceptable(st, ev.ackno);
    }
  }

  lemma Verdicts(st: State, ackno: u32)
    ensures var v := P.Process(L.LAST_ACK, Seen(BLANK, st, ackno));
            v == if ackno == Ack(st, ackno).sndNxt then P.Go(L.CLOSED) else P.Stay
  {
    hide Ack;
  }

  lemma SendFirst(st1: State, st2: State, x: Segment, y: Segment)
    requires x == Segment(0, 1, false, [1], 1) && y == Segment(1, 1, false, [2], 1)
    requires st1 == SR.Fresh(0, 256, 1, 1024, 1).(unsent := [x, y], sndLbb := 2, sndBuf := 254, queueLen := 2)
    requires st2 == st1.(unsent := [y], unacked := [x], sndNxt := 1, sndMax := 1)
    ensures SR.Step(st1, SR.Transmit).st == st2
  {
    var f, f1 := Flow([x, y], [], 0, 0), Flow([y], [x], 1, 1);
    assert SendHead(f) == f1 by { assert [x, y][1..] == [y]; }
    SendLoopUnfold(f, 0, 1);
    assert !Fits(y, 0, 1);
  }

  lemma CloseBehind(st2: State, st3: State, y: Segment, fin: Segment)
    requires fin == Segment(2, 0, true, [], 1) && st2.unsent == [y] && st2.sndLbb == 2 && st2.sndBuf == 254
    requires st2.queueLen == 2 && !st2.closing && st2.mss == 1
    requires st3 == st2.(unsent := [y, fin], sndLbb := 3, sndBuf := 253, queueLen := 3, closing := true)
    ensures SR.Step(st2, SR.Close({})).st == st3
  {
    assert Build([], true, true, 1, 2, 2, 0, {}) == Built([fin], 3);
    assert [y] + [fin] == [y, fin];
  }

  lemma AckFirst(st3: State, x: Segment, y: Segment, fin: Segment)
    requires x == Segment(0, 1, false, [1], 1) && y == Segment(1, 1, false, [2], 1)
    requires st3.unacked == [x] && st3.unsent == [y, fin] && st3.lastAck == 0 && st3.sndMax == 1 && st3.sndNxt == 1
    requires st3.sndLbb == 3
    ensures var st4 := Ack(st3, 1);
            st4.unsent == [y, fin] && st4.unacked == [] && st4.sndNxt == 1 && st4.lastAck == 1 && st4.sndLbb == 3
  {
    assert [x][1..] == [];
    assert DropAcked([x], 1) == [] && DropAcked([y, fin], 1) == [y, fin];
    assert NextAfterDrop([y, fin], 1, 1) == 1;
  }

  lemma WriteOne(st: State, st1: State, x: Segment)
    requires st == SR.Fresh(0, 256, 1, 1024, 1024) && x == Segment(0, 1, false, [1], 1)
    requires st1 == st.(unsent := [x], sndLbb := 1, sndBuf := 255, queueLen := 1)
    ensures SR.Step(st, SR.Write([1], true, {})).st == st1
  {
    var data: seq<byte> := [1];
    assert data[..1] == [1];
    assert Build(data, false, true, 1, 0, 0, 0, {}) == Built([x], 1);
    assert [] + [x] == [x];
  }

  lemma CloseAtOnce(st1: State, st2: State, x: Segment, fin: Segment)
    requires fin == Segment(1, 0, true, [], 1) && st1.unsent == [x] && st1.sndLbb == 1 && st1.sndBuf == 255
    requires st1.queueLen == 1 && !st1.closing && st1.mss == 1
    requires st2 == st1.(unsent := [x, fin], sndLbb := 2, sndBuf := 254, queueLen := 2, closing := true)
    ensures SR.Step(st1, SR.Close({})).st == st2
  {
    assert Build([], true, true, 1, 1, 1, 0, {}) == Built([fin], 2);
    assert [x] + [fin] == [x, fin];
  }

  lemma SendBoth(st2: State, st3: State, x: Segment, fin: Segment)
    requires x == Segment(0, 1, false, [1], 1) && fin == Segment(1, 0, true, [], 1)
    requires st2 == State([x, fin], [], 2, 0, 0, 0, 254, 2, 1, 1024, 1024, false, true)
    requires st3 == State([], [x, fin], 2, 2, 2, 0, 254, 2, 1, 1024, 1024, false, true)
    ensures SR.Step(st2, SR.Transmit).st == st3
  {
    var f, f1, f2 := Flow([x, fin], [], 0, 0), Flow([fin], [x], 1, 1), Flow([], [x, fin], 2, 2);
    assert SendHead(f) == f1 by { assert [x, fin][1..] == [fin]; }
    assert SendHead(f1) == f2 by { assert [fin][1..] == [] && [x] + [fin] == [x, fin]; }
    SendLoopUnfold(f, 0, 1024);
    SendLoopUnfold(f1, 0, 1024);
  }

  lemma AckBoth(st4: State, x: Segment, fin: Segment)
    requires x == Segment(0, 1, false, [1], 1) && fin == Segment(1, 0, true, [], 1)
    requires st4 == State([fin], [x], 2, 1, 2, 0, 254, 2, 1, 1024, 1024, false, true)
    ensures var st5 := Ack(st4, 2);
            st5.unsent == [] && st5.unacked == [] && st5.sndNxt == 1 && st5.lastAck == 2 && st5.sndLbb == 2
            && st5.sndMax == 2 && st5.closing
  {
    assert [fin][1..] == [] && [x][1..] == [];
    assert DropAcked([fin], 2) == [] && DropAcked([x], 2) == [];
    assert NextAfterDrop([fin], 2, 1) == 1;
  }
}
