/** Whole runs of the send side: everything put on the wire is a true slice of what the application wrote. */
module SendRuns {
  import opened SeqNum
  import R = Reassembly
  import opened TcpSend
  import opened SendQueue
  import opened SendInvariant

  type Block = s: seq<byte> | |s| < 0x1_0000

  /**
   What can happen to the send side of a synchronised connection.  Windows stands for every change of the peer's
   window and of the congestion window; AckDue for tcp_ack_now() setting TF_ACK_NOW; FastRetransmit for the third
   duplicate ACK, which resends the first unacked segment without requeueing the others.
   */
  datatype Event =
    | Write(data: Block, copy: bool, fails: set<nat>)
    | Close(failing: set<nat>)
    | Transmit
    | AckDue
    | AckReceived(ackno: u32)
    | Timeout
    | FastRetransmit
    | Windows(sndWnd: u32, cwnd: u16)

  /** New state, segments handed to IP, bytes accepted from the application. */
  datatype Outcome = Outcome(st: State, sent: seq<Segment>, accepted: seq<byte>)

  function Step(st: State, ev: Event): Outcome {
    match ev
    case Write(data, copy, fails) =>
      if st.closing || data == [] then Outcome(st, [], [])
      else
        var (st', ok) := Enqueue(st, data, false, copy, fails);
        Outcome(st', [], if ok then data else [])
    case Close(failing) =>
      if st.closing then Outcome(st, [], [])
      else
        var (st', ok) := Enqueue(st, [], true, true, failing);
        Outcome(if ok then st'.(closing := true) else st', [], [])
    case Transmit => var (st', sent) := Output(st); Outcome(st', sent, [])
    case AckDue => Outcome(st.(ackNow := true), [], [])
    case AckReceived(ackno) => Outcome(Ack(st, ackno), [], [])
    case Timeout => Outcome(Requeue(st), Rexmit(Requeue(st)), [])
    case FastRetransmit => Outcome(st, Rexmit(st), [])
    case Windows(sndWnd, cwnd) => Outcome(st.(sndWnd := sndWnd, cwnd := cwnd), [], [])
  }

  /** The only excluded event: an ACK number exactly 2^31 ahead of snd_una. */
  predicate Sane(st: State, ev: Event) {
    ev.AckReceived? ==> Wrap(ev.ackno - st.lastAck) != TWO31
  }

  // ----- Pieces of the stream carried by a run of segments

  ghost function Pieces(q: seq<Segment>, at: nat): set<R.Piece> {
    if q == [] then {}
    else (if q[0].fin then {} else {R.Piece(at, q[0].data)}) + Pieces(q[1..], at + TcpLen(q[0]))
  }

  lemma {:induction false} PiecesConcat(a: seq<Segment>, b: seq<Segment>, at: nat)
    ensures Pieces(a + b, at) == Pieces(a, at) + Pieces(b, at + Total(a))
    decreases |a|
  {
    if a == [] {
      assert a + b == b;
    } else {
      assert (a + b)[1..] == a[1..] + b;
      PiecesConcat(a[1..], b, at + TcpLen(a[0]));
    }
  }

  /** Neither piece reaches over the start of the other, unless they start together. */
  predicate Apart(p: R.Piece, x: R.Piece) {
    (p.at < x.at ==> p.End() <= x.at) && (x.at < p.at ==> x.End() <= p.at)
  }

  ghost predicate AllApart(a: set<R.Piece>, b: set<R.Piece>) {
    forall p, x :: p in a && x in b ==> Apart(p, x)
  }

  ghost predicate Genuine(a: set<R.Piece>, written: seq<byte>) {
    forall p :: p in a ==> R.IsSlice(p, written) && 0 < |p.data| <= TCP_MSS
  }

  lemma {:induction false} ChainPieces(q: seq<Segment>, at: nat, base: int, written: seq<byte>)
    requires Chain(q, at, base, written)
    ensures Genuine(Pieces(q, at), written) && AllApart(Pieces(q, at), Pieces(q, at))
    ensures forall p :: p in Pieces(q, at) ==> at <= p.at && p.End() <= at + Total(q)
    decreases |q|
  {
    if q != [] {
      ChainPieces(q[1..], at + TcpLen(q[0]), base, written);
    }
  }

  /** What was ever put on the wire (hist) is genuine and never straddles the start of a segment, sent or queued. */
  ghost predicate History(hist: set<R.Piece>, st: State, written: seq<byte>, v: View) {
    Genuine(hist, written) && AllApart(hist, hist) && AllApart(hist, Pieces(Queue(st), v.first))
  }

  /** Each transmitted data segment is, byte for byte and under its sequence number, a recorded piece. */
  ghost predicate Recorded(sent: seq<Segment>, hist: set<R.Piece>, base: int) {
    forall s :: s in sent && !s.fin ==> exists p :: p in hist && s.seqno == Wrap(base + p.at) && s.data == p.data
  }

  lemma {:induction false} ChainRecorded(q: seq<Segment>, at: nat, base: int, written: seq<byte>)
    requires Chain(q, at, base, written)
    ensures Recorded(q, Pieces(q, at), base)
    decreases |q|
  {
    if q != [] {
      ChainRecorded(q[1..], at + TcpLen(q[0]), base, written);
      if !q[0].fin {
        assert R.Piece(at, q[0].data) in Pieces(q, at);
      }
    }
  }

  lemma GenuineExtend(a: set<R.Piece>, written: seq<byte>, more: seq<byte>)
    requires Genuine(a, written)
    ensures Genuine(a, written + more)
  {
  }

  /** x is an old piece, or starts at or after the old end, or extends an old piece that ended there. */
  ghost predicate Follows(x: R.Piece, before: set<R.Piece>, end: nat) {
    || x in before
    || x.at >= end
    || exists u :: u in before && u.at == x.at && u.End() == end
  }

  /** New segments start at the old end; the only old one that changes is the last, which grows from the old end. */
  lemma AppendPieces(unsent: seq<Segment>, queue: seq<Segment>, fin: bool, mss: u16, mid: nat, base: int,
                     written: seq<byte>, written': seq<byte>)
    requires Chain(unsent, mid, base, written) && Chain(queue, mid + Total(unsent), base, written')
    requires queue != [] && mss <= TCP_MSS
    ensures var end := mid + Total(unsent);
            forall x :: x in Pieces(Append(unsent, fin, queue, mss), mid) ==> Follows(x, Pieces(unsent, mid), end)
  {
    hide Append, Merges, Chain, Total, Pieces, SegOk, TcpLen, Chained;
    var end := mid + Total(unsent);
    AppendIs(unsent, fin, queue, mss);
    ChainPieces(queue, end, base, written');
    if Merges(unsent, fin, queue[0], mss) {
      MergingPieces(unsent, queue, mid, base, written, written');
    } else {
      PiecesConcat(unsent, queue, mid);
    }
  }

  lemma MergingPieces(unsent: seq<Segment>, queue: seq<Segment>, mid: nat, base: int, written: seq<byte>,
                      written': seq<byte>)
    requires Chain(unsent, mid, base, written) && Chain(queue, mid + Total(unsent), base, written')
    requires queue != [] && unsent != [] && !unsent[|unsent| - 1].fin &&
             unsent[|unsent| - 1].len + queue[0].len <= TCP_MSS
    ensures var q := unsent[..|unsent| - 1] + ([Chained(unsent[|unsent| - 1], queue[0])] + queue[1..]);
            forall x :: x in Pieces(q, mid) ==> Follows(x, Pieces(unsent, mid), mid + Total(unsent))
  {
    hide Chain, Total, Pieces, SegOk, TcpLen, Chained;
    var end, front, useg := mid + Total(unsent), unsent[..|unsent| - 1], unsent[|unsent| - 1];
    var a, tail := mid + Total(front), [Chained(useg, queue[0])] + queue[1..];
    SplitLast(unsent, mid, base, written);
    assert unsent == front + [useg];
    PiecesConcat(front, [useg], mid);
    PiecesConcat(front, tail, mid);
    MergedPieces(useg, queue, a, base, written, written');
    forall x | x in Pieces(tail, a) ensures Follows(x, Pieces(unsent, mid), end) {
      assert R.Piece(a, useg.data) in Pieces(unsent, mid) && R.Piece(a, useg.data).End() == end;
    }
  }

  lemma MergedPieces(useg: Segment, queue: seq<Segment>, a: nat, base: int, written: seq<byte>, written': seq<byte>)
    requires SegOk(useg, a, base, written) && !useg.fin && queue != [] && useg.len + queue[0].len <= TCP_MSS
    requires Chain(queue, a + TcpLen(useg), base, written')
    ensures R.Piece(a, useg.data) in Pieces([useg], a) && a + |useg.data| == a + TcpLen(useg)
    ensures forall x :: x in Pieces([Chained(useg, queue[0])] + queue[1..], a) ==> x.at == a || x.at >= a + TcpLen(useg)
  {
    var rest := queue[1..];
    var q := [Chained(useg, queue[0])] + rest;
    assert q[1..] == rest;
    ChainPieces(queue, a + TcpLen(useg), base, written');
    hide Chain;
  }

  lemma WriteHistory(st: State, st': State, queue: seq<Segment>, fin: bool, base: int, written: seq<byte>,
                     written': seq<byte>, v: View, hist: set<R.Piece>)
    requires Inv(st, base, written, v) && History(hist, st, written, v) && !st.closing
    requires queue != [] && Chain(queue, |written|, base, written')
    requires st'.unacked == st.unacked && st'.unsent == Append(st.unsent, fin, queue, st.mss)
    ensures AllApart(hist, Pieces(Queue(st'), v.first))
  {
    hide Append, Chain, Total, Pieces, Wrap, PbufCount, TcpLen;
    InvParts(st, base, written, v);
    UnsentStart(st, base, written, v);
    var mid := v.first + Total(st.unacked);
    PiecesConcat(st.unacked, st.unsent, v.first);
    PiecesConcat(st'.unacked, st'.unsent, v.first);
    AppendPieces(st.unsent, queue, fin, st.mss, mid, base, written, written');
    ApartAfter(hist, Pieces(st.unsent, mid), Pieces(st'.unsent, mid), written);
  }

  lemma ApartAfter(hist: set<R.Piece>, before: set<R.Piece>, after: set<R.Piece>, written: seq<byte>)
    requires Genuine(hist, written) && AllApart(hist, before)
    requires forall x :: x in after ==> Follows(x, before, |written|)
    ensures AllApart(hist, after)
  {
    forall p, x | p in hist && x in after ensures Apart(p, x) {
      assert p.End() <= |written|;
      if x !in before && x.at < |written| {
        var u :| u in before && u.at == x.at && u.End() == |written|;
        assert Apart(p, u);
      }
    }
  }

  // ----- One event

  lemma WriteStep(st: State, data: Block, fin: bool, copy: bool, fails: set<nat>, base: int, written: seq<byte>,
                  v: View, hist: set<R.Piece>)
    requires Inv(st, base, written, v) && History(hist, st, written, v) && !st.closing
    requires if fin then data == [] else data != []
    ensures var (st', ok) := Enqueue(st, data, fin, copy, fails);
            && (!ok ==> st' == st)
            && (ok ==> Inv(st'.(closing := fin), base, written + data, v)
                       && History(hist, st'.(closing := fin), written + data, v))
  {
    hide Append, SegOk, Wrap, Wrap16, Total, Chain, PbufCount, TcpLen, Enqueue, Build, Inv, Pieces, Genuine, AllApart;
    EnqueueCases(st, data, fin, copy, fails);
    EnqueueKeeps(st, data, fin, copy, fails, base, written, v);
    var (st', ok) := Enqueue(st, data, fin, copy, fails);
    if ok {
      InvParts(st, base, written, v);
      var b := Build(data, fin, copy, st.mss, st.sndLbb, st.queueLen, 0, fails);
      assert (written + data)[|written|..|written| + |data|] == data;
      BuildChain(data, fin, copy, st.mss, |written|, st.queueLen, 0, fails, base, written + data);
      WriteHistory(st, st'.(closing := fin), b.queue, fin, base, written, written + data, v, hist);
      GenuineExtend(hist, written, data);
    }
  }

  lemma SendHistory(hist: set<R.Piece>, sent: set<R.Piece>, q: seq<Segment>, at: nat, base: int, written: seq<byte>)
    requires Chain(q, at, base, written) && sent <= Pieces(q, at)
    requires Genuine(hist, written) && AllApart(hist, hist) && AllApart(hist, Pieces(q, at))
    ensures Genuine(hist + sent, written) && AllApart(hist + sent, hist + sent) && AllApart(hist + sent, Pieces(q, at))
  {
    ChainPieces(q, at, base, written);
    hide Chain, Pieces;
  }

  lemma TransmitStep(st: State, base: int, written: seq<byte>, v: View, hist: set<R.Piece>)
    returns (v': View, hist': set<R.Piece>)
    requires Inv(st, base, written, v) && History(hist, st, written, v)
    ensures var (st', sent) := Output(st);
            && hist <= hist' && Inv(st', base, written, v') && History(hist', st', written, v')
            && Recorded(sent, hist', base) && (AllSent(st, v) ==> AllSent(st', v'))
  {
    hide Output, Chain, Total, Pieces, Wrap, PbufCount, TcpLen, WithinWindow, Inv, Genuine, AllApart;
    var (st', sent) := Output(st);
    v' := OutputKeeps(st, base, written, v);
    TotalHead(sent);
    InvParts(st, base, written, v);
    UnsentStart(st, base, written, v);
    var mid := v.first + Total(st.unacked);
    PiecesConcat(st.unacked, st.unsent, v.first);
    PiecesConcat(sent, st'.unsent, mid);
    Concat(sent, st'.unsent, mid, base, written);
    hist' := hist + Pieces(sent, mid);
    SendHistory(hist, Pieces(sent, mid), Queue(st), v.first, base, written);
    ChainRecorded(sent, mid, base, written);
    RecordedMore(sent, Pieces(sent, mid), hist', base);
  }

  lemma RecordedMore(sent: seq<Segment>, hist: set<R.Piece>, hist': set<R.Piece>, base: int)
    requires Recorded(sent, hist, base) && hist <= hist'
    ensures Recorded(sent, hist', base)
  {
    hide Wrap;
    forall s | s in sent && !s.fin ensures exists p :: p in hist' && s.seqno == Wrap(base + p.at) && s.data == p.data {
      var p :| p in hist && s.seqno == Wrap(base + p.at) && s.data == p.data;
      assert p in hist';
    }
  }

  /** Sending the first segment of the queue again, or nothing. */
  lemma ResendStep(st: State, sent: seq<Segment>, base: int, written: seq<byte>, v: View, hist: set<R.Piece>)
    returns (hist': set<R.Piece>)
    requires Inv(st, base, written, v) && History(hist, st, written, v)
    requires sent == [] || (Queue(st) != [] && sent == [Queue(st)[0]])
    ensures hist <= hist' && History(hist', st, written, v) && Recorded(sent, hist', base)
  {
    hide Chain, Total, Pieces, Wrap, PbufCount, TcpLen, Inv, Genuine, AllApart, Recorded;
    InvParts(st, base, written, v);
    var q := Queue(st);
    hist' := hist + Pieces(sent, v.first);
    if sent != [] {
      assert q == sent + q[1..];
      PiecesConcat(sent, q[1..], v.first);
      Concat(sent, q[1..], v.first, base, written);
    } else {
      PiecesConcat([], q, v.first);
      Concat([], q, v.first, base, written);
      assert [] + q == q;
    }
    SendHistory(hist, Pieces(sent, v.first), q, v.first, base, written);
    ChainRecorded(sent, v.first, base, written);
    RecordedMore(sent, Pieces(sent, v.first), hist', base);
  }

  lemma TimeoutStep(st: State, base: int, written: seq<byte>, v: View, hist: set<R.Piece>) returns (hist': set<R.Piece>)
    requires Inv(st, base, written, v) && History(hist, st, written, v)
    ensures var st' := Requeue(st);
            && hist <= hist' && Inv(st', base, written, v) && History(hist', st', written, v)
            && Recorded(Rexmit(st'), hist', base) && (AllSent(st, v) ==> AllSent(st', v))
  {
    hide Requeue, Rexmit, Pieces, Inv, Genuine, AllApart, Recorded, AllSent;
    RequeueKeeps(st, base, written, v);
    hist' := ResendStep(Requeue(st), Rexmit(Requeue(st)), base, written, v, hist);
    if AllSent(st, v) {
      RequeueSent(st, v);
    }
  }

  lemma RequeueSent(st: State, v: View)
    requires AllSent(st, v)
    ensures AllSent(Requeue(st), v)
  {
    if |st.unacked| > 1 {
      assert st.unacked[..1][1..] == [];
    }
  }

  lemma AckStep(st: State, ackno: u32, base: int, written: seq<byte>, v: View, hist: set<R.Piece>) returns (v': View)
    requires Inv(st, base, written, v) && History(hist, st, written, v) && Wrap(ackno - st.lastAck) != TWO31
    ensures Inv(Ack(st, ackno), base, written, v') && History(hist, Ack(st, ackno), written, v')
    ensures AllSent(st, v) ==> AllSent(Ack(st, ackno), v')
  {
    hide Ack, Chain, Total, Pieces, Wrap, PbufCount, TcpLen, Genuine, Acceptable, Inv, AckedCount;
    v' := AckKeeps(st, ackno, base, written, v);
    var q, q' := Queue(st), Queue(Ack(st, ackno));
    if Acceptable(st, ackno) {
      var k := AckedCount(q, v.first, v'.acked);
      assert q == q[..k] + q[k..];
      PiecesConcat(q[..k], q[k..], v.first);
      FewerApart(hist, Pieces(q', v'.first), Pieces(q, v.first));
    }
  }

  lemma FewerApart(hist: set<R.Piece>, few: set<R.Piece>, many: set<R.Piece>)
    requires AllApart(hist, many) && few <= many
    ensures AllApart(hist, few)
  {
  }

  /** One event keeps the invariant and the history. */
  lemma StepKeeps(st: State, ev: Event, base: int, written: seq<byte>, v: View, hist: set<R.Piece>)
    returns (v': View, hist': set<R.Piece>)
    requires Inv(st, base, written, v) && History(hist, st, written, v) && Sane(st, ev)
    ensures var out := Step(st, ev);
            && hist <= hist'
            && Inv(out.st, base, written + out.accepted, v')
            && History(hist', out.st, written + out.accepted, v')
            && Recorded(out.sent, hist', base)
            && (AllSent(st, v) ==> AllSent(out.st, v'))
  {
    hide Ack, Output, Enqueue, Requeue, Rexmit, Wrap, QueueInv, FieldInv, Genuine, AllApart, Pieces;
    assert written + [] == written;
    v', hist' := v, hist;
    match ev {
      case Write(data, copy, fails) =>
        if !st.closing && data != [] {
          WriteStep(st, data, false, copy, fails, base, written, v, hist);
          NotClosing(st, data, false, copy, fails);
          EnqueueCases(st, data, false, copy, fails);
        }
      case Close(failing) =>
        if !st.closing {
          WriteStep(st, [], true, true, failing, base, written, v, hist);
          EnqueueCases(st, [], true, true, failing);
        }
      case Transmit =>
        v', hist' := TransmitStep(st, base, written, v, hist);
      case AckDue =>
        Unrelated(st, st.(ackNow := true), base, written, v);
      case AckReceived(ackno) =>
        v' := AckStep(st, ackno, base, written, v, hist);
      case Timeout =>
        hist' := TimeoutStep(st, base, written, v, hist);
      case FastRetransmit =>
        FirstResent(st);
        hist' := ResendStep(st, Rexmit(st), base, written, v, hist);
      case Windows(sndWnd, cwnd) =>
        Unrelated(st, st.(sndWnd := sndWnd, cwnd := cwnd), base, written, v);
    }
  }

  lemma FirstResent(st: State)
    ensures Rexmit(st) == [] || (Queue(st) != [] && Rexmit(st) == [Queue(st)[0]])
  {
    hide Fits;
  }

  lemma NotClosing(st: State, data: seq<byte>, fin: bool, copy: bool, fails: set<nat>)
    requires |data| < TWO16 && !st.closing
    ensures Enqueue(st, data, fin, copy, fails).0.(closing := false) == Enqueue(st, data, fin, copy, fails).0
  {
    hide Enqueue, Build, Append;
    EnqueueCases(st, data, fin, copy, fails);
  }

  lemma Unrelated(st: State, st': State, base: int, written: seq<byte>, v: View)
    requires Inv(st, base, written, v)
    requires st' == st.(ackNow := st'.ackNow, sndWnd := st'.sndWnd, cwnd := st'.cwnd)
    ensures Inv(st', base, written, v) && Queue(st') == Queue(st)
  {
    hide Wrap, Wrap16, Chain, Total, PbufCount;
  }

  // ----- Runs

  /** The state, all segments put on the wire and all bytes accepted from the application, over a list of events. */
  function Run(st: State, evs: seq<Event>): Outcome
    decreases |evs|
  {
    if evs == [] then Outcome(st, [], [])
    else
      var now := Step(st, evs[0]);
      var later := Run(now.st, evs[1..]);
      Outcome(later.st, now.sent + later.sent, now.accepted + later.accepted)
  }

  predicate SaneRun(st: State, evs: seq<Event>)
    decreases |evs|
  {
    evs == [] || (Sane(st, evs[0]) && SaneRun(Step(st, evs[0]).st, evs[1..]))
  }

  /** For every run: the queue stays a gap-free copy of the unacknowledged bytes, and every data segment ever
      transmitted carries a true slice of the written bytes under the right sequence number. */
  lemma {:induction false} RunKeeps(st: State, evs: seq<Event>, base: int, written: seq<byte>, v: View,
                                    hist: set<R.Piece>)
    returns (v': View, hist': set<R.Piece>)
    requires Inv(st, base, written, v) && History(hist, st, written, v) && SaneRun(st, evs)
    ensures var out := Run(st, evs);
            && hist <= hist'
            && Inv(out.st, base, written + out.accepted, v')
            && History(hist', out.st, written + out.accepted, v')
            && Recorded(out.sent, hist', base)
            && (AllSent(st, v) ==> AllSent(out.st, v'))
    decreases |evs|
  {
    hide Step, Inv, AllSent, History, Recorded, Sane;
    v', hist' := v, hist;
    if evs == [] {
      assert written + [] == written;
      NothingRecorded(hist, base);
    } else {
      var now := Step(st, evs[0]);
      var v1, hist1 := StepKeeps(st, evs[0], base, written, v, hist);
      v', hist' := RunKeeps(now.st, evs[1..], base, written + now.accepted, v1, hist1);
      var later := Run(now.st, evs[1..]);
      assert written + now.accepted + later.accepted == written + (now.accepted + later.accepted);
      RecordedMore(now.sent, hist1, hist', base);
      RecordedBoth(now.sent, later.sent, hist', base);
    }
  }

  lemma NothingRecorded(hist: set<R.Piece>, base: int)
    ensures Recorded([], hist, base)
  {
  }

  lemma RecordedBoth(a: seq<Segment>, b: seq<Segment>, hist: set<R.Piece>, base: int)
    requires Recorded(a, hist, base) && Recorded(b, hist, base)
    ensures Recorded(a + b, hist, base)
  {
    hide Wrap;
  }

  /** A connection that has just been synchronised, with the first data byte numbered base and room for cap bytes. */
  function Fresh(base: int, cap: u16, mss: u16, sndWnd: u32, cwnd: u16): State {
    var b := Wrap(base);
    State([], [], b, b, b, b, cap, 0, mss, sndWnd, cwnd, false, false)
  }

  lemma FreshOk(base: int, cap: u16, mss: u16, sndWnd: u32, cwnd: u16)
    requires mss <= TCP_MSS && cap <= TCP_SND_BUF
    ensures Inv(Fresh(base, cap, mss, sndWnd, cwnd), base, [], View(0, 0, 0, cap))
    ensures History({}, Fresh(base, cap, mss, sndWnd, cwnd), [], View(0, 0, 0, cap))
    ensures NextIsFirstUnsent(Fresh(base, cap, mss, sndWnd, cwnd))
    ensures AllSent(Fresh(base, cap, mss, sndWnd, cwnd), View(0, 0, 0, cap))
  {
  }

  // ----- Boundary cases, on concrete runs

  /** With nothing outstanding, an ACK number 2^31 ahead of everything sent is taken for new data. */
  lemma FarAckAccepted()
    ensures Acceptable(Fresh(0, 256, 128, 1024, 1), 0x8000_0000) &&
            Ack(Fresh(0, 256, 128, 1024, 1), 0x8000_0000).lastAck == 0x8000_0000
  {
    AckCases(Fresh(0, 256, 128, 1024, 1), 0x8000_0000);
  }

  lemma RunTwo(st: State, a: Event, b: Event)
    ensures Run(st, [a, b]).st == Step(Step(st, a).st, b).st
    ensures SaneRun(st, [a, b]) <==> Sane(st, a) && Sane(Step(st, a).st, b)
  {
    hide Step, Sane;
    assert [a, b][1..] == [b] && [b][1..] == [];
    assert Run(Step(st, a).st, [b]).st == Step(Step(st, a).st, b).st;
    assert SaneRun(Step(st, a).st, [b]) <==> Sane(Step(st, a).st, b);
  }

  lemma RunThree(st: State, a: Event, b: Event, c: Event)
    ensures Run(st, [a, b, c]).st == Step(Step(Step(st, a).st, b).st, c).st
    ensures SaneRun(st, [a, b, c]) <==> Sane(st, a) && Sane(Step(st, a).st, b) && Sane(Step(Step(st, a).st, b).st, c)
  {
    hide Step, Sane;
    RunTwo(Step(st, a).st, b, c);
    assert [a, b, c][1..] == [b, c];
  }

  /** A buffer filled to its capacity, whoever opened the connection, and then a close: the free space wraps around. */
  lemma CloseWithFullBuffer(data: Block, cap: u16)
    requires (cap == 255 || cap == 256) && |data| == cap
    ensures var st, evs := Fresh(0, cap, 128, 1024, 1), [Write(data, true, {}), Close({})];
            SaneRun(st, evs) && Run(st, evs).st.sndBuf == 65535
  {
    hide Build, Append, Run, SaneRun;
    var st := Fresh(0, cap, 128, 1024, 1);
    RunTwo(st, Write(data, true, {}), Close({}));
    BuildTwo(data, 0, 0);
    BuildFin(cap, 2);
  }

  lemma BuildTwo(data: seq<byte>, seqno: u32, n: nat)
    requires 128 < |data| <= 256
    ensures var b := Build(data, false, true, 128, seqno, 0, n, {}); b.Built? && b.queueLen == 2 && b.queue != []
  {
  }

  lemma BuildFin(seqno: u32, queueLen: u8)
    requires queueLen < TCP_SND_QUEUELEN
    ensures var b := Build([], true, true, 128, seqno, queueLen, 0, {}); b.Built? && b.queue != []
  {
  }

  /** Two segments, a timeout, and an ACK of both: snd_nxt stays at the second one, which is gone. */
  lemma StaleNextReached()
    ensures var st, evs := Fresh(0, 256, 1, 1024, 1024), [Write([1, 2], true, {}), Transmit, Timeout, AckReceived(2)];
            && SaneRun(st, evs)
            && Run(st, evs).st == Fresh(2, 256, 1, 1024, 1024).(sndNxt := 1)
            && !NextIsFirstUnsent(Run(st, evs).st)
  {
    hide Run, SaneRun, Step;
    var w, t, o, a := Write([1, 2], true, {}), Transmit, Timeout, AckReceived(2);
    var st := Fresh(0, 256, 1, 1024, 1024);
    var x, y := Segment(0, 1, false, [1], 1), Segment(1, 1, false, [2], 1);
    var st1 := st.(unsent := [x, y], sndLbb := 2, sndBuf := 254, queueLen := 2);
    var st2 := st1.(unsent := [], unacked := [x, y], sndNxt := 2, sndMax := 2);
    var st3 := st2.(unsent := [y], unacked := [x], sndNxt := 1);
    var st4 := Fresh(2, 256, 1, 1024, 1024).(sndNxt := 1);
    WriteTwo(st, st1, x, y, 1024);
    SendTwo(st1, st2, x, y);
    RequeueTwo(st2, st3, x, y);
    AckTwo(st3, st4, x, y);
    RunTwo(st, w, t);
    RunTwo(st2, o, a);
    RunFour(st, w, t, o, a);
  }

  lemma RunFour(st: State, a: Event, b: Event, c: Event, d: Event)
    ensures Run(st, [a, b, c, d]).st == Run(Run(st, [a, b]).st, [c, d]).st
    ensures SaneRun(st, [a, b, c, d]) <==> SaneRun(st, [a, b]) && SaneRun(Run(st, [a, b]).st, [c, d])
  {
    hide Step, Sane;
    RunTwo(st, a, b);
    assert [a, b, c, d][1..] == [b, c, d] && [b, c, d][1..] == [c, d] && [a, b][1..] == [b] && [b][1..] == [];
  }

  lemma WriteTwo(st: State, st1: State, x: Segment, y: Segment, cwnd: u16)
    requires st == Fresh(0, 256, 1, 1024, cwnd)
    requires x == Segment(0, 1, false, [1], 1) && y == Segment(1, 1, false, [2], 1)
    requires st1 == st.(unsent := [x, y], sndLbb := 2, sndBuf := 254, queueLen := 2)
    ensures Step(st, Write([1, 2], true, {})).st == st1
  {
    var data: seq<byte> := [1, 2];
    assert data[..1] == [1] && data[1..] == [2] && data[1..][..1] == [2];
    var one := Build([2], false, true, 1, 1, 1, 2, {});
    assert one == Built([y], 2);
    assert [] + [x, y] == [x, y];
    assert Build(data, false, true, 1, 0, 0, 0, {}) == Built([x, y], 2);
  }

  lemma SendTwo(st1: State, st2: State, x: Segment, y: Segment)
    requires x == Segment(0, 1, false, [1], 1) && y == Segment(1, 1, false, [2], 1)
    requires st1 == Fresh(0, 256, 1, 1024, 1024).(unsent := [x, y], sndLbb := 2, sndBuf := 254, queueLen := 2)
    requires st2 == st1.(unsent := [], unacked := [x, y], sndNxt := 2, sndMax := 2)
    ensures Step(st1, Transmit).st == st2
  {
    var f, f1, f2 := Flow([x, y], [], 0, 0), Flow([y], [x], 1, 1), Flow([], [x, y], 2, 2);
    assert SendHead(f) == f1 by { assert [x, y][1..] == [y]; }
    assert SendHead(f1) == f2 by { assert [y][1..] == [] && [x] + [y] == [x, y]; }
    SendLoopUnfold(f, 0, 1024);
    SendLoopUnfold(f1, 0, 1024);
  }

  lemma RequeueTwo(st2: State, st3: State, x: Segment, y: Segment)
    requires st2.unacked == [x, y] && st2.unsent == [] && y.seqno == 1
    requires st3 == st2.(unsent := [y], unacked := [x], sndNxt := 1)
    ensures Step(st2, Timeout).st == st3
  {
    assert [x, y][1..] + [] == [y] && [x, y][..1] == [x];
  }

  lemma AckTwo(st3: State, st4: State, x: Segment, y: Segment)
    requires x == Segment(0, 1, false, [1], 1) && y == Segment(1, 1, false, [2], 1)
    requires st3 == State([y], [x], 2, 1, 2, 0, 254, 2, 1, 1024, 1024, false, false)
    requires st4 == State([], [], 2, 1, 2, 2, 256, 0, 1, 1024, 1024, false, false)
    ensures Step(st3, AckReceived(2)).st == st4
  {
    assert [y][1..] == [] && [x][1..] == [];
    assert DropAcked([y], 2) == [] && DropAcked([x], 2) == [];
    assert NextAfterDrop([y], 2, 1) == 1;
    assert QueueLenAfterDrop([y], 2, 2) == 1 && QueueLenAfterDrop([x], 2, 1) == 0;
  }
}
