/** Sender, network and receiver together. */
module EndToEnd {
  import opened Bytes
  import opened SeqNum
  import R = Reassembly
  import RR = ReceiveRuns
  import TR = TcpReceive
  import S = TcpSend
  import SI = SendInvariant
  import SR = SendRuns
  import H = Handshake

  ghost predicate Disciplined(hist: set<R.Piece>, written: seq<byte>) {
    SR.Genuine(hist, written) && SR.AllApart(hist, hist)
  }

  /** Every queued piece starts where some transmitted segment starts. */
  ghost predicate StartsKnown(r: R.Receiver, hist: set<R.Piece>) {
    forall i :: 0 <= i < |r.queue| ==> Known(r.queue[i].at, hist)
  }

  ghost predicate Known(at: nat, hist: set<R.Piece>) {
    exists p :: p in hist && p.at == at
  }

  /** The segments of one disciplined sender never overrun each other, whatever has been trimmed in the queue. */
  lemma NoOverrun(r: R.Receiver, p: R.Piece, alloc: bool, hist: set<R.Piece>, written: seq<byte>)
    requires R.Inv(r, written) && Disciplined(hist, written) && StartsKnown(r, hist) && p in hist
    ensures !R.Overruns(r, p, alloc)
  {
    forall i | 0 <= i < |r.queue| - 1 && r.queue[i].at == p.at ensures p.End() <= r.queue[i + 1].at {
      R.QueueSorted(r.queue, i, i + 1, r.next, written);
      var x :| x in hist && x.at == r.queue[i + 1].at;
      assert SR.Apart(p, x);
    }
  }

  lemma StartsFromSet(q: seq<R.Piece>, q': seq<R.Piece>, p: R.Piece, hist: set<R.Piece>)
    requires forall i :: 0 <= i < |q| ==> Known(q[i].at, hist)
    requires R.Starts(q') <= R.Starts(q) + {p.at} && p in hist
    ensures forall i :: 0 <= i < |q'| ==> Known(q'[i].at, hist)
  {
    forall i | 0 <= i < |q'| ensures Known(q'[i].at, hist) {
      assert q'[i].at in R.Starts(q');
      if q'[i].at != p.at {
        assert q'[i].at in R.Starts(q);
      }
    }
  }

  lemma {:induction false} DrainStarts(r: R.Receiver, hist: set<R.Piece>)
    requires StartsKnown(r, hist)
    ensures StartsKnown(R.Drain(r).0, hist)
    decreases |r.queue|
  {
    if r.queue != [] && r.queue[0].at == r.next {
      var head := r.queue[0];
      DrainStarts(R.Receiver(head.End(), R.Shrink(r.window, |head.data|), r.queue[1..]), hist);
    }
  }

  lemma ArriveStarts(r: R.Receiver, p: R.Piece, alloc: bool, hist: set<R.Piece>)
    requires StartsKnown(r, hist) && p in hist
    ensures StartsKnown(R.Arrive(r, p, alloc).0, hist)
  {
    hide R.Place, R.Drain;
    if p.data != [] {
      var p' := R.Trimmed(r, p);
      if r.next <= p'.at < r.next + r.window {
        if p'.at == r.next {
          var p'' := if r.queue != [] && p'.at <= r.queue[0].at <= p'.End() then R.CutEnd(p', r.queue[0].at) else p';
          DrainStarts(R.Receiver(p''.End(), R.Shrink(r.window, |p''.data|), r.queue), hist);
        } else {
          assert p' == p;
          if r.queue != [] {
            R.PlaceKeepsStarts(r.queue, 0, p, alloc);
            StartsFromSet(r.queue, R.Enqueue(r.queue, p, alloc), p, hist);
          }
        }
      }
    }
  }

  /** Every arriving segment is a copy of a transmitted one and lies within 2^31 of the receive window; any order,
      any loss, any duplication. */
  ghost predicate Carried(r: R.Receiver, evs: seq<RR.Event>, hist: set<R.Piece>)
    requires r.window < TWO16
    decreases |evs|
  {
    evs == [] ||
    (var r1 := RR.PlainStep(r, evs[0]).0;
     && (evs[0].Arrival? ==> R.Piece(evs[0].at, evs[0].data) in hist && TR.Near(r, R.Piece(evs[0].at, evs[0].data)))
     && r1.window < TWO16 && Carried(r1, evs[1..], hist))
  }

  lemma OtherStarts(r: R.Receiver, ev: RR.Event, hist: set<R.Piece>)
    requires StartsKnown(r, hist) && r.window < TWO16 && !ev.Arrival?
    ensures StartsKnown(RR.PlainStep(r, ev).0, hist)
  {
  }

  lemma CarriedStep(st: TR.State, r: R.Receiver, base: int, ev: RR.Event, hist: set<R.Piece>, written: seq<byte>)
    requires RR.Tracks(st, r, base, written) && Disciplined(hist, written) && StartsKnown(r, hist)
    requires ev.Arrival? ==> R.Piece(ev.at, ev.data) in hist && TR.Near(r, R.Piece(ev.at, ev.data))
    ensures RR.FairStep(r, ev, written) && r.window < TWO16 && StartsKnown(RR.PlainStep(r, ev).0, hist)
  {
    hide R.Arrive, R.Overruns, TR.Near, TR.Image, R.QueueOk, TR.Reopen;
    assert TR.MAX_TRIM > S.TCP_MSS;
    if ev.Arrival? {
      var p := R.Piece(ev.at, ev.data);
      NoOverrun(r, p, ev.alloc, hist, written);
      ArriveStarts(r, p, ev.alloc, hist);
    } else {
      OtherStarts(r, ev, hist);
    }
  }

  lemma {:induction false} CarriedIsFair(st: TR.State, r: R.Receiver, base: int, evs: seq<RR.Event>,
                                         hist: set<R.Piece>, written: seq<byte>)
    requires RR.Tracks(st, r, base, written) && Disciplined(hist, written) && StartsKnown(r, hist)
    requires r.window < TWO16 && Carried(r, evs, hist)
    ensures RR.FairRun(r, evs, written)
    decreases |evs|
  {
    hide RR.Tracks, RR.PlainStep, RR.Step, RR.FairStep, TR.Near, Disciplined, StartsKnown;
    if evs != [] {
      CarriedStep(st, r, base, evs[0], hist, written);
      RR.StepSafe(st, r, base, evs[0], written);
      CarriedIsFair(RR.Step(st, base, evs[0]).0, RR.PlainStep(r, evs[0]).0, base, evs[1..], hist, written);
    }
  }

  /** Over a run of the sender from st, hist is everything it put on the wire; and however the network delivers copies
      of those segments to a receiver that has just been synchronised, the receiving application gets a prefix of what
      the sending application wrote. */
  ghost predicate Delivers(st: S.State, base: int, sends: seq<SR.Event>, hist: set<R.Piece>) {
    var out := SR.Run(st, sends);
    && SR.Recorded(out.sent, hist, base) && Disciplined(hist, out.accepted)
    && forall rcvWnd: u16, evs: seq<RR.Event> {:trigger RR.Run(TR.State(Wrap(base), rcvWnd, []), base, evs)} ::
         Carried(R.Receiver(0, rcvWnd, []), evs, hist) ==>
           Flatten(RR.Run(TR.State(Wrap(base), rcvWnd, []), base, evs).1) <= out.accepted
  }

  /**
   A connection between this sender and this receiver, both just synchronised: for every run of the sender (writes,
   transmissions, ACKs, timeouts, window changes, failing allocations) there is a set of pieces describing everything
   it put on the wire, and for every way the network delivers copies of those segments to the receiver, the bytes
   handed to the receiving application are, in order, exactly the first r'.next bytes the sending application wrote.
   */
  lemma EndToEndSafe(base: int, cap: u16, mss: u16, sndWnd: u32, cwnd: u16, sends: seq<SR.Event>)
    returns (hist: set<R.Piece>)
    requires mss <= S.TCP_MSS && cap <= S.TCP_SND_BUF && SR.SaneRun(SR.Fresh(base, cap, mss, sndWnd, cwnd), sends)
    ensures Delivers(SR.Fresh(base, cap, mss, sndWnd, cwnd), base, sends, hist)
  {
    hide SR.Fresh, SR.Run, SI.Inv, SR.Recorded, RR.Run, Flatten, SR.SaneRun, Carried, SR.Genuine, SR.AllApart;
    var out := SR.Run(SR.Fresh(base, cap, mss, sndWnd, cwnd), sends);
    SR.FreshOk(base, cap, mss, sndWnd, cwnd);
    var v';
    v', hist := SR.RunKeeps(SR.Fresh(base, cap, mss, sndWnd, cwnd), sends, base, [], SI.View(0, 0, 0, cap), {});
    assert [] + out.accepted == out.accepted;
    forall rcvWnd: u16, evs: seq<RR.Event> | Carried(R.Receiver(0, rcvWnd, []), evs, hist)
      ensures Flatten(RR.Run(TR.State(Wrap(base), rcvWnd, []), base, evs).1) <= out.accepted
    {
      Delivered(base, rcvWnd, evs, hist, out.accepted);
    }
  }

  /** Who opens the connection, with the initial sequence numbers of tcp_new() and tcp_connect(), and the window of the
      peer's SYN. */
  datatype Opening = Active(iss0: u32, iss: u32) | Passive(iss: u32, wnd: u16)

  /** The sender after tcp_new(), its SYN, and the segment that answers it. */
  function Opened(o: Opening, ackno: u32, mss: u16, sndWnd: u32, cwnd: u16): H.Established {
    match o
    case Active(iss0, iss) => H.SynAckArrived(H.Connect(H.New(iss0), iss, {}), ackno, mss, sndWnd, cwnd)
    case Passive(iss, wnd) => H.AckArrived(H.Accept(iss, wnd, {}), ackno, mss, sndWnd, cwnd)
  }

  /** The number of the first byte of data. */
  function FirstByte(o: Opening): int {
    if o.Active? then o.iss else o.iss + 1
  }

  /** The same from tcp_new() on: whoever opened the connection, and whatever segment established it. */
  lemma EndToEndFromNew(o: Opening, ackno: u32, mss: u16, sndWnd: u32, cwnd: u16, sends: seq<SR.Event>)
    returns (hist: set<R.Piece>)
    requires mss <= S.TCP_MSS && Opened(o, ackno, mss, sndWnd, cwnd).Established?
    requires o.Active? ==> Wrap(o.iss - o.iss0) <= TWO31
    requires SR.SaneRun(Opened(o, ackno, mss, sndWnd, cwnd).st, sends)
    ensures Delivers(Opened(o, ackno, mss, sndWnd, cwnd).st, FirstByte(o), sends, hist)
  {
    hide Delivers, H.Connect, H.New, H.Accept, H.SynAckArrived, H.AckArrived, SR.Fresh, SR.SaneRun, SI.Inv;
    match o
    case Active(iss0, iss) =>
      H.ActiveOpen(iss0, iss, ackno, mss, sndWnd, cwnd);
      SameStart(iss, 255, mss, sndWnd, cwnd);
      hist := EndToEndSafe(iss, 255, mss, sndWnd, cwnd, sends);
    case Passive(iss, wnd) =>
      H.PassiveOpen(iss, wnd, ackno, mss, sndWnd, cwnd);
      hist := EndToEndSafe(iss + 1, 256, mss, sndWnd, cwnd, sends);
  }

  lemma SameStart(iss: u32, cap: u16, mss: u16, sndWnd: u32, cwnd: u16)
    ensures SR.Fresh(iss, cap, mss, sndWnd, cwnd).(sndMax := iss) == SR.Fresh(iss, cap, mss, sndWnd, cwnd)
  {
  }

  lemma Delivered(base: int, rcvWnd: u16, evs: seq<RR.Event>, hist: set<R.Piece>, written: seq<byte>)
    requires Disciplined(hist, written) && Carried(R.Receiver(0, rcvWnd, []), evs, hist)
    ensures Flatten(RR.Run(TR.State(Wrap(base), rcvWnd, []), base, evs).1) <= written
  {
    hide Disciplined, RR.Run, Flatten, Carried, RR.FairRun, Wrap;
    var r := R.Receiver(0, rcvWnd, []);
    StartTracks(base, rcvWnd, written);
    CarriedIsFair(TR.State(Wrap(base), rcvWnd, []), r, base, evs, hist, written);
    var r' := RR.RunSafe(TR.State(Wrap(base), rcvWnd, []), r, base, evs, written);
    assert written[0..r'.next] <= written;
  }

  lemma StartTracks(base: int, rcvWnd: u16, written: seq<byte>)
    ensures RR.Tracks(TR.State(Wrap(base), rcvWnd, []), R.Receiver(0, rcvWnd, []), base, written)
  {
  }
}
