/** The round-trip timer beside the send queue: which samples come from segments that were sent more than once, against
    Karn's algorithm, section 3 of RFC 6298. SW_stub/lwtcp/tcp_output.c and tcp.c. */
module Karn {
  import opened SeqNum
  import opened TcpSend
  import opened SendQueue
  import opened SendInvariant
  import opened SendRuns
  import E = RttEstimator

  /** tcp_output_segment() for each of the segments that tcp_output() sends. */
  function TimeAll(t: E.Timer, ticks: u32, sent: seq<Segment>): E.Timer
    decreases |sent|
  {
    if sent == [] then t else TimeAll(E.Step(t, E.Sent(ticks, sent[0].seqno)), ticks, sent[1..])
  }

  /** What an event of the send side does to the timer. */
  function Times(t: E.Timer, ev: Event, sent: seq<Segment>, ticks: u32): E.Timer {
    match ev
    case Transmit => TimeAll(t, ticks, sent)
    case Timeout => if sent == [] then t else E.Step(t, E.Resent)
    case FastRetransmit => if sent == [] then t else E.Step(t, E.Resent)
    case AckReceived(ackno) => E.Step(t, E.Acked(ticks, ackno))
    case _ => t
  }

  /** A connection with its timer; log lists all segments put on the wire. Of the segment being timed, mark is where in
      the log it was timed, or -1 if it is our SYN; below is whether it then lay below snd_max; and unheeded whether
      segments have since been put back on unsent while the window had no room for tcp_rexmit_seg() to send one. */
  datatype Timed = Timed(st: State, timer: E.Timer, log: seq<Segment>, mark: int, below: bool, unheeded: bool)

  function Next(t: Timed, ev: Event, ticks: u32): Timed {
    var out := Step(t.st, ev);
    var t' := t.(st := out.st, timer := Times(t.timer, ev, out.sent, ticks), log := t.log + out.sent);
    if ev.Transmit? && out.sent != [] && t.timer.start == 0 then
      t'.(mark := |t.log|, below := SeqLt(out.sent[0].seqno, t.st.sndMax), unheeded := false)
    else if ev.Timeout? && out.sent == [] && |t.st.unacked| > 1 then t'.(unheeded := true)
    else t'
  }

  function RunTimed(t: Timed, evs: seq<(Event, u32)>): Timed
    decreases |evs|
  {
    if evs == [] then t else RunTimed(Next(t, evs[0].0, evs[0].1), evs[1..])
  }

  predicate SaneTimed(t: Timed, evs: seq<(Event, u32)>)
    decreases |evs|
  {
    evs == [] || (Sane(t.st, evs[0].0) && SaneTimed(Next(t, evs[0].0, evs[0].1), evs[1..]))
  }

  // ----- Positions of what was sent

  /** Segment i of the log carries position x; at gives the positions of all of them. */
  predicate Carries(log: seq<Segment>, at: seq<nat>, i: nat, x: nat)
    requires |at| == |log| && i < |log|
  {
    at[i] <= x < at[i] + TcpLen(log[i])
  }

  /** One of the first n segments of the log carries position x. */
  ghost predicate SentBy(log: seq<Segment>, at: seq<nat>, n: int, x: nat)
    requires |at| == |log|
  {
    exists i: nat :: i < n && i < |log| && Carries(log, at, i, x)
  }

  /** Each segment of the log is numbered by its position, and together they carry exactly what lies below max. */
  ghost predicate Placed(log: seq<Segment>, at: seq<nat>, base: int, max: nat) {
    && |at| == |log|
    && (forall i :: 0 <= i < |log| ==> log[i].seqno == Wrap(base + at[i]) && TcpLen(log[i]) > 0)
    && (forall x: nat :: SentBy(log, at, |log|, x) <==> x < max)
  }

  /** The timer runs for segment mark of the log: whether it had been sent before is known, and it was sent again only
      after an unheeded timeout. next is the position of the first unsent segment. */
  ghost predicate Marked(t: Timed, at: seq<nat>, next: nat)
    requires |at| == |t.log|
  {
    t.timer.start != 0 && t.mark != -1 ==>
      && 0 <= t.mark < |t.log| && t.timer.seqno == t.log[t.mark].seqno
      && (t.below <==> SentBy(t.log, at, t.mark, at[t.mark]))
      && (!t.unheeded ==>
            at[t.mark] < next && forall i: nat :: t.mark < i < |t.log| ==> !Carries(t.log, at, i, at[t.mark]))
  }

  ghost predicate Good(t: Timed, at: seq<nat>, base: int, written: seq<byte>, v: View) {
    && Inv(t.st, base, written, v) && AllSent(t.st, v)
    && Placed(t.log, at, base, v.max) && Marked(t, at, v.first + Total(t.st.unacked))
    && (t.timer.start != 0 && t.mark == -1 ==> t.timer.seqno == Wrap(base - 1))
  }

  lemma AppendOne(log: seq<Segment>, at: seq<nat>, s: Segment, p: nat, base: int, max: nat)
    requires Placed(log, at, base, max) && s.seqno == Wrap(base + p) && TcpLen(s) > 0 && p <= max
    ensures Placed(log + [s], at + [p], base, if max < p + TcpLen(s) then p + TcpLen(s) else max)
  {
    hide Wrap, TcpLen;
    var log', at' := log + [s], at + [p];
    forall x: nat ensures SentBy(log', at', |log'|, x) <==> x < max || p <= x < p + TcpLen(s) {
      assert SentBy(log, at, |log|, x) <==> x < max;
      if SentBy(log, at, |log|, x) {
        var i: nat :| i < |log| && Carries(log, at, i, x);
        assert Carries(log', at', i, x);
      }
      if p <= x < p + TcpLen(s) {
        assert Carries(log', at', |log|, x);
      }
      if SentBy(log', at', |log'|, x) {
        var i: nat :| i < |log'| && Carries(log', at', i, x);
        if i < |log| {
          assert Carries(log, at, i, x);
        }
      }
    }
  }

  /** A run of segments from position p on joins the log. */
  lemma {:induction false} AppendAll(log: seq<Segment>, at: seq<nat>, sent: seq<Segment>, p: nat, base: int, max: nat,
                                     written: seq<byte>) returns (at': seq<nat>)
    requires Placed(log, at, base, max) && Chain(sent, p, base, written) && p <= max
    ensures at <= at'
    ensures Placed(log + sent, at', base, if sent != [] && max < p + Total(sent) then p + Total(sent) else max)
    ensures forall i :: |log| <= i < |at'| ==> at'[i] >= p
    ensures sent != [] ==> at'[|log|] == p && forall i :: |log| < i < |at'| ==> at'[i] >= p + TcpLen(sent[0])
    decreases |sent|
  {
    hide Placed, TcpLen, Wrap;
    at' := at;
    LogSize(log, at, base, max);
    if sent == [] {
      assert log + [] == log;
    } else {
      ChainLens(sent, p, base, written);
      AppendOne(log, at, sent[0], p, base, max);
      var max1 := if max < p + TcpLen(sent[0]) then p + TcpLen(sent[0]) else max;
      at' := AppendAll(log + [sent[0]], at + [p], sent[1..], p + TcpLen(sent[0]), base, max1, written);
      assert log + [sent[0]] + sent[1..] == log + sent;
      assert at'[|log|] == (at + [p])[|log|];
      assert at == (at + [p])[..|at|];
      forall i | |log| <= i < |at'| ensures at'[i] >= p {
        if i > |log| {
          assert at'[i] >= p + TcpLen(sent[0]);
        }
      }
    }
  }

  lemma LogSize(log: seq<Segment>, at: seq<nat>, base: int, max: nat)
    requires Placed(log, at, base, max)
    ensures |at| == |log|
  {
  }

  // ----- One event

  lemma {:induction false} TimeAllIs(t: E.Timer, ticks: u32, sent: seq<Segment>)
    ensures t.start != 0 ==> TimeAll(t, ticks, sent) == t
    ensures t.start == 0 && TimeAll(t, ticks, sent).start != 0 ==>
              sent != [] && TimeAll(t, ticks, sent).seqno == sent[0].seqno
    ensures TimeAll(t, ticks, sent).e == t.e
    decreases |sent|
  {
    if sent != [] {
      TimeAllIs(E.Step(t, E.Sent(ticks, sent[0].seqno)), ticks, sent[1..]);
      if t.start == 0 && Wrap16(ticks) == 0 {
        StillStopped(E.Step(t, E.Sent(ticks, sent[0].seqno)), ticks, sent[1..]);
      }
    }
  }

  lemma {:induction false} StillStopped(t: E.Timer, ticks: u32, sent: seq<Segment>)
    requires t.start == 0 && Wrap16(ticks) == 0
    ensures TimeAll(t, ticks, sent).start == 0
    decreases |sent|
  {
    if sent != [] {
      StillStopped(E.Step(t, E.Sent(ticks, sent[0].seqno)), ticks, sent[1..]);
    }
  }

  /** What was sent by position x among the first n segments does not change as the log grows. */
  lemma SentByPrefix(log: seq<Segment>, at: seq<nat>, more: seq<Segment>, at': seq<nat>, n: int, x: nat)
    requires |at| == |log| && |at'| == |log + more| && at <= at' && n <= |log|
    ensures SentBy(log + more, at', n, x) <==> SentBy(log, at, n, x)
  {
    hide TcpLen;
    if SentBy(log, at, n, x) {
      var i: nat :| i < n && i < |log| && Carries(log, at, i, x);
      assert Carries(log + more, at', i, x);
    }
    if SentBy(log + more, at', n, x) {
      var i: nat :| i < n && i < |log + more| && Carries(log + more, at', i, x);
      assert Carries(log, at, i, x);
    }
  }

  /** A running timer keeps its mark while segments from the first unsent one on are sent. */
  lemma StillMarked(t: Timed, t': Timed, at: seq<nat>, at': seq<nat>, next: nat, next': nat, sent: seq<Segment>)
    requires |at| == |t.log| && Marked(t, at, next) && next <= next'
    requires t' == t.(st := t'.st, log := t'.log) && t'.log == t.log + sent && |at'| == |t'.log| && at <= at'
    requires forall i :: |t.log| <= i < |at'| ==> at'[i] >= next
    ensures Marked(t', at', next')
  {
    if t.timer.start != 0 && t.mark != -1 {
      SentByPrefix(t.log, at, sent, at', t.mark, at[t.mark]);
      forall i: nat | !t.unheeded && t.mark < i < |t'.log| ensures !Carries(t'.log, at', i, at[t.mark]) {
        if i < |t.log| {
          assert !Carries(t.log, at, i, at[t.mark]);
        }
      }
    }
  }

  /** A timer started with the first of the segments sent. */
  lemma NewlyMarked(t: Timed, t': Timed, at: seq<nat>, at': seq<nat>, base: int, max: nat, next: nat, next': nat,
                    sent: seq<Segment>)
    requires Placed(t.log, at, base, max) && next <= max <= next + TWO16 && sent != [] && TcpLen(sent[0]) > 0
    requires t'.log == t.log + sent && |at'| == |t'.log| && at <= at' && at'[|t.log|] == next
    requires forall i :: |t.log| < i < |at'| ==> at'[i] >= next + TcpLen(sent[0])
    requires t'.mark == |t.log| && !t'.unheeded && t'.timer.seqno == sent[0].seqno == Wrap(base + next) && next < next'
    requires t'.below == SeqLt(sent[0].seqno, Wrap(base + max))
    ensures Marked(t', at', next')
  {
    hide Wrap, SeqLt, SeqLeq, SeqGt, SeqGeq, TcpLen;
    SeqCompare(base + next, base + max);
    SentByPrefix(t.log, at, sent, at', |t.log|, next);
    assert SentBy(t.log, at, |t.log|, next) <==> next < max;
  }

  /** tcp_output() extends the log by a run of segments from the first unsent one on. */
  lemma LogGrows(st: State, log: seq<Segment>, at: seq<nat>, base: int, written: seq<byte>, v: View)
    returns (at': seq<nat>, v': View)
    requires Inv(st, base, written, v) && AllSent(st, v) && Placed(log, at, base, v.max)
    ensures var (st', sent) := Output(st);
            var next := v.first + Total(st.unacked);
            && Inv(st', base, written, v') && AllSent(st', v') && Placed(log + sent, at', base, v'.max)
            && v'.first + Total(st'.unacked) == next + Total(sent)
            && next <= v.max <= next + TWO16 && st.sndMax == Wrap(base + v.max)
            && at <= at' && |at| == |log| && |at'| == |log + sent|
            && (forall i :: |log| <= i < |at'| ==> at'[i] >= next)
            && (sent != [] ==>
                  && 0 < TcpLen(sent[0]) <= Total(sent) && sent[0].seqno == Wrap(base + next) && at'[|log|] == next
                  && forall i :: |log| < i < |at'| ==> at'[i] >= next + TcpLen(sent[0]))
  {
    hide Output, Chain, Total, Wrap, PbufCount, TcpLen, WithinWindow, Inv, Placed, Queue;
    var (st', sent) := Output(st);
    v' := OutputKeeps(st, base, written, v);
    UnsentStart(st, base, written, v);
    LogSize(log, at, base, v.max);
    MaxIs(st, base, written, v);
    var next := v.first + Total(st.unacked);
    Concat(sent, st'.unsent, next, base, written);
    TotalHead(sent);
    at' := AppendAll(log, at, sent, next, base, v.max, written);
    LogSize(log + sent, at', base, v'.max);
    if sent != [] {
      ChainLens(sent, next, base, written);
      FirstSeqno(sent, next, base, written);
    }
  }

  lemma TransmitGood(t: Timed, ticks: u32, at: seq<nat>, base: int, written: seq<byte>, v: View)
    returns (at': seq<nat>, v': View)
    requires Good(t, at, base, written, v)
    ensures at <= at' && Good(Next(t, Transmit, ticks), at', base, written, v')
  {
    hide Output, Total, Wrap, TcpLen, Inv, Placed, Marked, TimeAll, SeqLt, AllSent;
    var sent := Output(t.st).1;
    at', v' := LogGrows(t.st, t.log, at, base, written, v);
    TimeAllIs(t.timer, ticks, sent);
    var t', next := Next(t, Transmit, ticks), v.first + Total(t.st.unacked);
    if sent == [] || t.timer.start != 0 {
      NothingTimed(t.timer, ticks, sent);
      StillMarked(t, t', at, at', next, next + Total(sent), sent);
    } else if t'.timer.start != 0 {
      NewlyMarked(t, t', at, at', base, v.max, next, next + Total(sent), sent);
    } else {
      NotRunning(t', at', next + Total(sent));
    }
  }

  lemma NothingTimed(t: E.Timer, ticks: u32, sent: seq<Segment>)
    requires sent == [] || t.start != 0
    ensures TimeAll(t, ticks, sent) == t
  {
    if sent != [] {
      TimeAllIs(t, ticks, sent);
    }
  }

  lemma NotRunning(t: Timed, at: seq<nat>, next: nat)
    requires |at| == |t.log| && (t.timer.start == 0 || t.mark == -1)
    ensures Marked(t, at, next)
  {
  }

  lemma MaxIs(st: State, base: int, written: seq<byte>, v: View)
    requires Inv(st, base, written, v)
    ensures st.sndMax == Wrap(base + v.max)
  {
  }

  /** Sending the first unacked segment again, by tcp_rexmit_seg(), stops the timer. */
  lemma ResendGood(t: Timed, t': Timed, sent: seq<Segment>, at: seq<nat>, base: int, written: seq<byte>, v: View)
    returns (at': seq<nat>)
    requires Good(t, at, base, written, v) && sent != [] && t.st.unacked != [] && sent == [t.st.unacked[0]]
    requires t'.log == t.log + sent && t'.timer.start == 0 && Inv(t'.st, base, written, v) && AllSent(t'.st, v)
    ensures at <= at' && Good(t', at', base, written, v)
  {
    hide Inv, Placed, Wrap, PbufCount, TcpLen, SegOk;
    InvParts(t.st, base, written, v);
    LogSize(t.log, at, base, v.max);
    var q := Queue(t.st);
    assert q == sent + q[1..];
    Concat(sent, q[1..], v.first, base, written);
    assert t.st.unacked == sent + t.st.unacked[1..];
    Concat(sent, t.st.unacked[1..], v.first, base, written);
    at' := AppendAll(t.log, at, sent, v.first, base, v.max, written);
    LogSize(t'.log, at', base, v.max);
  }

  /** Nothing is sent, and the position of the first unsent segment does not fall while the timer runs heeded. */
  lemma QuietGood(t: Timed, t': Timed, at: seq<nat>, base: int, written: seq<byte>, written': seq<byte>, v: View,
                  v': View)
    requires Good(t, at, base, written, v) && Inv(t'.st, base, written', v') && AllSent(t'.st, v') && v'.max == v.max
    requires t' == t.(st := t'.st, timer := t'.timer, unheeded := t'.unheeded)
    requires t'.timer.start != 0 ==> t'.timer == t.timer
    requires t'.unheeded || (!t.unheeded &&
                             v.first + Total(t.st.unacked) <= v'.first + Total(t'.st.unacked))
    ensures Good(t', at, base, written', v')
  {
    hide Inv, Placed, Total, AllSent, SentBy, Carries;
  }

  lemma {:induction false} DropTotal(q: seq<Segment>, ackno: u32)
    ensures Total(DropAcked(q, ackno)) <= Total(q)
    decreases |q|
  {
    if q != [] && SeqLeq(Wrap(q[0].seqno + TcpLen(q[0])), ackno) {
      DropTotal(q[1..], ackno);
    }
  }

  lemma AckNoFall(st: State, ackno: u32, base: int, written: seq<byte>, v: View, v': View)
    requires Inv(st, base, written, v) && Inv(Ack(st, ackno), base, written, v')
    ensures v.first + Total(st.unacked) <= v'.first + Total(Ack(st, ackno).unacked)
  {
    hide Ack, Chain, Total, Wrap, PbufCount, Acceptable, DropAcked, NextAfterDrop, QueueLenAfterDrop;
    var st' := Ack(st, ackno);
    AckCases(st, ackno);
    InvParts(st, base, written, v);
    InvParts(st', base, written, v');
    DropTotal(st.unsent, ackno);
    Concat(st.unacked, st.unsent, 0, base, written);
    Concat(st'.unacked, st'.unsent, 0, base, written);
  }

  lemma AckGood(t: Timed, ackno: u32, ticks: u32, at: seq<nat>, base: int, written: seq<byte>, v: View)
    returns (v': View)
    requires Good(t, at, base, written, v) && Sane(t.st, AckReceived(ackno))
    ensures Good(Next(t, AckReceived(ackno), ticks), at, base, written, v')
  {
    hide Inv, Ack, Wrap, Placed, Marked, Total, Acceptable, SeqLt;
    v' := AckKeeps(t.st, ackno, base, written, v);
    AckNoFall(t.st, ackno, base, written, v, v');
    assert t.log + [] == t.log;
    QuietGood(t, Next(t, AckReceived(ackno), ticks), at, base, written, written, v, v');
  }

  lemma EnqueueGood(t: Timed, ev: Event, ticks: u32, at: seq<nat>, base: int, written: seq<byte>, v: View)
    requires Good(t, at, base, written, v) && (ev.Write? || ev.Close?)
    ensures Good(Next(t, ev, ticks), at, base, written + Step(t.st, ev).accepted, v)
  {
    hide Inv, Enqueue, Wrap, Placed, Marked, Total;
    assert written + [] == written;
    assert t.log + [] == t.log;
    if !t.st.closing && (ev.Close? || ev.data != []) {
      var data, copy, fails := if ev.Close? then [] else ev.data, ev.Close? || ev.copy,
                               if ev.Close? then ev.failing else ev.fails;
      EnqueueCases(t.st, data, ev.Close?, copy, fails);
      EnqueueKeeps(t.st, data, ev.Close?, copy, fails, base, written, v);
      NotClosing(t.st, data, ev.Close?, copy, fails);
    }
    QuietGood(t, Next(t, ev, ticks), at, base, written, written + Step(t.st, ev).accepted, v, v);
  }

  lemma TimeoutGood(t: Timed, ticks: u32, at: seq<nat>, base: int, written: seq<byte>, v: View) returns (at': seq<nat>)
    requires Good(t, at, base, written, v)
    ensures at <= at' && Good(Next(t, Timeout, ticks), at', base, written, v)
  {
    hide Inv, Requeue, Rexmit, Wrap, Placed, Marked, Total;
    RequeueKeeps(t.st, base, written, v);
    RequeueSent(t.st, v);
    RequeueIs(t.st);
    var t', sent := Next(t, Timeout, ticks), Rexmit(Requeue(t.st));
    at' := at;
    if sent == [] {
      assert t.log + [] == t.log;
      QuietGood(t, t', at, base, written, written, v, v);
    } else {
      at' := ResendGood(t, t', sent, at, base, written, v);
    }
  }

  lemma RequeueIs(st: State)
    ensures |st.unacked| <= 1 ==> Requeue(st) == st
    ensures Rexmit(Requeue(st)) != [] ==> st.unacked != [] && Rexmit(Requeue(st)) == [st.unacked[0]]
  {
    hide Fits;
  }

  lemma FastGood(t: Timed, ticks: u32, at: seq<nat>, base: int, written: seq<byte>, v: View) returns (at': seq<nat>)
    requires Good(t, at, base, written, v)
    ensures at <= at' && Good(Next(t, FastRetransmit, ticks), at', base, written, v)
  {
    hide Inv, Fits, Wrap, Placed, Marked, Total;
    var t', sent := Next(t, FastRetransmit, ticks), Rexmit(t.st);
    at' := at;
    if sent == [] {
      assert t.log + [] == t.log;
      QuietGood(t, t', at, base, written, written, v, v);
    } else {
      at' := ResendGood(t, t', sent, at, base, written, v);
    }
  }

  lemma EventGood(t: Timed, ev: Event, ticks: u32, at: seq<nat>, base: int, written: seq<byte>, v: View)
    returns (at': seq<nat>, v': View)
    requires Good(t, at, base, written, v) && Sane(t.st, ev)
    ensures at <= at' && Good(Next(t, ev, ticks), at', base, written + Step(t.st, ev).accepted, v')
  {
    hide Good, Ack, Output, Enqueue, Requeue, Rexmit, Times, SeqLt;
    assert written + [] == written;
    at', v' := at, v;
    match ev {
      case Transmit => at', v' := TransmitGood(t, ticks, at, base, written, v);
      case AckReceived(ackno) => v' := AckGood(t, ackno, ticks, at, base, written, v);
      case Timeout => at' := TimeoutGood(t, ticks, at, base, written, v);
      case FastRetransmit => at' := FastGood(t, ticks, at, base, written, v);
      case Write(_, _, _) => EnqueueGood(t, ev, ticks, at, base, written, v);
      case Close(_) => EnqueueGood(t, ev, ticks, at, base, written, v);
      case _ => OtherGood(t, ev, ticks, at, base, written, v);
    }
  }

  lemma OtherGood(t: Timed, ev: Event, ticks: u32, at: seq<nat>, base: int, written: seq<byte>, v: View)
    requires Good(t, at, base, written, v) && (ev.AckDue? || ev.Windows?)
    ensures Good(Next(t, ev, ticks), at, base, written, v)
  {
    hide Inv, Placed, Marked, Total;
    assert t.log + [] == t.log;
    var t' := Next(t, ev, ticks);
    Unrelated(t.st, t'.st, base, written, v);
    QuietGood(t, t', at, base, written, written, v, v);
  }

  lemma {:induction false} RunGood(t: Timed, evs: seq<(Event, u32)>, at: seq<nat>, base: int, written: seq<byte>,
                                   v: View)
    returns (at': seq<nat>, written': seq<byte>, v': View)
    requires Good(t, at, base, written, v) && SaneTimed(t, evs)
    ensures at <= at' && Good(RunTimed(t, evs), at', base, written', v')
    decreases |evs|
  {
    hide Good, Next, Sane, Step;
    at', written', v' := at, written, v;
    if evs != [] {
      var (ev, ticks) := evs[0];
      var at1, v1 := EventGood(t, ev, ticks, at, base, written, v);
      at', written', v' := RunGood(Next(t, ev, ticks), evs[1..], at1, base, written + Step(t.st, ev).accepted, v1);
    }
  }

  // ----- Where samples come from

  /** A connection that has just been synchronised: the timer is stopped, or it still runs for our SYN. */
  ghost predicate Start(t: Timed, base: int, cap: u16, mss: u16, sndWnd: u32, cwnd: u16) {
    && mss <= TCP_MSS && cap <= TCP_SND_BUF && t.st == Fresh(base, cap, mss, sndWnd, cwnd)
    && t.log == [] && t.mark == -1 && (t.timer.start != 0 ==> t.timer.seqno == Wrap(base - 1))
  }

  /** Over every run: a sample is taken only by an ACK that covers the timed segment, and counts the ticks since that
      segment was timed. The segment had been sent before that, whole or in part, exactly when it then lay below
      snd_max; and it has not been sent since, unless tcp_slowtmr() put segments back without resending one. */
  lemma SampleSource(t0: Timed, evs: seq<(Event, u32)>, ev: Event, ticks: u32, base: int, cap: u16, mss: u16,
                     sndWnd: u32, cwnd: u16)
    returns (at: seq<nat>, max: nat)
    requires Start(t0, base, cap, mss, sndWnd, cwnd) && SaneTimed(t0, evs)
    ensures var t := RunTimed(t0, evs);
            && Placed(t.log, at, base, max)
            && (Next(t, ev, ticks).timer.e != t.timer.e ==>
                  && ev.AckReceived? && t.timer.start != 0 && SeqLt(t.timer.seqno, ev.ackno)
                  && Next(t, ev, ticks).timer.e == E.Update(t.timer.e, Signed(Wrap(ticks - t.timer.start)))
                  && (t.mark == -1 || 0 <= t.mark < |t.log|)
                  && (t.mark == -1 ==> t.timer.seqno == Wrap(base - 1))
                  && (t.mark != -1 ==>
                        && t.timer.seqno == t.log[t.mark].seqno
                        && (t.below <==> SentBy(t.log, at, t.mark, at[t.mark]))
                        && (!t.unheeded ==>
                              forall i: nat :: t.mark < i < |t.log| ==> !Carries(t.log, at, i, at[t.mark]))))
  {
    hide RunTimed, SaneTimed, Fresh, Inv, SentBy, Carries, E.Update, SeqLt;
    StartGood(t0, base, cap, mss, sndWnd, cwnd);
    var written, v;
    at, written, v := RunGood(t0, evs, [], base, [], View(0, 0, 0, cap));
    var t := RunTimed(t0, evs);
    max := v.max;
    if Next(t, ev, ticks).timer.e != t.timer.e {
      ChangesOnlyByAck(t, ev, ticks);
    }
  }

  lemma StartGood(t0: Timed, base: int, cap: u16, mss: u16, sndWnd: u32, cwnd: u16)
    requires Start(t0, base, cap, mss, sndWnd, cwnd)
    ensures Good(t0, [], base, [], View(0, 0, 0, cap))
  {
    hide Fresh, Inv, AllSent, Wrap;
    FreshOk(base, cap, mss, sndWnd, cwnd);
  }

  lemma ChangesOnlyByAck(t: Timed, ev: Event, ticks: u32)
    requires Next(t, ev, ticks).timer.e != t.timer.e
    ensures ev.AckReceived? && t.timer.start != 0 && SeqLt(t.timer.seqno, ev.ackno)
    ensures Next(t, ev, ticks).timer.e == E.Update(t.timer.e, Signed(Wrap(ticks - t.timer.start)))
  {
    hide Step, SeqLt, E.Update, TimeAll;
    TimeAllIs(t.timer, ticks, Step(t.st, ev).sent);
  }

  // ----- Samples of segments sent twice

  const X := TcpSend.Segment(0, 1, false, [1], 1)
  const Y := TcpSend.Segment(1, 1, false, [2], 1)

  lemma Unroll(t: Timed, a: (Event, u32), rest: seq<(Event, u32)>)
    ensures RunTimed(t, [a] + rest) == RunTimed(Next(t, a.0, a.1), rest)
    ensures SaneTimed(t, [a] + rest) <==> Sane(t.st, a.0) && SaneTimed(Next(t, a.0, a.1), rest)
  {
    hide Next, Sane;
    assert ([a] + rest)[1..] == rest;
  }

  lemma RunOfFive(t: Timed, a: (Event, u32), b: (Event, u32), c: (Event, u32), d: (Event, u32), e: (Event, u32))
    ensures RunTimed(t, [a, b, c, d, e]) ==
            Next(Next(Next(Next(Next(t, a.0, a.1), b.0, b.1), c.0, c.1), d.0, d.1), e.0, e.1)
  {
    hide Next;
    var t1 := Next(t, a.0, a.1);
    var t2 := Next(t1, b.0, b.1);
    var t3 := Next(t2, c.0, c.1);
    var t4 := Next(t3, d.0, d.1);
    assert [a, b, c, d, e] == [a] + [b, c, d, e] && [b, c, d, e] == [b] + [c, d, e] && [c, d, e] == [c] + [d, e];
    assert [d, e] == [d] + [e] && [e] == [e] + [];
    Unroll(t, a, [b, c, d, e]);
    Unroll(t1, b, [c, d, e]);
    Unroll(t2, c, [d, e]);
    Unroll(t3, d, [e]);
    Unroll(t4, e, []);
  }

  /** Two segments, sent at tick 10; a timeout, which resends the first and puts the second back on unsent; the ACK of
      the first; tcp_output() sends the second again at tick 17, and times it. The ACK of its first copy, at tick 18,
      yields a sample of one tick. */
  lemma ResentSampled()
    ensures var t0 := Timed(Fresh(0, 256, 1, 1024, 1024), E.Timer(E.FRESH, 0, 0), [], -1, false, false);
            var t := RunTimed(t0, [(Write([1, 2], true, {}), 9), (Transmit, 10), (Timeout, 15), (AckReceived(1), 17),
                                   (Transmit, 17)]);
            && Start(t0, 0, 256, 1, 1024, 1024)
            && t.log == [X, Y, X, Y] && t.mark == 3 && t.below
            && Next(t, AckReceived(2), 18).timer.e == E.Update(E.FRESH, 1) != t.timer.e
  {
    hide Next, RunTimed;
    var t0 := Timed(Fresh(0, 256, 1, 1024, 1024), E.Timer(E.FRESH, 0, 0), [], -1, false, false);
    var st1 := t0.st.(unsent := [X, Y], sndLbb := 2, sndBuf := 254, queueLen := 2);
    var st2 := st1.(unsent := [], unacked := [X, Y], sndNxt := 2, sndMax := 2);
    var st3 := st2.(unsent := [Y], unacked := [X], sndNxt := 1);
    var st4 := st3.(unacked := [], lastAck := 1, sndBuf := 255, queueLen := 1);
    var st5 := st4.(unsent := [], unacked := [Y], sndNxt := 2);
    var t1, t2 := t0.(st := st1), Timed(st2, E.Timer(E.FRESH, 10, 0), [X, Y], 0, false, false);
    var t3 := Timed(st3, E.Timer(E.FRESH, 0, 0), [X, Y, X], 0, false, false);
    var t5 := Timed(st5, E.Timer(E.FRESH, 17, 1), [X, Y, X, Y], 3, true, false);
    RunOfFive(t0, (Write([1, 2], true, {}), 9), (Transmit, 10), (Timeout, 15), (AckReceived(1), 17), (Transmit, 17));
    assert Next(t0, Write([1, 2], true, {}), 9) == t1 by {
      WriteTwo(t0.st, st1, X, Y, 1024);
      WriteQuiet(t0, [1, 2], st1);
    }
    assert Next(t1, Transmit, 10) == t2 by { FirstTransmit(t1, t2); }
    assert Next(t2, Timeout, 15) == t3 by { PutBack(t2, t3); }
    assert Next(t3, AckReceived(1), 17) == t3.(st := st4) by { AckOfFirst(t3, st4); }
    assert Next(t3.(st := st4), Transmit, 17) == t5 by { SecondTransmit(t3.(st := st4), t5); }
    AckSampled(t5);
  }

  lemma WriteQuiet(t: Timed, data: Block, st': State)
    requires Step(t.st, Write(data, true, {})).st == st'
    ensures Next(t, Write(data, true, {}), 9) == t.(st := st')
  {
    hide Enqueue;
    assert t.log + [] == t.log;
  }

  lemma FirstTransmit(t1: Timed, t2: Timed)
    requires t1.st == Fresh(0, 256, 1, 1024, 1024).(unsent := [X, Y], sndLbb := 2, sndBuf := 254, queueLen := 2)
    requires t1.timer == E.Timer(E.FRESH, 0, 0) && t1.log == []
    requires t2 == Timed(t1.st.(unsent := [], unacked := [X, Y], sndNxt := 2, sndMax := 2), E.Timer(E.FRESH, 10, 0),
                         [X, Y], 0, false, false)
    ensures Next(t1, Transmit, 10) == t2
  {
    hide TimeAll;
    SendTwo(t1.st, t2.st, X, Y);
    BothSent(t1.st);
    BothTimed();
    assert [] + [X, Y] == [X, Y];
  }

  lemma BothSent(st1: State)
    requires st1 == Fresh(0, 256, 1, 1024, 1024).(unsent := [X, Y], sndLbb := 2, sndBuf := 254, queueLen := 2)
    ensures Output(st1).1 == [X, Y]
  {
    var f, f1 := Flow([X, Y], [], 0, 0), Flow([Y], [X], 1, 1);
    assert SendHead(f) == f1 by { assert [X, Y][1..] == [Y]; }
    SendLoopUnfold(f, 0, 1024);
    SendLoopUnfold(f1, 0, 1024);
    assert [Y][1..] == [] && [X] + ([Y] + []) == [X, Y];
  }

  lemma BothTimed()
    ensures TimeAll(E.Timer(E.FRESH, 0, 0), 10, [X, Y]) == E.Timer(E.FRESH, 10, 0)
  {
    var t := E.Timer(E.FRESH, 10, 0);
    assert E.Step(E.Timer(E.FRESH, 0, 0), E.Sent(10, 0)) == t;
    TimeAllIs(t, 10, [X, Y][1..]);
  }

  lemma PutBack(t2: Timed, t3: Timed)
    requires t2.st.unacked == [X, Y] && t2.st.unsent == [] && t2.st.lastAck == 0 && Window(t2.st) == 1024
    requires t2.log == [X, Y] && t2.timer.e == E.FRESH && t2.timer.seqno == 0
    requires t3 == t2.(st := t2.st.(unsent := [Y], unacked := [X], sndNxt := 1), timer := E.Timer(E.FRESH, 0, 0),
                       log := [X, Y, X])
    ensures Next(t2, Timeout, 15) == t3
  {
    RequeueTwo(t2.st, t3.st, X, Y);
    assert Rexmit(t3.st) == [X];
    assert [X, Y] + [X] == [X, Y, X];
  }

  lemma AckOfFirst(t3: Timed, st4: State)
    requires t3.st == State([Y], [X], 2, 1, 2, 0, 254, 2, 1, 1024, 1024, false, false) && t3.timer.start == 0
    requires st4 == State([Y], [], 2, 1, 2, 1, 255, 1, 1, 1024, 1024, false, false)
    ensures Next(t3, AckReceived(1), 17) == t3.(st := st4)
  {
    assert [X][1..] == [] && t3.log + [] == t3.log;
    assert DropAcked([X], 1) == [] && DropAcked([Y], 1) == [Y];
    assert QueueLenAfterDrop([Y], 1, 2) == 2 && QueueLenAfterDrop([X], 1, 2) == 1;
    assert Ack(t3.st, 1) == st4;
  }

  lemma SecondTransmit(t4: Timed, t5: Timed)
    requires t4.st == State([Y], [], 2, 1, 2, 1, 255, 1, 1, 1024, 1024, false, false)
    requires t4.timer == E.Timer(E.FRESH, 0, 0) && t4.log == [X, Y, X] && !t4.unheeded
    requires t5 == Timed(t4.st.(unsent := [], unacked := [Y], sndNxt := 2), E.Timer(E.FRESH, 17, 1),
                         [X, Y, X, Y], 3, true, false)
    ensures Next(t4, Transmit, 17) == t5
  {
    hide Output, TimeAll;
    SendsOne(t4.st, Y);
    TimesOne(t4.timer, 17, Y);
    assert [] + [Y] == [Y] && [X, Y, X] + [Y] == [X, Y, X, Y];
  }

  lemma SendsOne(st: State, s: Segment)
    requires st.unsent == [s] && !st.ackNow && Fits(s, st.lastAck, Window(st)) && TcpLen(s) > 0
    ensures var nxt := Wrap(s.seqno + TcpLen(s));
            Output(st) == (st.(unsent := [], unacked := st.unacked + [s], sndNxt := nxt,
                               sndMax := if SeqLt(st.sndMax, nxt) then nxt else st.sndMax), [s])
  {
    hide Fits, SeqLt, Wrap;
    SendLoopUnfold(FlowOf(st), st.lastAck, Window(st));
    assert [s][1..] == [] && [s] + [] == [s];
  }

  lemma TimesOne(t: E.Timer, ticks: u32, s: Segment)
    ensures TimeAll(t, ticks, [s]) == E.Step(t, E.Sent(ticks, s.seqno))
  {
    assert [s][1..] == [];
  }

  lemma AckSampled(t5: Timed)
    requires t5.timer == E.Timer(E.FRESH, 17, 1)
    ensures Next(t5, AckReceived(2), 18).timer.e == E.Update(E.FRESH, 1) != t5.timer.e
  {
    hide Step, E.Update, E.Step;
    Sampled(t5.timer, 2, 18);
    FirstUpdate(1);
  }

  lemma Sampled(t: E.Timer, ackno: u32, ticks: u32)
    requires 0 < t.start <= ticks < TWO16 && t.seqno < ackno < TWO31
    ensures E.Step(t, E.Acked(ticks, ackno)).e == E.Update(t.e, ticks - t.start)
  {
    hide E.Update;
    SeqCompare(t.seqno, ackno);
  }

  lemma FirstUpdate(m: nat)
    requires m > 0
    ensures E.Update(E.FRESH, m) != E.FRESH
  {
  }

  /** tcp_process() does not call tcp_receive() for the SYN and ACK that answer our SYN: the timer of an active open
      runs on, and the first later segment that carries an ACK number yields the sample, however late it comes. */
  lemma SynSampledLate(t: Timed, base: int, cap: u16, mss: u16, sndWnd: u32, cwnd: u16, ticks: u32)
    requires Start(t, base, cap, mss, sndWnd, cwnd) && t.timer.start != 0
    ensures Next(t, AckReceived(Wrap(base)), ticks).timer.e ==
            E.Update(t.timer.e, Signed(Wrap(ticks - t.timer.start)))
    ensures Next(t, AckReceived(Wrap(base)), ticks).st == t.st
  {
    hide E.Update;
    SeqCompare(base - 1, base);
    SeqCompare(base, base);
  }

  lemma {:induction false} Joined(t: Timed, a: seq<(Event, u32)>, b: seq<(Event, u32)>)
    ensures RunTimed(t, a + b) == RunTimed(RunTimed(t, a), b)
    decreases |a|
  {
    hide Next;
    if a == [] {
      assert a + b == b;
    } else {
      assert (a + b)[1..] == a[1..] + b;
      Joined(Next(t, a[0].0, a[0].1), a[1..], b);
    }
  }

  lemma RunOfFour(t: Timed, a: (Event, u32), b: (Event, u32), c: (Event, u32), d: (Event, u32))
    ensures RunTimed(t, [a, b, c, d]) == Next(Next(Next(Next(t, a.0, a.1), b.0, b.1), c.0, c.1), d.0, d.1)
  {
    hide Next;
    var t1 := Next(t, a.0, a.1);
    var t2 := Next(t1, b.0, b.1);
    var t3 := Next(t2, c.0, c.1);
    assert [a, b, c, d] == [a] + [b, c, d] && [b, c, d] == [b] + [c, d] && [c, d] == [c] + [d] && [d] == [d] + [];
    Unroll(t, a, [b, c, d]);
    Unroll(t1, b, [c, d]);
    Unroll(t2, c, [d]);
    Unroll(t3, d, []);
  }

  const FIRST_FIVE: seq<(Event, u32)> :=
    [(Write([1], true, {}), 9), (Transmit, 10), (FastRetransmit, 15), (Write([2], true, {}), 19), (Transmit, 20)]
  const LAST_FOUR: seq<(Event, u32)> :=
    [(Windows(0, 1), 30), (Timeout, 40), (Windows(1024, 1024), 45), (Transmit, 50)]

  /** The other way: the second of two segments is timed at tick 20, the window closes, a timeout puts that segment back
      on unsent but cannot resend the first, the window opens, and tcp_output() sends the second again at tick 50. Its
      acknowledgement at tick 51 yields a sample of 31 ticks. */
  lemma UnheededSampled()
    ensures var t0 := Timed(Fresh(0, 256, 1, 1024, 1024), E.Timer(E.FRESH, 0, 0), [], -1, false, false);
            var t := RunTimed(t0, FIRST_FIVE + LAST_FOUR);
            && t.log == [X, X, Y, Y] && t.mark == 2 && !t.below && t.unheeded
            && Next(t, AckReceived(2), 51).timer.e == E.Update(E.FRESH, 31) != t.timer.e
  {
    hide Next, RunTimed;
    var t0 := Timed(Fresh(0, 256, 1, 1024, 1024), E.Timer(E.FRESH, 0, 0), [], -1, false, false);
    var st1 := t0.st.(unsent := [X], sndLbb := 1, sndBuf := 255, queueLen := 1);
    var st2 := st1.(unsent := [], unacked := [X], sndNxt := 1, sndMax := 1);
    var st4 := st2.(unsent := [Y], sndLbb := 2, sndBuf := 254, queueLen := 2);
    var st5 := st4.(unsent := [], unacked := [X, Y], sndNxt := 2, sndMax := 2);
    var t2, t3 := Timed(st2, E.Timer(E.FRESH, 10, 0), [X], 0, false, false),
                  Timed(st2, E.Timer(E.FRESH, 0, 0), [X, X], 0, false, false);
    var t5 := Timed(st5, E.Timer(E.FRESH, 20, 1), [X, X, Y], 2, false, false);
    var t := t5.(log := [X, X, Y, Y], unheeded := true);
    RunOfFive(t0, (Write([1], true, {}), 9), (Transmit, 10), (FastRetransmit, 15), (Write([2], true, {}), 19),
              (Transmit, 20));
    assert Next(t0, Write([1], true, {}), 9) == t0.(st := st1) by { ByteWritten(t0, 1, 9, X); }
    assert Next(t0.(st := st1), Transmit, 10) == t2 by { ByteSent(t0.(st := st1), 10, X); }
    assert Next(t2, FastRetransmit, 15) == t3 by { FirstAgain(t2, t3); }
    assert Next(t3, Write([2], true, {}), 19) == t3.(st := st4) by { ByteWritten(t3, 2, 19, Y); }
    assert Next(t3.(st := st4), Transmit, 20) == t5 by {
      ByteSent(t3.(st := st4), 20, Y);
      assert [X] + [Y] == [X, Y] && [X, X] + [Y] == [X, X, Y];
    }
    Joined(t0, FIRST_FIVE, LAST_FOUR);
    LastFour(t5, t);
    SampleOf(t, 51);
  }

  lemma ByteWritten(t: Timed, b: byte, ticks: u32, s: Segment)
    requires t.st.unsent == [] && !t.st.closing && t.st.mss == 1 && t.st.queueLen < 4 && 0 < t.st.sndBuf
    requires s == Segment(t.st.sndLbb, 1, false, [b], 1)
    ensures Next(t, Write([b], true, {}), ticks) ==
            t.(st := t.st.(unsent := [s], sndLbb := Wrap(t.st.sndLbb + 1), sndBuf := t.st.sndBuf - 1,
                           queueLen := t.st.queueLen + 1))
  {
    var data: seq<byte> := [b];
    assert data[..1] == [b] && t.log + [] == t.log;
    assert Build(data, false, true, 1, t.st.sndLbb, t.st.queueLen, 0, {}) == Built([s], t.st.queueLen + 1);
    assert [] + [s] == [s];
  }

  lemma ByteSent(t: Timed, ticks: u32, s: Segment)
    requires t.st.unsent == [s] && !t.st.ackNow && Fits(s, t.st.lastAck, Window(t.st)) && TcpLen(s) > 0
    requires t.timer.start == 0 && SeqLt(t.st.sndMax, Wrap(s.seqno + TcpLen(s)))
    ensures Next(t, Transmit, ticks) ==
            Timed(t.st.(unsent := [], unacked := t.st.unacked + [s], sndNxt := Wrap(s.seqno + TcpLen(s)),
                        sndMax := Wrap(s.seqno + TcpLen(s))),
                  E.Timer(t.timer.e, Wrap16(ticks), s.seqno), t.log + [s], |t.log|, SeqLt(s.seqno, t.st.sndMax), false)
  {
    hide Output, TimeAll, Fits, SeqLt, Wrap, Wrap16;
    SendsOne(t.st, s);
    TimesOne(t.timer, ticks, s);
  }

  lemma FirstAgain(t2: Timed, t3: Timed)
    requires t2.st.unacked == [X] && t2.st.lastAck == 0 && Window(t2.st) == 1024 && t2.log == [X]
    requires t2.timer == E.Timer(E.FRESH, 10, 0) && t3 == t2.(timer := E.Timer(E.FRESH, 0, 0), log := [X, X])
    ensures Next(t2, FastRetransmit, 15) == t3
  {
    assert [X] + [X] == [X, X];
  }

  lemma LastFour(t5: Timed, t: Timed)
    requires t5 == Timed(State([], [X, Y], 2, 2, 2, 0, 254, 2, 1, 1024, 1024, false, false), E.Timer(E.FRESH, 20, 1),
                         [X, X, Y], 2, false, false)
    requires t == t5.(log := [X, X, Y, Y], unheeded := true)
    ensures RunTimed(t5, LAST_FOUR) == t
  {
    hide Next, RunTimed;
    var t6 := t5.(st := t5.st.(sndWnd := 0, cwnd := 1));
    var t7 := t6.(st := t6.st.(unsent := [Y], unacked := [X], sndNxt := 1), unheeded := true);
    var t8 := t7.(st := t7.st.(sndWnd := 1024, cwnd := 1024));
    RunOfFour(t5, (Windows(0, 1), 30), (Timeout, 40), (Windows(1024, 1024), 45), (Transmit, 50));
    assert Next(t5, Windows(0, 1), 30) == t6 by { WindowsOnly(t5, 0, 1, 30); }
    assert Next(t6, Timeout, 40) == t7 by { NoRoom(t6, t7); }
    assert Next(t7, Windows(1024, 1024), 45) == t8 by { WindowsOnly(t7, 1024, 1024, 45); }
    assert Next(t8, Transmit, 50) == t by { SentUntimed(t8, t); }
  }

  lemma WindowsOnly(t: Timed, sndWnd: u32, cwnd: u16, ticks: u32)
    ensures Next(t, Windows(sndWnd, cwnd), ticks) == t.(st := t.st.(sndWnd := sndWnd, cwnd := cwnd))
  {
    assert t.log + [] == t.log;
  }

  lemma NoRoom(t6: Timed, t7: Timed)
    requires t6.st == State([], [X, Y], 2, 2, 2, 0, 254, 2, 1, 0, 1, false, false)
    requires t7 == t6.(st := t6.st.(unsent := [Y], unacked := [X], sndNxt := 1), unheeded := true)
    ensures Next(t6, Timeout, 40) == t7
  {
    RequeueTwo(t6.st, t7.st, X, Y);
    assert Rexmit(t7.st) == [];
    assert t6.log + [] == t6.log;
  }

  lemma SentUntimed(t8: Timed, t: Timed)
    requires t8.st == State([Y], [X], 2, 1, 2, 0, 254, 2, 1, 1024, 1024, false, false)
    requires t8.timer == E.Timer(E.FRESH, 20, 1) && t8.log == [X, X, Y]
    requires t == t8.(st := t8.st.(unsent := [], unacked := [X, Y], sndNxt := 2), log := [X, X, Y, Y])
    ensures Next(t8, Transmit, 50) == t
  {
    hide Output, TimeAll;
    SendsOne(t8.st, Y);
    TimesOne(t8.timer, 50, Y);
    assert [X] + [Y] == [X, Y] && [X, X, Y] + [Y] == [X, X, Y, Y];
  }

  lemma SampleOf(t: Timed, ticks: u32)
    requires t.timer == E.Timer(E.FRESH, 20, 1) && ticks == 51
    ensures Next(t, AckReceived(2), ticks).timer.e == E.Update(E.FRESH, 31) != t.timer.e
  {
    hide Step, E.Update, E.Step;
    Sampled(t.timer, 2, ticks);
    FirstUpdate(31);
  }
}
