/** The round-trip time estimator of tcp_receive() and tcp_output_segment(). */
module RttEstimator {
  import opened SeqNum

  /** The scaled estimates: sa is eight times the smoothed round-trip time, sv four times the mean deviation. */
  datatype Estimate = Estimate(sa: int, sv: int)

  function Abs(x: int): nat {
    if x < 0 then -x else x
  }

  /** Arithmetic shifts right are floor divisions. */
  function Update(e: Estimate, m: int): Estimate {
    var err := m - e.sa / 8;
    Estimate(e.sa + err, e.sv + Abs(err) - e.sv / 4)
  }

  function UpdateAll(e: Estimate, samples: seq<int>): Estimate
    decreases |samples|
  {
    if samples == [] then e else UpdateAll(Update(e, samples[0]), samples[1..])
  }

  /** The retransmission time-out before backoff. */
  function Rto(e: Estimate): int {
    e.sa / 8 + e.sv
  }

  /** The time-out is the smoothed round-trip time plus four times the mean deviation, rounded down to whole ticks: sa
      is eight times the one and sv four times the other. */
  lemma RtoMeans(e: Estimate)
    ensures e.sa + 8 * e.sv - 8 < 8 * Rto(e) <= e.sa + 8 * e.sv
  {
    var q, r := e.sa / 8, e.sa % 8;
    assert e.sa == 8 * q + r;
  }

  /** What the 16 bits of rto hold after a sample. */
  predicate TimedOut(e: Estimate, rto: u16) {
    && rto == Wrap16(Rto(e))
    && (0 <= Rto(e) < TWO16 ==> e.sa + 8 * e.sv - 8 < 8 * rto <= e.sa + 8 * e.sv)
  }

  /** The smoothed value lies among the samples seen and the deviation is bounded by bound. */
  predicate Within(e: Estimate, lo: nat, hi: nat, bound: nat) {
    8 * lo <= e.sa <= 8 * hi + 7 && 3 <= e.sv <= bound
  }

  /** One sample: the smoothed time moves an eighth of the way to it and the deviation a quarter of the way to the
      error, each rounded by less than one unit of the scaled value; the gains of RFC 6298 section 2. */
  lemma Smoothing(e: Estimate, m: int)
    requires e.sv >= 0
    ensures var e' := Update(e, m);
            var err := Abs(m - e.sa / 8);
            && 7 * e.sa + 8 * m <= 8 * e'.sa < 7 * e.sa + 8 * m + 8
            && 3 * e.sv + 4 * err <= 4 * e'.sv < 3 * e.sv + 4 * err + 4
  {
    var q, r := e.sa / 8, e.sa % 8;
    assert e.sa == 8 * q + r;
    var q', r' := e.sv / 4, e.sv % 4;
    assert e.sv == 4 * q' + r';
  }

  lemma UpdateWithin(e: Estimate, m: int, lo: nat, hi: nat, bound: nat)
    requires Within(e, lo, hi, bound) && lo <= m <= hi && 4 * (hi - lo) <= bound
    ensures Within(Update(e, m), lo, hi, bound)
  {
    var s := e.sa / 8;
    assert lo <= s <= hi;
    assert Abs(m - s) <= hi - lo;
  }

  /** Over every run of samples in [lo, hi] the estimate stays there and the time-out stays in [lo + 3, hi + bound]. */
  lemma {:induction false} RunWithin(e: Estimate, samples: seq<int>, lo: nat, hi: nat, bound: nat)
    requires Within(e, lo, hi, bound) && 4 * (hi - lo) <= bound
    requires forall i :: 0 <= i < |samples| ==> lo <= samples[i] <= hi
    ensures Within(UpdateAll(e, samples), lo, hi, bound)
    ensures lo + 3 <= Rto(UpdateAll(e, samples)) <= hi + bound
    decreases |samples|
  {
    if samples != [] {
      UpdateWithin(e, samples[0], lo, hi, bound);
      RunWithin(Update(e, samples[0]), samples[1..], lo, hi, bound);
    }
  }

  /** tcp_new(): no smoothed value yet and a deviation of 3000 / 500 ticks. */
  const FRESH := Estimate(0, 6)

  /** From a new connection, with samples of at most m >= 1 ticks. */
  lemma FreshRun(samples: seq<int>, m: nat)
    requires m >= 1 && forall i :: 0 <= i < |samples| ==> 0 <= samples[i] <= m
    ensures var e := UpdateAll(FRESH, samples);
            0 <= e.sa <= 8 * m + 7 && 3 <= e.sv <= 4 * m + 3 && 3 <= Rto(e) <= 5 * m + 3
  {
    RunWithin(FRESH, samples, 0, m, 4 * m + 3);
  }

  // ----- Timing one segment at a time

  /** start is the tick count when the timed segment was sent, cut to 16 bits, and 0 when none is timed; seqno is its
      number. */
  datatype Timer = Timer(e: Estimate, start: u16, seqno: u32)

  /** What concerns the timer: tcp_output() sends a segment, new or put back on unsent by a timeout; tcp_rexmit_seg()
      sends one; an ACK arrives. */
  datatype Event = Sent(ticks: u32, seqno: u32) | Resent | Acked(ticks: u32, ackno: u32)

  /** The ACK covers the segment with the given number. */
  predicate Covers(ev: Event, seqno: u32) {
    ev.Acked? && SeqLt(seqno, ev.ackno)
  }

  function Step(t: Timer, ev: Event): Timer {
    match ev
    case Sent(ticks, seqno) => if t.start == 0 then t.(start := Wrap16(ticks), seqno := seqno) else t
    case Resent => t.(start := 0)
    case Acked(ticks, ackno) =>
      if t.start != 0 && SeqLt(t.seqno, ackno) then
        Timer(Update(t.e, Signed(Wrap(ticks - t.start))), 0, t.seqno)
      else t
  }

  function Run(t: Timer, evs: seq<Event>): Timer
    decreases |evs|
  {
    if evs == [] then t else Run(Step(t, evs[0]), evs[1..])
  }

  class Timing {
    var sa: int
    var sv: int
    var rto: u16
    var rttest: u16
    var rtseq: u32

    function Value(): Timer
      reads this
    {
      Timer(Estimate(sa, sv), rttest, rtseq)
    }

    /** tcp_output_segment() */
    method SegmentSent(ticks: u32, seqno: u32)
      modifies this
      ensures Value() == Step(old(Value()), Sent(ticks, seqno)) && rto == old(rto)
    {
      if rttest == 0 {
        rttest := Wrap16(ticks);
        rtseq := seqno;
      }
    }

    /** tcp_rexmit_seg(), when it sends the segment. */
    method SegmentResent()
      modifies this
      ensures Value() == Step(old(Value()), Resent) && rto == old(rto)
    {
      rttest := 0;
    }

    /** The estimation step of tcp_receive() for an ACK number.  A sample is taken if and only if a segment is timed and
        the ACK covers it; the time-out, where 16 bits hold it, is then the smoothed time plus four deviations. */
    method AckSeen(ticks: u32, ackno: u32)
      modifies this
      ensures Value() == Step(old(Value()), Acked(ticks, ackno))
      ensures if old(rttest) != 0 && Covers(Acked(ticks, ackno), old(rtseq))
              then rttest == 0 && TimedOut(Value().e, rto) else Value() == old(Value()) && rto == old(rto)
    {
      hide Update, Signed, Wrap, SeqLt, TimedOut;
      if rttest != 0 && SeqLt(rtseq, ackno) {
        TakeSample(Signed(Wrap(ticks - rttest)));
        rttest := 0;
      }
    }

    method TakeSample(sample: int)
      modifies this`sa, this`sv, this`rto
      ensures Estimate(sa, sv) == Update(Estimate(old(sa), old(sv)), sample) && TimedOut(Estimate(sa, sv), rto)
    {
      var m := sample - sa / 8;
      sa := sa + m;
      if m < 0 {
        m := -m;
      }
      m := m - sv / 4;
      sv := sv + m;
      rto := Wrap16(sa / 8 + sv);
      RtoMeans(Estimate(sa, sv));
    }
  }

  /** Event i is when tcp_output() sent the segment being timed, and since then tcp_rexmit_seg() sent nothing and no ACK
      covered that segment. */
  ghost predicate TimedSince(t: Timer, evs: seq<Event>, i: nat) {
    && i < |evs| && evs[i].Sent? && t.start == Wrap16(evs[i].ticks) && t.seqno == evs[i].seqno
    && forall k :: i < k < |evs| ==> !evs[k].Resent? && !Covers(evs[k], t.seqno)
  }

  /** The timer is stopped, or it runs for a segment of the given history. */
  ghost predicate Justified(t: Timer, past: seq<Event>) {
    t.start != 0 ==> exists i: nat :: TimedSince(t, past, i)
  }

  lemma StepJustified(t: Timer, ev: Event, past: seq<Event>)
    requires Justified(t, past)
    ensures Justified(Step(t, ev), past + [ev])
  {
    hide SeqLt, Update;
    var t', past' := Step(t, ev), past + [ev];
    if t'.start != 0 {
      if t.start == 0 {
        assert past'[|past|] == ev;
        assert TimedSince(t', past', |past|);
      } else {
        var i :| TimedSince(t, past, i);
        assert TimedSince(t', past', i);
      }
    }
  }

  lemma {:induction false} RunJustified(t: Timer, evs: seq<Event>, past: seq<Event>)
    requires Justified(t, past)
    ensures Justified(Run(t, evs), past + evs)
    decreases |evs|
  {
    hide Step, Justified;
    if evs == [] {
      assert past + [] == past;
    } else {
      StepJustified(t, evs[0], past);
      RunJustified(Step(t, evs[0]), evs[1..], past + [evs[0]]);
      assert past + [evs[0]] + evs[1..] == past + evs;
    }
  }

  /** Over any run from a new connection, the estimate changes just by an ACK that covers the segment being timed, and
      since that segment was timed, at the tick the sample counts from, tcp_rexmit_seg() sent nothing and no other ACK
      covered it. Whether the segment was sent at other times is another question: see module Karn. */
  lemma SamplesTimedOnce(evs: seq<Event>, ev: Event)
    ensures var t := Run(Timer(FRESH, 0, 0), evs);
            && (Step(t, ev).e != t.e ==>
                  && ev.Acked? && t.start != 0
                  && Step(t, ev).e == Update(t.e, Signed(Wrap(ev.ticks - t.start)))
                  && exists i: nat :: TimedSince(t, evs, i) && Covers(ev, evs[i].seqno))
            && (t.start != 0 && Covers(ev, t.seqno) ==>
                  Step(t, ev) == Timer(Update(t.e, Signed(Wrap(ev.ticks - t.start))), 0, t.seqno))
  {
    hide Run, Update;
    var t := Run(Timer(FRESH, 0, 0), evs);
    RunJustified(Timer(FRESH, 0, 0), evs, []);
    assert [] + evs == evs;
    if t.start != 0 {
      var i :| TimedSince(t, evs, i);
    }
  }

  /** The sample taken at tick now is the true round-trip time exactly when the segment was sent before tick 2^16. */
  lemma SampleExact(start: nat, now: nat)
    requires start <= now < TWO31
    ensures Signed(Wrap(now - Wrap16(start))) == now - start <==> start < TWO16
  {
  }
}
