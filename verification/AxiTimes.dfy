/** When the packets of a dumped text start: the delays of axis_dump() read with the clock of axis_load(), in
    HW_stub/NetFPGA-10G-live/tools/scripts/axitools.py.  Both were given the same period. */
module AxiTimes {
  import opened SeqNum
  import opened AxiText
  import opened AxiRoundTrip

  /** By how much a exceeds b. */
  function Over(a: int, b: int): nat {
    if a > b then a - b else 0
  }

  /** How many nanoseconds late packet i starts: every overlap so far adds to it, and no gap takes away from it. */
  function Lag(ps: seq<Packet>, w: nat, ns: nat, i: nat): nat
    requires w > 0 && i < |ps|
  {
    if i == 0 then 0 else Lag(ps, w, ns, i - 1) + Over(EndOf(ps[i - 1], w, ns), ps[i].time)
  }

  /** Nanoseconds as seconds. */
  function Seconds(ns: int): real {
    ns as real / NANO
  }

  /** The first delay is written in nanoseconds and read in seconds, which moves all packets by this much. */
  function Shift(first: nat): real {
    first as real - Seconds(first)
  }

  lemma SecondsAdd(a: int, b: int)
    ensures Seconds(a + b) == Seconds(a) + Seconds(b)
  {
  }

  lemma {:induction false} AfterIs(time: real, n: nat, ns: nat)
    ensures After(time, n, Seconds(ns)) == time + Seconds(n * ns)
    decreases n
  {
    hide Seconds;
    if n == 0 {
      Nothing();
    } else {
      AfterIs(time + Seconds(ns), n - 1, ns);
      SecondsAdd(ns, (n - 1) * ns);
      assert n * ns == ns + (n - 1) * ns;
    }
  }

  lemma Nothing()
    ensures Seconds(0) == 0.0
  {
  }

  /** The clock of axis_load() after packet i. */
  lemma ClockAfter(ps: seq<Packet>, w: nat, ns: nat, i: nat, start: int, shift: real)
    requires w > 0 && i < |ps| && StartAt(ps, w, ns, Seconds(ns), i) == Seconds(start) + shift
    ensures LoadClock(ps, w, ns, Seconds(ns), i + 1) == Seconds(start + EndOf(ps[i], w, ns) - ps[i].time) + shift
  {
    hide StartAt, LoadClock, Seconds, WordCount, After;
    ClocksAfter(ps, w, ns, Seconds(ns), i);
    AfterIs(StartAt(ps, w, ns, Seconds(ns), i), WordCount(|ps[i].bytes|, w), ns);
    SecondsAdd(start, WordCount(|ps[i].bytes|, w) * ns);
  }

  lemma DelayedIs(clock: int, shift: real, end: int, due: nat)
    ensures Delayed(Seconds(clock) + shift, Some(end), due) == Seconds(clock + Over(due, end)) + shift
  {
    if due > end {
      SecondsAdd(clock, due - end);
    }
  }

  /** Packet i starts at its own time and the lag, moved by the shift. */
  lemma {:induction false} StartExactly(ps: seq<Packet>, w: nat, ns: nat, i: nat)
    requires w > 0 && i < |ps|
    ensures StartAt(ps, w, ns, Seconds(ns), i) == Seconds(ps[i].time + Lag(ps, w, ns, i)) + Shift(ps[0].time)
  {
    hide Seconds, EndOf, Shift;
    if i == 0 {
      FirstStart(ps, w, ns);
    } else {
      var lag, end := Lag(ps, w, ns, i - 1), EndOf(ps[i - 1], w, ns);
      StartExactly(ps, w, ns, i - 1);
      ClockAfter(ps, w, ns, i - 1, ps[i - 1].time + lag, Shift(ps[0].time));
      DelayedIs(end + lag, Shift(ps[0].time), end, ps[i].time);
      StartUnfold(ps, w, ns, i);
    }
  }

  lemma FirstStart(ps: seq<Packet>, w: nat, ns: nat)
    requires w > 0 && ps != []
    ensures StartAt(ps, w, ns, Seconds(ns), 0) == ps[0].time as real == Seconds(ps[0].time) + Shift(ps[0].time)
  {
  }

  lemma StartUnfold(ps: seq<Packet>, w: nat, ns: nat, i: nat)
    requires w > 0 && 0 < i < |ps|
    ensures StartAt(ps, w, ns, Seconds(ns), i)
              == Delayed(LoadClock(ps, w, ns, Seconds(ns), i), Some(EndOf(ps[i - 1], w, ns)), ps[i].time)
  {
    hide Seconds, EndOf, Delayed, LoadClock;
  }

  // ----- When the times are right

  lemma {:induction false} NoLag(ps: seq<Packet>, w: nat, ns: nat, i: nat)
    requires w > 0 && i < |ps|
    ensures Lag(ps, w, ns, i) == 0 <==> forall j :: 0 < j <= i ==> EndOf(ps[j - 1], w, ns) <= ps[j].time
  {
    hide EndOf;
    if i > 0 {
      NoLag(ps, w, ns, i - 1);
    }
  }

  lemma SecondsGrow(a: int, b: int)
    ensures Seconds(a) <= Seconds(b) <==> a <= b
    ensures b > 0 ==> Shift(b) > 0.0
    ensures Shift(0) == 0.0
  {
  }

  /** A packet starts at its own time if and only if the first is due at 0 and no packet so far is due before the end of
      the one before it; it never starts earlier. */
  lemma OwnTime(ps: seq<Packet>, w: nat, ns: nat, i: nat)
    requires w > 0 && i < |ps|
    ensures StartAt(ps, w, ns, Seconds(ns), i) >= Seconds(ps[i].time)
    ensures StartAt(ps, w, ns, Seconds(ns), i) == Seconds(ps[i].time) <==>
            ps[0].time == 0 && forall j :: 0 < j <= i ==> EndOf(ps[j - 1], w, ns) <= ps[j].time
  {
    hide StartAt, Lag, EndOf, Seconds, Shift;
    StartExactly(ps, w, ns, i);
    NoLag(ps, w, ns, i);
    SecondsGrow(ps[i].time, ps[i].time + Lag(ps, w, ns, i));
    SecondsGrow(ps[i].time + Lag(ps, w, ns, i), ps[i].time);
    SecondsGrow(0, ps[0].time);
  }

  /** Packets do not overlap.  Each starts at the later of its own time, moved by the shift, and the end of the packet
      before it if and only if that one is in time, or this one is due before its predecessor should end. */
  lemma LaterOf(ps: seq<Packet>, w: nat, ns: nat, i: nat)
    requires w > 0 && 0 < i < |ps|
    ensures var own := Seconds(ps[i].time) + Shift(ps[0].time);
            var free := LoadClock(ps, w, ns, Seconds(ns), i);
            var start := StartAt(ps, w, ns, Seconds(ns), i);
            && start >= own && start >= free
            && (start == (if own > free then own else free) <==>
                Lag(ps, w, ns, i - 1) == 0 || ps[i].time <= EndOf(ps[i - 1], w, ns))
  {
    hide StartAt, LoadClock, EndOf, Seconds, Shift;
    var lag, end, due := Lag(ps, w, ns, i - 1), EndOf(ps[i - 1], w, ns), ps[i].time;
    StartExactly(ps, w, ns, i - 1);
    StartExactly(ps, w, ns, i);
    ClockAfter(ps, w, ns, i - 1, ps[i - 1].time + lag, Shift(ps[0].time));
    assert Lag(ps, w, ns, i) == lag + Over(end, due);
    LaterNumbers(due, end, lag);
  }

  lemma LaterNumbers(due: nat, end: int, lag: nat)
    ensures var start, free := Seconds(due + (lag + Over(end, due))), Seconds(end + lag);
            && start >= Seconds(due) && start >= free
            && (start == (if Seconds(due) > free then Seconds(due) else free) <==> lag == 0 || due <= end)
  {
    hide Seconds;
    var start := due + (lag + Over(end, due));
    SecondsGrow(due, start);
    SecondsGrow(start, due);
    SecondsGrow(end + lag, start);
    SecondsGrow(start, end + lag);
    SecondsGrow(due, end + lag);
  }

  /** A bus of 8 bytes with a period of 5 ns, and packets of 32 bytes due at 0, 10 and 100 ns: the second starts when
      the first has ended, at 20 ns, and the third at 110 ns, although the bus is free from 40 ns on. */
  lemma LagStays(ps: seq<Packet>)
    requires |ps| == 3 && forall k :: 0 <= k < 3 ==> |ps[k].bytes| == 32
    requires ps[0].time == 0 && ps[1].time == 10 && ps[2].time == 100
    ensures StartAt(ps, 8, 5, Seconds(5), 1) == Seconds(20)
    ensures LoadClock(ps, 8, 5, Seconds(5), 2) == Seconds(40) && StartAt(ps, 8, 5, Seconds(5), 2) == Seconds(110)
  {
    hide StartAt, LoadClock, Seconds;
    assert WordCount(32, 8) == 4;
    SecondsGrow(0, 0);
    StartExactly(ps, 8, 5, 1);
    StartExactly(ps, 8, 5, 2);
    ClockAfter(ps, 8, 5, 1, 20, Shift(0));
  }

  /** A first packet due at 1 ns starts at 1 s. */
  lemma FirstInSeconds(ps: seq<Packet>, w: nat, ns: nat)
    requires w > 0 && ps != [] && ps[0].time == 1
    ensures StartAt(ps, w, ns, Seconds(ns), 0) == 1.0 == Seconds(1000000000)
  {
    FirstStart(ps, w, ns);
  }
}
