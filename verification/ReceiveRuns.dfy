/** Whole runs of the receive path: what the application gets is the stream. */
module ReceiveRuns {
  import opened Bytes
  import opened SeqNum
  import R = Reassembly
  import opened TcpReceive

  /**
   What can happen to the receive side: a segment carrying the stream bytes from position at on arrives (front is
   what lies before them in the pbuf, and alloc says whether tcp_seg_copy() finds memory), the application consumes
   data, or the out-of-sequence queue is dropped by the slow timer or the memory reclaimer.
   */
  type Payload = s: seq<byte> | |s| <= R.MAX_LEN

  datatype Event = Arrival(at: nat, data: Payload, front: seq<byte>, alloc: bool) | Consumed(len: u16) | QueueDropped

  function Step(st: State, base: int, ev: Event): (State, seq<byte>)
  {
    match ev
    case Arrival(at, data, front, alloc) => Receive(st, Wrap(base + at), data, front, alloc)
    case Consumed(len) => (st.(rcvWnd := Reopen(st.rcvWnd, len)), [])
    case QueueDropped => (st.(ooseq := []), [])
  }

  /** The state after all events, and what each of them handed to the application. */
  function Run(st: State, base: int, evs: seq<Event>): (State, seq<seq<byte>>)
    decreases |evs|
  {
    if evs == [] then (st, [])
    else
      var (st1, up) := Step(st, base, evs[0]);
      var (st2, ups) := Run(st1, base, evs[1..]);
      (st2, [up] + ups)
  }

  // ----- The same on stream positions

  function PlainStep(r: R.Receiver, ev: Event): (R.Receiver, seq<byte>)
    requires r.window < TWO16
  {
    match ev
    case Arrival(at, data, _, alloc) => R.Arrive(r, R.Piece(at, data), alloc)
    case Consumed(len) => (r.(window := Reopen(r.window, len)), [])
    case QueueDropped => (r.(queue := []), [])
  }

  /** The event is one a correct peer and network can cause, and it triggers neither the replacement nor the trimming
      defect. */
  ghost predicate FairStep(r: R.Receiver, ev: Event, stream: seq<byte>) {
    ev.Arrival? ==>
      var p := R.Piece(ev.at, ev.data);
      R.IsSlice(p, stream) && Near(r, p) && Trimmable(r, p) && !R.Overruns(r, p, ev.alloc)
  }

  /** st is the 32-bit state of a valid receiver standing at r. */
  ghost predicate Tracks(st: State, r: R.Receiver, base: int, stream: seq<byte>) {
    R.Inv(r, stream) && Short(r.queue) && st == Image(r, base)
  }

  lemma ArrivalSafe(st: State, r: R.Receiver, base: int, p: R.Piece, front: seq<byte>, alloc: bool, stream: seq<byte>)
    requires Tracks(st, r, base, stream)
    requires |p.data| <= R.MAX_LEN && R.IsSlice(p, stream) && Near(r, p) && Trimmable(r, p) && !R.Overruns(r, p, alloc)
    ensures var (st', up) := Receive(st, Wrap(base + p.at), p.data, front, alloc);
            var (r', up') := R.Arrive(r, p, alloc);
            && r.next <= r'.next <= |stream|
            && up == up' == stream[r.next..r'.next]
            && Tracks(st', r', base, stream)
            && r'.window < TWO16
  {
    hide Receive, R.Arrive, R.Inv, Image, R.Overruns, Near, Trimmable, R.IsSlice, Short, Wrap;
    R.ArriveSafe(r, p, alloc, stream);
    ReceiveRefines(r, p, front, alloc, base, stream);
  }

  lemma ConsumedSafe(st: State, r: R.Receiver, base: int, len: u16, stream: seq<byte>)
    requires Tracks(st, r, base, stream)
    ensures r.next <= |stream| && r.window < TWO16 && st.rcvWnd == r.window
    ensures Tracks(st.(rcvWnd := Reopen(st.rcvWnd, len)), r.(window := Reopen(r.window, len)), base, stream)
  {
  }

  lemma QueueDroppedSafe(st: State, r: R.Receiver, base: int, stream: seq<byte>)
    requires Tracks(st, r, base, stream)
    ensures r.next <= |stream| && Tracks(st.(ooseq := []), r.(queue := []), base, stream)
  {
  }

  lemma StepSafe(st: State, r: R.Receiver, base: int, ev: Event, stream: seq<byte>)
    requires Tracks(st, r, base, stream) && FairStep(r, ev, stream)
    ensures var (r', up) := PlainStep(r, ev);
            && r.next <= r'.next <= |stream|
            && Step(st, base, ev).1 == up == stream[r.next..r'.next]
            && Tracks(Step(st, base, ev).0, r', base, stream)
  {
    hide R.Arrive, Receive, R.IsSlice, R.Overruns, Near, Trimmable, Wrap, Reopen, R.Inv, Image, Short;
    if ev.Arrival? {
      ArrivalSafe(st, r, base, R.Piece(ev.at, ev.data), ev.front, ev.alloc, stream);
    } else if ev.Consumed? {
      ConsumedSafe(st, r, base, ev.len, stream);
    } else {
      QueueDroppedSafe(st, r, base, stream);
    }
  }

  /** Every event is fair in the state it meets. */
  ghost predicate FairRun(r: R.Receiver, evs: seq<Event>, stream: seq<byte>)
    requires r.window < TWO16
    decreases |evs|
  {
    evs == [] ||
    (var r1 := PlainStep(r, evs[0]).0;
     FairStep(r, evs[0], stream) && r1.window < TWO16 && FairRun(r1, evs[1..], stream))
  }

  /**
   For every fair run, from every valid state and for every initial sequence number, the deliveries joined together
   are exactly the stream from the old to the new rcv_nxt, and the state is again valid.
   */
  lemma {:induction false} RunSafe(st: State, r: R.Receiver, base: int, evs: seq<Event>, stream: seq<byte>)
    returns (r': R.Receiver)
    requires Tracks(st, r, base, stream) && FairRun(r, evs, stream)
    ensures r.next <= r'.next <= |stream| && Tracks(Run(st, base, evs).0, r', base, stream)
    ensures Flatten(Run(st, base, evs).1) == stream[r.next..r'.next]
    decreases |evs|
  {
    if evs == [] {
      r' := r;
    } else {
      StepSafe(st, r, base, evs[0], stream);
      var (st1, up) := Step(st, base, evs[0]);
      var r1 := PlainStep(r, evs[0]).0;
      RunUnfold(st, base, evs);
      hide Tracks, Step, PlainStep, FairStep, Flatten, Run;
      r' := RunSafe(st1, r1, base, evs[1..], stream);
      JoinSlices(stream, r.next, r1.next, r'.next);
    }
  }

  lemma JoinSlices(s: seq<byte>, a: nat, b: nat, c: nat)
    requires a <= b <= c <= |s|
    ensures s[a..b] + s[b..c] == s[a..c]
  {
  }

  // ----- The defect: a longer segment with the sequence number of a queued one is not cut at the next queued one

  const BAD_RUN: seq<Event> := [
    Arrival(2, [2], [], true),         // queued: [2,3)
    Arrival(4, [4], [], true),         // queued: [2,3) [4,5)
    Arrival(2, [2, 3, 4], [], true),   // replaces the first: [2,5) overlaps [4,5)
    Arrival(0, [0, 1], [], true),      // hands up [0,2) and [2,5); [4,5) now lies below rcv_nxt
    Arrival(5, [5], [], true)          // "trimmed" to 4 - 5 as uint16_t
  ]

  const TWO := Segment(2, 1, [2])
  const FOUR := Segment(4, 1, [4])
  const LONG := Segment(2, 3, [2, 3, 4])

  lemma BadQueue()
    ensures Receive(State(0, 1024, []), 2, [2], [], true) == (State(0, 1024, [TWO]), [])
    ensures Receive(State(0, 1024, [TWO]), 4, [4], [], true) == (State(0, 1024, [TWO, FOUR]), [])
    ensures Receive(State(0, 1024, [TWO, FOUR]), 2, [2, 3, 4], [], true) == (State(0, 1024, [LONG, FOUR]), [])
  {
    assert Walk([TWO], 0, FOUR, true) == [TWO, FOUR];
    assert Walk([TWO, FOUR], 0, LONG, true) == [TWO, FOUR][0 := LONG] == [LONG, FOUR];
  }

  lemma BadHandUp()
    ensures Receive(State(0, 1024, [LONG, FOUR]), 0, [0, 1], [], true) == (State(5, 1019, [FOUR]), [0, 1, 2, 3, 4])
  {
    var st := State(0, 1024, [LONG, FOUR]);
    var s := Segment(0, 2, [0, 1]);
    assert Trimmed(st, 0, [0, 1], []) == s;
    assert Drain(State(5, 1019, [FOUR])) == (State(5, 1019, [FOUR]), []);
    assert [LONG, FOUR][1..] == [FOUR] && [2, 3, 4] + [] == [2, 3, 4];
    assert Drain(State(2, 1022, [LONG, FOUR])) == (State(5, 1019, [FOUR]), [2, 3, 4]);
    assert TrimEnd(s, Wrap16(LONG.seqno - s.seqno)) == s;
    assert [0, 1] + [2, 3, 4] == [0, 1, 2, 3, 4];
    assert HandUp(st, s) == (State(5, 1019, [FOUR]), [0, 1, 2, 3, 4]);
    ReceiveCases(st, 0, [0, 1], [], true);
  }

  lemma BadTrim()
    ensures Receive(State(5, 1019, [FOUR]), 5, [5], [], true) == (State(65540, 0, [FOUR]), [5])
  {
    var st := State(5, 1019, [FOUR]);
    var s := Segment(5, 1, [5]);
    assert Trimmed(st, 5, [5], []) == s;
    assert TrimEnd(s, Wrap16(FOUR.seqno - s.seqno)) == Segment(5, 65535, [5]);
    assert Drain(State(65540, 0, [FOUR])) == (State(65540, 0, [FOUR]), []);
    assert [5] + [] == [5];
    assert HandUp(st, s) == (State(65540, 0, [FOUR]), [5]);
    ReceiveCases(st, 5, [5], [], true);
  }

  lemma BadRunIsTrue(i: nat)
    requires i < |BAD_RUN|
    ensures BAD_RUN[i].Arrival? && R.IsSlice(R.Piece(BAD_RUN[i].at, BAD_RUN[i].data), [0, 1, 2, 3, 4, 5])
  {
    var stream: seq<byte> := [0, 1, 2, 3, 4, 5];
    assert stream[2..3] == [2] && stream[4..5] == [4] && stream[2..5] == [2, 3, 4] && stream[0..2] == [0, 1] &&
      stream[5..6] == [5];
  }

  /** Five true slices of the stream 0, 1, 2, ... after which rcv_nxt is 65534 bytes ahead of what was delivered. */
  lemma OverrunLosesSync()
    ensures var (st, ups) := Run(State(0, 1024, []), 0, BAD_RUN);
            Flatten(ups) == [0, 1, 2, 3, 4, 5] && st.rcvNxt == 65540
  {
    BadQueue();
    BadHandUp();
    BadTrim();
    hide Receive, Run, Flatten;
    RunUnfold(State(0, 1024, []), 0, BAD_RUN);
    RunUnfold(State(0, 1024, [TWO]), 0, BAD_RUN[1..]);
    RunUnfold(State(0, 1024, [TWO, FOUR]), 0, BAD_RUN[2..]);
    RunUnfold(State(0, 1024, [LONG, FOUR]), 0, BAD_RUN[3..]);
    RunUnfold(State(5, 1019, [FOUR]), 0, BAD_RUN[4..]);
    RunNil(State(65540, 0, [FOUR]), 0);
    assert BAD_RUN[1..][1..] == BAD_RUN[2..] && BAD_RUN[2..][1..] == BAD_RUN[3..];
    assert BAD_RUN[3..][1..] == BAD_RUN[4..] && BAD_RUN[4..][1..] == [];
    assert [0, 1, 2, 3, 4] + ([5] + []) == [0, 1, 2, 3, 4, 5];
  }

  lemma RunNil(st: State, base: int)
    ensures Run(st, base, []) == (st, []) && Flatten([]) == []
  {
  }

  lemma RunUnfold(st: State, base: int, evs: seq<Event>)
    requires evs != []
    ensures var (st1, up) := Step(st, base, evs[0]);
            var (st2, ups) := Run(st1, base, evs[1..]);
            Run(st, base, evs) == (st2, [up] + ups) && Flatten([up] + ups) == up + Flatten(ups)
  {
    var (st1, up) := Step(st, base, evs[0]);
    FlattenCons(up, Run(st1, base, evs[1..]).1);
  }
}
