/** A reachable run of SW_stub/lwtcp after which two connections have the same addresses and ports: tcp_bind() and
    tcp_connect() do not look at PCBs in TIME-WAIT. */
module PcbReuse {
  import opened SeqNum
  import opened PcbLists
  import opened PcbStates
  import opened PcbRuns

  /** Host 7 port 80 and host 9 port 5000. */
  const FROM_PEER := Tuple(9, 5000, 7, 80)
  const BLANK := Segment(FROM_PEER, false, false, false, false, false, false, false, false)
  const SYN := BLANK.(syn := true)
  const ACK := BLANK.(ack := true, acksNew := true)
  const FIN_ACK := BLANK.(fin := true, ack := true, acksNext := true)

  function Peer(state: State): Pcb {
    Pcb(state, 7, 80, 9, 5000)
  }

  function Listener(): Pcb {
    Pcb(LISTEN, 0, 80, 0, 0)
  }

  lemma LookupIn(id: Id, f: Id -> bool)
    ensures Lookup([], f) == NotFound && AfterLookup([], f) == []
    ensures f(id) ==> Lookup([id], f) == Found(id) && AfterLookup([id], f) == [id]
    ensures !f(id) ==> Lookup([id], f) == NotFound
  {
    if f(id) {
      IndexIs([id], f, 0);
    } else {
      IndexIs([id], f, 1);
    }
  }

  lemma SynArrives(s: Stack)
    requires s == Stack([2], [], [], map[2 := Listener()])
    ensures Sane(s, Arrived(SYN, Found(3)))
    ensures Step(s, Arrived(SYN, Found(3))) == Stack([2], [3], [], map[2 := Listener(), 3 := Peer(SYN_RCVD)])
  {
    hide Lookup, AfterLookup;
    LookupIn(2, ActiveTest(s.pcbs, FROM_PEER));
    LookupIn(2, ListenTest(s.pcbs, FROM_PEER));
    assert [3] + [] == [3];
  }

  lemma AckArrives(s: Stack)
    requires s == Stack([2], [3], [], map[2 := Listener(), 3 := Peer(SYN_RCVD)])
    ensures Sane(s, Arrived(ACK, NotFound))
    ensures Step(s, Arrived(ACK, NotFound)) == Stack([2], [3], [], map[2 := Listener(), 3 := Peer(ESTABLISHED)])
  {
    hide Lookup, AfterLookup;
    LookupIn(3, ActiveTest(s.pcbs, FROM_PEER));
  }

  lemma FinArrives(s: Stack)
    requires s == Stack([2], [3], [], map[2 := Listener(), 3 := Peer(FIN_WAIT_1)])
    ensures Sane(s, Arrived(FIN_ACK, NotFound))
    ensures Step(s, Arrived(FIN_ACK, NotFound)) == Stack([2], [], [3], map[2 := Listener(), 3 := Peer(TIME_WAIT)])
  {
    hide Lookup, AfterLookup;
    LookupIn(3, ActiveTest(s.pcbs, FROM_PEER));
    assert Without([3], 3) == [] && [3] + [] == [3];
  }

  /** A listener accepts a connection and the server closes it. */
  lemma Served(s: Stack)
    requires s == Stack([2], [], [], map[2 := Listener()])
    ensures var es := [Arrived(SYN, Found(3)), Arrived(ACK, NotFound), Closed(3, true), Arrived(FIN_ACK, NotFound)];
            SaneRun(s, es) && Run(s, es) == Stack([2], [], [3], map[2 := Listener(), 3 := Peer(TIME_WAIT)])
  {
    hide Run, SaneRun, Input;
    var e1, e2, e3, e4 := Arrived(SYN, Found(3)), Arrived(ACK, NotFound), Closed(3, true), Arrived(FIN_ACK, NotFound);
    SynArrives(s);
    var s1 := Step(s, e1);
    AckArrives(s1);
    var s2 := Step(s1, e2);
    var s3 := Step(s2, e3);
    assert s3 == Stack([2], [3], [], map[2 := Listener(), 3 := Peer(FIN_WAIT_1)]);
    FinArrives(s3);
    RunNil(Step(s3, e4));
    RunCons(s3, e4, []);
    assert [e4] + [] == [e4];
    RunCons(s2, e3, [e4]);
    assert [e3] + [e4] == [e3, e4];
    RunCons(s1, e2, [e3, e4]);
    assert [e2] + [e3, e4] == [e2, e3, e4];
    RunCons(s, e1, [e2, e3, e4]);
    assert [e1] + [e2, e3, e4] == [e1, e2, e3, e4];
  }

  /** The listener is closed, and a new PCB binds to its port: the connection in TIME-WAIT is not in the way. */
  lemma Rebound(s: Stack)
    requires s == Stack([2], [], [3], map[2 := Listener(), 3 := Peer(TIME_WAIT)])
    ensures var es := [Closed(2, false), Opened(4), Bound(4, 0, 80)];
            && SaneRun(s, es)
            && Run(s, es) == Stack([], [], [3], map[3 := Peer(TIME_WAIT), 4 := Pcb(CLOSED, 0, 80, 0, 0)])
  {
    hide Run, SaneRun, Bind;
    var e1, e2, e3 := Closed(2, false), Opened(4), Bound(4, 0, 80);
    var s1, s2 := Step(s, e1), Step(Step(s, e1), e2);
    assert Without([2], 2) == [];
    assert s1 == Stack([], [], [3], map[3 := Peer(TIME_WAIT)]);
    BindAlone(s2, 4, 0, 80);
    assert Step(s2, e3).pcbs == map[3 := Peer(TIME_WAIT), 4 := Pcb(CLOSED, 0, 80, 0, 0)];
    RunNil(Step(s2, e3));
    RunCons(s2, e3, []);
    assert [e3] + [] == [e3];
    RunCons(s1, e2, [e3]);
    assert [e2] + [e3] == [e2, e3];
    RunCons(s, e1, [e2, e3]);
    assert [e1] + [e2, e3] == [e1, e2, e3];
  }

  lemma Listened()
    ensures var es := [Opened(1), Bound(1, 0, 80), Listening(1, Found(2))];
            SaneRun(EMPTY, es) && Run(EMPTY, es) == Stack([2], [], [], map[2 := Listener()])
  {
    hide Run, SaneRun, Bind;
    var e1, e2, e3 := Opened(1), Bound(1, 0, 80), Listening(1, Found(2));
    var s1 := Step(EMPTY, e1);
    BindAlone(s1, 1, 0, 80);
    var s2 := Step(s1, e2);
    assert [2] + [] == [2];
    assert Step(s2, e3) == Stack([2], [], [], map[2 := Listener()]);
    RunNil(Step(s2, e3));
    RunCons(s2, e3, []);
    assert [e3] + [] == [e3];
    RunCons(s1, e2, [e3]);
    assert [e2] + [e3] == [e2, e3];
    RunCons(EMPTY, e1, [e2, e3]);
    assert [e1] + [e2, e3] == [e1, e2, e3];
  }

  lemma {:induction false} RunBoth(s: Stack, a: seq<Event>, b: seq<Event>)
    requires SaneRun(s, a) && SaneRun(Run(s, a), b)
    ensures SaneRun(s, a + b) && Run(s, a + b) == Run(Run(s, a), b)
    decreases |a|
  {
    hide Sane, Step, Duplicates;
    if a == [] {
      assert a + b == b;
    } else {
      assert (a + b)[1..] == a[1..] + b;
      RunBoth(Step(s, a[0]), a[1..], b);
    }
  }

  /** From tcp_init() on: a server closes a connection and its listener, binds a new PCB to the same port and connects
      it to the same peer. tcp_bind() and tcp_connect() raise no objection, the list axioms still hold, and two PCBs
      have the addresses and ports of one connection: its segments reach the new PCB, and the one in TIME-WAIT no
      longer. */
  lemma TimeWaitReused() returns (es: seq<Event>)
    ensures var e := Connecting(4, 80, 9, 5000, true, 7);
            && SaneRun(EMPTY, es)
            && var s := Run(EMPTY, es);
            && Axioms(s) && Unique(s) && Demux(s, FROM_PEER) == Found(3)
            && Sane(s, e) && Duplicates(s, e)
            && var s' := Step(s, e);
            && Axioms(s') && !Unique(s') && Connected(s', 3) && ActiveMatch(s'.pcbs[3], FROM_PEER)
            && Demux(s', FROM_PEER) == Found(4)
  {
    hide Run, SaneRun;
    var a := [Opened(1), Bound(1, 0, 80), Listening(1, Found(2))];
    var b := [Arrived(SYN, Found(3)), Arrived(ACK, NotFound), Closed(3, true), Arrived(FIN_ACK, NotFound)];
    var c := [Closed(2, false), Opened(4), Bound(4, 0, 80)];
    Listened();
    Served(Run(EMPTY, a));
    RunBoth(EMPTY, a, b);
    Rebound(Run(EMPTY, a + b));
    RunBoth(EMPTY, a + b, c);
    es := a + b + c;
    Reconnected(Run(EMPTY, es));
  }

  lemma Reconnected(s: Stack)
    requires s == Stack([], [], [3], map[3 := Peer(TIME_WAIT), 4 := Pcb(CLOSED, 0, 80, 0, 0)])
    ensures var e := Connecting(4, 80, 9, 5000, true, 7);
            && Axioms(s) && Unique(s) && Demux(s, FROM_PEER) == Found(3)
            && Sane(s, e) && Duplicates(s, e)
            && var s' := Step(s, e);
            && Axioms(s') && !Unique(s') && Connected(s', 3) && ActiveMatch(s'.pcbs[3], FROM_PEER)
            && Demux(s', FROM_PEER) == Found(4)
  {
    hide Lookup, Axioms, Unique;
    var e := Connecting(4, 80, 9, 5000, true, 7);
    OnlyTimeWait(s);
    var s' := Step(s, e);
    assert [4] + [] == [4];
    LookupIn(3, ActiveTest(s.pcbs, FROM_PEER));
    LookupIn(4, ActiveTest(s'.pcbs, FROM_PEER));
    assert Connected(s, 3) && Key(s.pcbs[3]) == NewKey(s.pcbs[4], e);
    ConnectKeepsUnique(s, e);
    ConnectKeeps(s, 4, 80, 9, 5000, true, 7);
  }

  lemma OnlyTimeWait(s: Stack)
    requires s == Stack([], [], [3], map[3 := Peer(TIME_WAIT), 4 := Pcb(CLOSED, 0, 80, 0, 0)])
    ensures Axioms(s) && Unique(s)
  {
    assert forall id :: Connected(s, id) ==> id == 3;
    forall id ensures Placed(s, id) {
    }
    AxiomsIffPlaced(s);
  }
}
