/** What each event does to every TCP PCB and to the order of the lists, and which segments reset a connection. */
module PcbChanges {
  import opened SeqNum
  import opened PcbLists
  import opened PcbStates
  import opened PcbRuns

  // ----- Resets

  /** The comparison that tcp_process() makes for a segment with RST. */
  predicate InWindow(seqno: u32, rcvNxt: u32, rcvWnd: u16) {
    SeqGeq(seqno, rcvNxt) && SeqLeq(seqno, Wrap(rcvNxt + rcvWnd))
  }

  /** It accepts the window of sequence numbers from rcv_nxt on, and the number one past it. */
  lemma InWindowMeans(seqno: u32, rcvNxt: u32, rcvWnd: u16)
    ensures InWindow(seqno, rcvNxt, rcvWnd) <==> Wrap(seqno - rcvNxt) <= rcvWnd
  {
    hide SeqLeq, SeqGeq, SeqLt, SeqGt;
    SeqGeqMeans(seqno, rcvNxt);
    SeqLeqMeans(seqno, Wrap(rcvNxt + rcvWnd));
    BeyondWindow(seqno, rcvNxt, rcvWnd);
  }

  lemma SeqGeqMeans(a: u32, b: u32)
    ensures SeqGeq(a, b) <==> Wrap(a - b) < TWO31
  {
  }

  lemma BeyondWindow(seqno: u32, rcvNxt: u32, rcvWnd: u16)
    ensures var d := Wrap(seqno - rcvNxt);
            Wrap(Wrap(rcvNxt + rcvWnd) - seqno) == if d <= rcvWnd then rcvWnd - d else TWO32 - (d - rcvWnd)
  {
  }

  /** A segment with RST takes away the PCB it is for if and only if that is no listener and the number fits; no other
      PCB goes, and none changes. */
  lemma ResetExactly(s: Stack, g: Segment, newId: Found, id: Id)
    requires Axioms(s) && Fresh(s, newId) && g.rst && Demux(s, g.t) == Found(id)
    ensures id in s.pcbs
    ensures Input(s, g, newId).pcbs == if ResetFits(s.pcbs[id].state, g) then s.pcbs - {id} else s.pcbs
  {
    hide Axioms, Demux, Without, AfterLookup, Lookup;
    DemuxIs(s, g.t);
    assert s.pcbs - {} == s.pcbs;
  }

  /** The same in numbers, for a PCB that has sent or received a SYN. */
  lemma ResetByNumber(s: Stack, g: Segment, newId: Found, id: Id, seqno: u32, ackno: u32, sndNxt: u32, rcvNxt: u32,
                      rcvWnd: u16)
    requires Axioms(s) && Fresh(s, newId) && g.rst && Demux(s, g.t) == Found(id)
    requires g.acksNext == (ackno == sndNxt) && g.inWindow == InWindow(seqno, rcvNxt, rcvWnd)
    ensures id in s.pcbs && id in Input(s, g, newId).pcbs <==>
            id in s.pcbs && match s.pcbs[id].state
                            case LISTEN => true
                            case SYN_SENT => ackno != sndNxt
                            case _ => Wrap(seqno - rcvNxt) > rcvWnd
  {
    hide Axioms, Demux, Input, InWindow, Wrap;
    ResetExactly(s, g, newId, id);
    InWindowMeans(seqno, rcvNxt, rcvWnd);
  }

  /** A segment for nobody changes nothing. */
  lemma ForNobody(s: Stack, g: Segment, newId: Found)
    requires Demux(s, g.t) == NotFound
    ensures Input(s, g, newId) == s
  {
  }

  // ----- New PCBs

  /** The event makes a PCB appear at a new address, and these are its fields. */
  predicate Creates(s: Stack, e: Event, id: Id, p: Pcb) {
    match e
    case Opened(k) => k == id && p == Pcb(CLOSED, 0, 0, 0, 0)
    case Listening(was, newId) => newId == Found(id) && was in s.pcbs && p == s.pcbs[was].(state := LISTEN)
    case Arrived(g, newId) =>
      && newId == Found(id) && g.syn && !g.ack && !g.rst
      && Demux(s, g.t).Found? && Demux(s, g.t).id in s.pcbs && s.pcbs[Demux(s, g.t).id].state == LISTEN
      && p == Pcb(SYN_RCVD, g.t.dest, g.t.destPort, g.t.src, g.t.srcPort)
    case _ => false
  }

  /** A PCB appears exactly when an event creates it. */
  lemma Appears(s: Stack, e: Event, id: Id, p: Pcb)
    requires Axioms(s) && Sane(s, e) && id !in s.pcbs
    ensures id in Step(s, e).pcbs && Step(s, e).pcbs[id] == p <==> Creates(s, e, id, p)
  {
    hide Axioms, Input, Demux, Sweep, Without, Lookup;
    match e
    case Arrived(g, newId) => InputCreates(s, g, newId, id, p);
    case Reclaimed(oldest) =>
    case _ =>
  }

  lemma InputCreates(s: Stack, g: Segment, newId: Found, id: Id, p: Pcb)
    requires Axioms(s) && Fresh(s, newId) && id !in s.pcbs
    ensures id in Input(s, g, newId).pcbs && Input(s, g, newId).pcbs[id] == p <==>
            Creates(s, Arrived(g, newId), id, p)
  {
    hide Axioms, Demux, Without, AfterLookup, Lookup;
    DemuxIs(s, g.t);
  }

  // ----- The others

  /** The PCB the event is about. */
  predicate Names(s: Stack, e: Event, id: Id) {
    match e
    case Bound(k, _, _) => k == id
    case Connecting(k, _, _, _, _, _) => k == id
    case Transmitted(k, _) => k == id
    case Closed(k, _) => k == id
    case Arrived(g, _) => Demux(s, g.t) == Found(id)
    case _ => false
  }

  /** The addresses and ports after the event: bound if nothing is in the way, connected, or routed for the first time;
      a local address stays once there is one. */
  ghost function KeyAfter(s: Stack, e: Event, p: Pcb): (u32, u16, u32, u16) {
    match e
    case Bound(_, ip, port) =>
      if forall k :: k in s.listen || k in s.active ==> k in s.pcbs && !InUse(s.pcbs[k], ip, port)
      then (if ip == 0 then p.localIp else ip, port, p.remoteIp, p.remotePort) else Key(p)
    case Connecting(_, port, ip, remotePort, sent, route) =>
      (if p.localIp == 0 && sent then route else p.localIp, port, ip, remotePort)
    case Transmitted(_, route) => (if p.localIp == 0 then route else p.localIp, p.localPort, p.remoteIp, p.remotePort)
    case _ => Key(p)
  }

  /** A PCB that stays is changed only by an event about it, and then its addresses and ports are those of KeyAfter. */
  lemma Stays(s: Stack, e: Event, id: Id)
    requires Axioms(s) && Sane(s, e) && id in s.pcbs && id in Step(s, e).pcbs
    ensures var p, p' := s.pcbs[id], Step(s, e).pcbs[id];
            if Names(s, e, id) then Key(p') == KeyAfter(s, e, p) else p' == p
  {
    hide Axioms, Input, Demux, Sweep, Without, Lookup, BindOk;
    match e
    case Arrived(g, newId) => InputStays(s, g, newId, id);
    case Bound(_, ip, port) =>
      BindExactly(s, ip, port);
      ListedExist(s);
    case _ =>
  }

  lemma ListedExist(s: Stack)
    requires Axioms(s)
    ensures forall k :: k in s.listen || k in s.active ==> k in s.pcbs
  {
  }

  lemma InputStays(s: Stack, g: Segment, newId: Found, id: Id)
    requires Axioms(s) && Fresh(s, newId) && id in s.pcbs && id in Input(s, g, newId).pcbs
    ensures var p, p' := s.pcbs[id], Input(s, g, newId).pcbs[id];
            if Demux(s, g.t) == Found(id) then Key(p') == Key(p) else p' == p
  {
    hide Axioms, Demux, Without, AfterLookup, Lookup;
    DemuxIs(s, g.t);
  }

  /** tcp_close() before a connection is synchronised: it frees a listener and an unanswered connection, starts to close
      one that has answered, and leaves a PCB that was never used, and its memory, where it is. */
  lemma CloseEarly(s: Stack, id: Id, sent: bool)
    requires Axioms(s) && id in s.pcbs && !Synchronised(s.pcbs[id].state)
    ensures var s' := Close(s, id, sent);
            match s.pcbs[id].state
            case CLOSED => s' == s
            case SYN_RCVD => if sent then s' == SetState(s, id, FIN_WAIT_1) else s' == s
            case _ => s'.pcbs == s.pcbs - {id}
  {
  }

  // ----- The order of the lists

  /** TCP_RMV takes out the first occurrence and leaves the rest as it was. */
  lemma {:induction false} WithoutExactly(a: seq<Id>, id: Id, b: seq<Id>)
    requires id !in a
    ensures Without(a + [id] + b, id) == a + b
    decreases |a|
  {
    hide Without;
    var q := a + [id] + b;
    WithoutCons(q, id);
    if a == [] {
      assert q == [id] + b && q[1..] == b && a + b == b;
    } else {
      assert q[0] == a[0] && q[1..] == a[1..] + [id] + b;
      WithoutExactly(a[1..], id, b);
      assert [a[0]] + (a[1..] + b) == a + b;
    }
  }

  lemma {:induction false} WithoutNone(q: seq<Id>, id: Id)
    requires id !in q
    ensures Without(q, id) == q
    decreases |q|
  {
    hide Without;
    WithoutCons(q, id);
    if q != [] {
      WithoutNone(q[1..], id);
    }
  }

  lemma SweepFirst(q: seq<Id>, expired: set<Id>)
    ensures q == [] ==> Sweep(q, expired) == []
    ensures q != [] ==> Sweep(q, expired) == (if q[0] in expired then [] else [q[0]]) + Sweep(q[1..], expired)
  {
  }

  /** The slow timer decides each PCB by itself and leaves the rest of the list as it was. */
  lemma {:induction false} SweepConcat(a: seq<Id>, b: seq<Id>, expired: set<Id>)
    ensures Sweep(a + b, expired) == Sweep(a, expired) + Sweep(b, expired)
    ensures |a| == 1 ==> Sweep(a, expired) == if a[0] in expired then [] else a
    decreases |a|
  {
    hide Sweep;
    SweepFirst(a, expired);
    if a == [] {
      assert [] + b == b;
    } else {
      SweepFirst(a + b, expired);
      assert (a + b)[0] == a[0] && (a + b)[1..] == a[1..] + b;
      SweepConcat(a[1..], b, expired);
      SweepFirst(a[1..], expired);
    }
  }

  /** Moving to the front is removing and putting in front. */
  lemma ToFrontExactly(q: seq<Id>, f: Id -> bool)
    ensures Lookup(q, f) == NotFound ==> AfterLookup(q, f) == q
    ensures Lookup(q, f).Found? ==> AfterLookup(q, f) == [Lookup(q, f).id] + Without(q, Lookup(q, f).id)
  {
    hide Without;
    var i := Index(q, f);
    if i < |q| {
      assert q == q[..i] + [q[i]] + q[i + 1..];
      WithoutExactly(q[..i], q[i], q[i + 1..]);
      assert [q[i]] + q[..i] + q[i + 1..] == [q[i]] + (q[..i] + q[i + 1..]);
    }
  }

  /** The PCB a segment is for is afterwards the first of its list, unless it is in TIME-WAIT; the other PCBs, and the
      other lists, keep their order. */
  lemma FoundInFront(s: Stack, t: Tuple)
    requires Axioms(s)
    ensures var d, s' := Demux(s, t), Reordered(s, t);
            && s'.tw == s.tw && s'.pcbs == s.pcbs
            && s'.active == (if d.Found? && d.id in s.active then [d.id] + Without(s.active, d.id) else s.active)
            && s'.listen == (if d.Found? && d.id in s.listen then [d.id] + Without(s.listen, d.id) else s.listen)
  {
    hide AfterLookup, Lookup, Without, Axioms;
    ToFrontExactly(s.active, ActiveTest(s.pcbs, t));
    ToFrontExactly(s.listen, ListenTest(s.pcbs, t));
    NotFoundIs(s.active, ActiveTest(s.pcbs, t));
    NotFoundIs(s.tw, ActiveTest(s.pcbs, t));
    NotFoundIs(s.listen, ListenTest(s.pcbs, t));
    if Demux(s, t).Found? {
      InLists(s, Demux(s, t).id);
    }
  }

  /** q' is q with some PCBs taken out and at most one put in front. */
  ghost predicate PutInFront(q: seq<Id>, q': seq<Id>, id: Id) {
    id in q' && id !in q ==> q'[0] == id
  }

  /** A PCB that is new to a list comes first. */
  lemma NewestFirst(s: Stack, e: Event, id: Id)
    requires Axioms(s) && Sane(s, e)
    ensures var s' := Step(s, e);
            PutInFront(s.listen, s'.listen, id) && PutInFront(s.active, s'.active, id) && PutInFront(s.tw, s'.tw, id)
  {
    hide Axioms, Input, Demux, Sweep, Without, Lookup;
    match e
    case Arrived(g, newId) => InputFront(s, g, newId, id);
    case Reclaimed(oldest) =>
      OnlyFewer(s.active, id, if oldest.Found? then oldest.id else 0);
      OnlyFewer(s.listen, id, if oldest.Found? then oldest.id else 0);
      OnlyFewer(s.tw, id, if oldest.Found? then oldest.id else 0);
    case Closed(k, _) =>
      OnlyFewer(s.active, id, k);
      OnlyFewer(s.listen, id, k);
    case Aborted(k) =>
      OnlyFewer(s.active, id, k);
      OnlyFewer(s.listen, id, k);
      OnlyFewer(s.tw, id, k);
    case Ticked(expired) =>
      StillThere(s.active, expired, id);
      StillThere(s.tw, expired, id);
    case _ =>
  }

  lemma OnlyFewer(q: seq<Id>, id: Id, k: Id)
    ensures id in Without(q, k) ==> id in q
  {
    WithoutIs(q, k);
    assert id in Without(q, k) <==> multiset(Without(q, k))[id] > 0;
    assert id in q <==> multiset(q)[id] > 0;
  }

  lemma StillThere(q: seq<Id>, expired: set<Id>, id: Id)
    ensures id in Sweep(q, expired) ==> id in q
  {
    SweepIs(q, expired, id);
    assert id in Sweep(q, expired) <==> multiset(Sweep(q, expired))[id] > 0;
    assert id in q <==> multiset(q)[id] > 0;
  }

  lemma InputFront(s: Stack, g: Segment, newId: Found, id: Id)
    requires Axioms(s) && Fresh(s, newId)
    ensures var s' := Input(s, g, newId);
            PutInFront(s.listen, s'.listen, id) && PutInFront(s.active, s'.active, id) && PutInFront(s.tw, s'.tw, id)
  {
    hide Axioms, Demux, Lookup, AfterLookup, Without, Process, Reordered, Apply, PutInFront;
    DemuxIs(s, g.t);
    FoundInFront(s, g.t);
    var r := Reordered(s, g.t);
    if Demux(s, g.t).Found? {
      var k := Demux(s, g.t).id;
      ApplyFront(r, k, Process(s.pcbs[k].state, g), g.t, newId, id);
      FrontStays(s.active, r.active, Apply(r, k, Process(s.pcbs[k].state, g), g.t, newId).active, k, id);
      FrontStays(s.listen, r.listen, Apply(r, k, Process(s.pcbs[k].state, g), g.t, newId).listen, k, id);
    } else {
      SameFront(s.listen, id);
      SameFront(s.active, id);
      SameFront(s.tw, id);
    }
  }

  lemma SameFront(q: seq<Id>, id: Id)
    ensures PutInFront(q, q, id)
  {
  }

  lemma FrontStays(q: seq<Id>, r: seq<Id>, r': seq<Id>, k: Id, id: Id)
    requires r == q || (k in q && r == [k] + Without(q, k))
    requires PutInFront(r, r', id)
    ensures PutInFront(q, r', id)
  {
    hide Without;
    OnlyFewer(q, id, k);
  }

  lemma ApplyFront(s: Stack, k: Id, v: Verdict, t: Tuple, newId: Found, id: Id)
    requires k in s.pcbs
    ensures var s' := Apply(s, k, v, t, newId);
            PutInFront(s.listen, s'.listen, id) && PutInFront(s.active, s'.active, id) && PutInFront(s.tw, s'.tw, id)
  {
    hide Without;
    OnlyFewer(s.active, id, k);
    OnlyFewer(s.tw, id, k);
  }

  // ----- Listeners

  /** Two listeners conflict exactly when some segment is for both; and tcp_bind() finds a PCB in the way exactly when
      the two would conflict. */
  lemma ConflictMeans(p: Pcb, r: Pcb)
    ensures Conflict(p, r) <==> exists t :: ListenMatch(p, t) && ListenMatch(r, t)
    ensures Conflict(p, r) <==> InUse(p, r.localIp, r.localPort)
  {
    if Conflict(p, r) {
      var t := Tuple(0, 0, if p.localIp == 0 then r.localIp else p.localIp, p.localPort);
      assert ListenMatch(p, t) && ListenMatch(r, t);
    }
  }
}
