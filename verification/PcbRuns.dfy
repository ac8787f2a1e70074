/** What every run of TCP PCB operations keeps: the list axioms of SW_stub/lwtcp/lwip/tcp.h, one PCB per connection, and
    the state diagram of RFC 793 section 3.2. */
module PcbRuns {
  import opened SeqNum
  import opened PcbLists
  import opened PcbStates

  datatype Event =
    | Opened(id: Id)
    | Bound(id: Id, ip: u32, port: u16)
    | Listening(id: Id, newId: Found)
    | Connecting(id: Id, port: u16, ip: u32, remotePort: u16, sent: bool, route: u32)
    | Transmitted(id: Id, route: u32)
    | Closed(id: Id, sent: bool)
    | Aborted(id: Id)
    | Reclaimed(oldest: Found)
    | Arrived(g: Segment, newId: Found)
    | Ticked(expired: set<Id>)

  predicate Fresh(s: Stack, newId: Found) {
    newId.Found? ==> newId.id !in s.pcbs
  }

  /** Applications name PCBs that exist, and bind, listen and connect only on new ones; the pools hand out blocks that
      are not in use; and only active PCBs have something to send. */
  predicate Sane(s: Stack, e: Event) {
    match e
    case Opened(id) => id !in s.pcbs
    case Bound(id, _, _) => id in s.pcbs && s.pcbs[id].state == CLOSED
    case Listening(id, newId) => id in s.pcbs && s.pcbs[id].state == CLOSED && newId.Found? && Fresh(s, newId)
    case Connecting(id, _, _, _, _, _) => id in s.pcbs && s.pcbs[id].state == CLOSED
    case Transmitted(id, _) => id in s.pcbs && IsActive(s.pcbs[id].state)
    case Closed(id, _) => id in s.pcbs
    case Aborted(id) => id in s.pcbs
    case Reclaimed(_) => true
    case Arrived(_, newId) => Fresh(s, newId)
    case Ticked(_) => true
  }

  function Step(s: Stack, e: Event): Stack
    requires Sane(s, e)
  {
    match e
    case Opened(id) => New(s, id)
    case Bound(id, ip, port) => Bind(s, id, ip, port)
    case Listening(id, newId) => Listen(s, id, newId)
    case Connecting(id, port, ip, remotePort, sent, route) => Connect(s, id, port, ip, remotePort, sent, route)
    case Transmitted(id, route) => Output(s, id, route)
    case Closed(id, sent) => Close(s, id, sent)
    case Aborted(id) => Abort(s, id)
    case Reclaimed(oldest) => Reclaim(s, oldest)
    case Arrived(g, newId) => Input(s, g, newId)
    case Ticked(expired) => Tick(s, expired)
  }

  // ----- The axioms

  lemma FrontIs(q: seq<Id>, id: Id)
    ensures multiset([id] + q) == multiset(q) + multiset{id}
  {
  }

  /** The axioms do not depend on the order within a list. */
  lemma SameMembers(s: Stack, s': Stack)
    requires Axioms(s) && s'.pcbs == s.pcbs && multiset(s'.listen) == multiset(s.listen)
    requires multiset(s'.active) == multiset(s.active) && multiset(s'.tw) == multiset(s.tw)
    ensures Axioms(s')
  {
    hide Axioms;
    AxiomsIffPlaced(s);
    forall id ensures Placed(s', id) {
      assert Placed(s, id);
    }
    AxiomsIffPlaced(s');
  }

  /** Changing the record of a PCB, but not between list states, changes nothing. */
  lemma SetStateKeeps(s: Stack, id: Id, state: State)
    requires Axioms(s) && id in s.pcbs && IsActive(s.pcbs[id].state) && IsActive(state)
    ensures Axioms(SetState(s, id, state))
  {
    hide Axioms;
    AxiomsIffPlaced(s);
    forall k ensures Placed(SetState(s, id, state), k) {
      assert Placed(s, k);
    }
    AxiomsIffPlaced(SetState(s, id, state));
  }

  lemma DropActiveKeeps(s: Stack, id: Id)
    requires Axioms(s) && id in s.pcbs && s.pcbs[id].state != LISTEN && s.pcbs[id].state != TIME_WAIT
    ensures Axioms(DropActive(s, id))
  {
    hide Axioms;
    AxiomsIffPlaced(s);
    WithoutIs(s.active, id);
    forall k ensures Placed(DropActive(s, id), k) {
      assert Placed(s, k);
    }
    AxiomsIffPlaced(DropActive(s, id));
  }

  lemma DropTwKeeps(s: Stack, id: Id)
    requires Axioms(s) && id in s.pcbs && s.pcbs[id].state == TIME_WAIT
    ensures Axioms(DropTw(s, id))
  {
    hide Axioms;
    AxiomsIffPlaced(s);
    WithoutIs(s.tw, id);
    forall k ensures Placed(DropTw(s, id), k) {
      assert Placed(s, k);
    }
    AxiomsIffPlaced(DropTw(s, id));
  }

  lemma DropListenKeeps(s: Stack, id: Id)
    requires Axioms(s) && id in s.pcbs && s.pcbs[id].state == LISTEN
    ensures Axioms(DropListen(s, id))
  {
    hide Axioms;
    AxiomsIffPlaced(s);
    WithoutIs(s.listen, id);
    forall k ensures Placed(DropListen(s, id), k) {
      assert Placed(s, k);
    }
    AxiomsIffPlaced(DropListen(s, id));
  }

  lemma ToTimeWaitKeeps(s: Stack, id: Id)
    requires Axioms(s) && id in s.pcbs && IsActive(s.pcbs[id].state)
    ensures Axioms(SetState(s.(active := Without(s.active, id), tw := [id] + s.tw), id, TIME_WAIT))
  {
    hide Axioms;
    AxiomsIffPlaced(s);
    WithoutIs(s.active, id);
    FrontIs(s.tw, id);
    var s' := SetState(s.(active := Without(s.active, id), tw := [id] + s.tw), id, TIME_WAIT);
    forall k ensures Placed(s', k) {
      assert Placed(s, k);
    }
    AxiomsIffPlaced(s');
  }

  lemma SpawnKeeps(s: Stack, id: Id, p: Pcb)
    requires Axioms(s) && id !in s.pcbs && IsActive(p.state)
    ensures Axioms(s.(active := [id] + s.active, pcbs := s.pcbs[id := p]))
  {
    hide Axioms;
    AxiomsIffPlaced(s);
    FrontIs(s.active, id);
    var s' := s.(active := [id] + s.active, pcbs := s.pcbs[id := p]);
    forall k ensures Placed(s', k) {
      assert Placed(s, k);
    }
    AxiomsIffPlaced(s');
  }

  /** tcp_connect() keeps the axioms exactly when it is called on a PCB in CLOSED. */
  lemma ConnectKeeps(s: Stack, id: Id, port: u16, ip: u32, remotePort: u16, sent: bool, route: u32)
    requires Axioms(s) && id in s.pcbs
    ensures Axioms(Connect(s, id, port, ip, remotePort, sent, route)) <==> s.pcbs[id].state == CLOSED
  {
    hide Axioms;
    AxiomsIffPlaced(s);
    FrontIs(s.active, id);
    var s' := Connect(s, id, port, ip, remotePort, sent, route);
    AxiomsIffPlaced(s');
    assert Placed(s, id);
    if s.pcbs[id].state == CLOSED {
      forall k ensures Placed(s', k) {
        assert Placed(s, k);
      }
    } else {
      assert !Placed(s', id);
    }
  }

  /** tcp_listen() keeps the axioms exactly when it gets its block for a PCB in CLOSED, or gets none for a PCB that was
      listening already. */
  lemma ListenKeeps(s: Stack, id: Id, newId: Found)
    requires Axioms(s) && id in s.pcbs && Fresh(s, newId)
    ensures Axioms(Listen(s, id, newId)) <==> s.pcbs[id].state == if newId.Found? then CLOSED else LISTEN
  {
    hide Axioms;
    AxiomsIffPlaced(s);
    var s' := Listen(s, id, newId);
    AxiomsIffPlaced(s');
    assert Placed(s, id);
    if newId.Found? {
      FrontIs(s.listen, newId.id);
      assert Placed(s, newId.id);
    }
    if s.pcbs[id].state == if newId.Found? then CLOSED else LISTEN {
      forall k ensures Placed(s', k) {
        assert Placed(s, k);
      }
    } else {
      assert !Placed(s', id);
    }
  }

  lemma NewKeeps(s: Stack, id: Id)
    requires Axioms(s) && id !in s.pcbs
    ensures Axioms(New(s, id))
  {
    hide Axioms;
    AxiomsIffPlaced(s);
    forall k ensures Placed(New(s, id), k) {
      assert Placed(s, k);
    }
    AxiomsIffPlaced(New(s, id));
  }

  lemma BindKeeps(s: Stack, id: Id, ip: u32, port: u16)
    requires Axioms(s) && id in s.pcbs
    ensures Axioms(Bind(s, id, ip, port))
  {
    hide Axioms;
    AxiomsIffPlaced(s);
    forall k ensures Placed(Bind(s, id, ip, port), k) {
      assert Placed(s, k);
    }
    AxiomsIffPlaced(Bind(s, id, ip, port));
  }

  lemma OutputKeeps(s: Stack, id: Id, route: u32)
    requires Axioms(s) && id in s.pcbs
    ensures Axioms(Output(s, id, route))
  {
    hide Axioms;
    AxiomsIffPlaced(s);
    forall k ensures Placed(Output(s, id, route), k) {
      assert Placed(s, k);
    }
    AxiomsIffPlaced(Output(s, id, route));
  }

  lemma TickPlaced(s: Stack, expired: set<Id>, k: Id)
    requires Placed(s, k)
    ensures Placed(Tick(s, expired), k)
  {
    hide Sweep;
    SweepIs(s.active, expired, k);
    SweepIs(s.tw, expired, k);
    assert k in s.active <==> multiset(s.active)[k] > 0;
    assert k in s.tw <==> multiset(s.tw)[k] > 0;
  }

  lemma TickKeeps(s: Stack, expired: set<Id>)
    requires Axioms(s)
    ensures Axioms(Tick(s, expired))
  {
    hide Axioms, Placed, Tick;
    AxiomsIffPlaced(s);
    forall k ensures Placed(Tick(s, expired), k) {
      TickPlaced(s, expired, k);
    }
    AxiomsIffPlaced(Tick(s, expired));
  }

  lemma ReclaimKeeps(s: Stack, oldest: Found)
    requires Axioms(s)
    ensures Axioms(Reclaim(s, oldest))
  {
    if s.tw != [] {
      assert s.tw[0] in s.tw;
      DropTwKeeps(s, s.tw[0]);
    } else if oldest.Found? && oldest.id in s.active {
      DropActiveKeeps(s, oldest.id);
    }
  }

  lemma CloseKeeps(s: Stack, id: Id, sent: bool)
    requires Axioms(s) && id in s.pcbs
    ensures Axioms(Close(s, id, sent))
  {
    hide Axioms, DropListen, DropActive, SetState;
    match s.pcbs[id].state
    case LISTEN => DropListenKeeps(s, id);
    case SYN_SENT => DropActiveKeeps(s, id);
    case SYN_RCVD => SetStateKeeps(s, id, FIN_WAIT_1);
    case ESTABLISHED => SetStateKeeps(s, id, FIN_WAIT_1);
    case CLOSE_WAIT => SetStateKeeps(s, id, LAST_ACK);
    case _ =>
  }

  lemma AbortKeeps(s: Stack, id: Id)
    requires Axioms(s) && id in s.pcbs
    ensures Axioms(Abort(s, id))
  {
    hide Axioms, DropListen, DropActive, DropTw;
    match s.pcbs[id].state
    case TIME_WAIT => DropTwKeeps(s, id);
    case LISTEN => DropListenKeeps(s, id);
    case _ => DropActiveKeeps(s, id);
  }

  lemma AfterLookupIs(q: seq<Id>, f: Id -> bool)
    ensures multiset(AfterLookup(q, f)) == multiset(q)
  {
    if Index(q, f) < |q| {
      ToFrontIs(q, Index(q, f));
    }
  }

  lemma ReorderedKeeps(s: Stack, t: Tuple)
    requires Axioms(s)
    ensures Axioms(Reordered(s, t))
  {
    hide Axioms, AfterLookup, Lookup;
    AfterLookupIs(s.active, ActiveTest(s.pcbs, t));
    AfterLookupIs(s.listen, ListenTest(s.pcbs, t));
    SameMembers(s, Reordered(s, t));
  }

  /** What the lookup finds has the state of the list it was found in, and matches. */
  lemma DemuxIs(s: Stack, t: Tuple)
    requires Axioms(s)
    ensures var d := Demux(s, t);
            d.Found? ==>
              && d.id in s.pcbs && s.pcbs[d.id].state != CLOSED
              && (if s.pcbs[d.id].state == LISTEN then d.id in s.listen && ListenMatch(s.pcbs[d.id], t)
                  else (d.id in s.active || d.id in s.tw) && ActiveMatch(s.pcbs[d.id], t))
    ensures (Demux(s, t) == NotFound || s.pcbs[Demux(s, t).id].state == LISTEN) ==>
              forall id :: id in s.active || id in s.tw ==> !ActiveMatch(s.pcbs[id], t)
    ensures Demux(s, t) == NotFound ==> forall id :: id in s.listen ==> !ListenMatch(s.pcbs[id], t)
  {
    NotFoundIs(s.active, ActiveTest(s.pcbs, t));
    NotFoundIs(s.tw, ActiveTest(s.pcbs, t));
    NotFoundIs(s.listen, ListenTest(s.pcbs, t));
    if Lookup(s.active, ActiveTest(s.pcbs, t)) == NotFound && Lookup(s.tw, ActiveTest(s.pcbs, t)) == NotFound {
      forall id | id in s.active || id in s.tw ensures !ActiveMatch(s.pcbs[id], t) {
        assert !ActiveTest(s.pcbs, t)(id);
      }
    }
    if Lookup(s.listen, ListenTest(s.pcbs, t)) == NotFound {
      forall id | id in s.listen ensures !ListenMatch(s.pcbs[id], t) {
        assert !ListenTest(s.pcbs, t)(id);
      }
    }
  }

  lemma NotFoundIs(q: seq<Id>, f: Id -> bool)
    ensures Lookup(q, f) == NotFound ==> forall id :: id in q ==> !f(id)
    ensures Lookup(q, f).Found? ==> Lookup(q, f).id in q && f(Lookup(q, f).id)
  {
  }

  lemma ApplyKeeps(s: Stack, id: Id, g: Segment, newId: Found)
    requires Axioms(s) && id in s.pcbs && s.pcbs[id].state != CLOSED && Fresh(s, newId)
    ensures Axioms(Apply(s, id, Process(s.pcbs[id].state, g), g.t, newId))
  {
    hide Axioms, DropActive, DropTw, SetState;
    match Process(s.pcbs[id].state, g)
    case Stay =>
    case Reset =>
      if s.pcbs[id].state == TIME_WAIT {
        DropTwKeeps(s, id);
      } else {
        DropActiveKeeps(s, id);
      }
    case Go(TIME_WAIT) => ToTimeWaitKeeps(s, id);
    case Go(CLOSED) => DropActiveKeeps(s, id);
    case Go(state) => SetStateKeeps(s, id, state);
    case Spawn =>
      if newId.Found? {
        SpawnKeeps(s, newId.id, Child(s.pcbs[id], g.t));
      }
  }

  lemma InputKeeps(s: Stack, g: Segment, newId: Found)
    requires Axioms(s) && Fresh(s, newId)
    ensures Axioms(Input(s, g, newId))
  {
    hide Axioms, Demux, Apply, Process, AfterLookup, Lookup;
    DemuxIs(s, g.t);
    ReorderedKeeps(s, g.t);
    if Demux(s, g.t).Found? {
      ApplyKeeps(Reordered(s, g.t), Demux(s, g.t).id, g, newId);
    }
  }

  /** Every step keeps the axioms. */
  lemma StepKeeps(s: Stack, e: Event)
    requires Axioms(s) && Sane(s, e)
    ensures Axioms(Step(s, e))
  {
    hide Axioms, Input, Tick, Reclaim, Abort, Close, Connect, Output, Listen, Bind, New;
    match e
    case Opened(id) => NewKeeps(s, id);
    case Bound(id, ip, port) => BindKeeps(s, id, ip, port);
    case Listening(id, newId) => ListenKeeps(s, id, newId);
    case Connecting(id, port, ip, remotePort, sent, route) => ConnectKeeps(s, id, port, ip, remotePort, sent, route);
    case Transmitted(id, route) => OutputKeeps(s, id, route);
    case Closed(id, sent) => CloseKeeps(s, id, sent);
    case Aborted(id) => AbortKeeps(s, id);
    case Reclaimed(oldest) => ReclaimKeeps(s, oldest);
    case Arrived(g, newId) => InputKeeps(s, g, newId);
    case Ticked(expired) => TickKeeps(s, expired);
  }

  // ----- One PCB per connection

  function Key(p: Pcb): (u32, u16, u32, u16) {
    (p.localIp, p.localPort, p.remoteIp, p.remotePort)
  }

  /** The PCB has an entry in the active or the TIME-WAIT list; under the axioms its state says so. */
  predicate Connected(s: Stack, id: Id) {
    id in s.pcbs && s.pcbs[id].state != CLOSED && s.pcbs[id].state != LISTEN
  }

  /** No two connections have the same addresses and ports. */
  ghost predicate Unique(s: Stack) {
    forall a, b :: Connected(s, a) && Connected(s, b) && a != b ==> Key(s.pcbs[a]) != Key(s.pcbs[b])
  }

  /** A connection with these addresses and ports exists already. */
  ghost predicate Taken(s: Stack, key: (u32, u16, u32, u16)) {
    exists id :: Connected(s, id) && Key(s.pcbs[id]) == key
  }

  /** The addresses and ports of a new connection, the routed address included. */
  function NewKey(p: Pcb, e: Event): (u32, u16, u32, u16)
    requires e.Connecting?
  {
    (if e.sent then Routed(p.localIp, e.route) else p.localIp, e.port, e.ip, e.remotePort)
  }

  /** tcp_connect() leaves connections distinguishable exactly when no other one has the addresses and ports, the
      address the routing gives to an unbound PCB included. */
  lemma ConnectKeepsUnique(s: Stack, e: Event)
    requires e.Connecting? && Unique(s) && e.id in s.pcbs && s.pcbs[e.id].state == CLOSED
    ensures !Taken(s, NewKey(s.pcbs[e.id], e)) <==>
            Unique(Connect(s, e.id, e.port, e.ip, e.remotePort, e.sent, e.route))
  {
    var id, key := e.id, NewKey(s.pcbs[e.id], e);
    var s' := Connect(s, e.id, e.port, e.ip, e.remotePort, e.sent, e.route);
    if Taken(s, key) {
      var k :| Connected(s, k) && Key(s.pcbs[k]) == key;
      assert Connected(s', k) && Connected(s', id) && k != id;
    } else {
      OneChanged(s, s', id);
    }
  }

  /** All connections but one are as they were, and that one is unlike them. */
  lemma OneChanged(s: Stack, s': Stack, id: Id)
    requires Unique(s) && id in s'.pcbs
    requires forall k :: Connected(s', k) && k != id ==> Connected(s, k) && Key(s'.pcbs[k]) == Key(s.pcbs[k])
    requires forall k :: Connected(s', k) && k != id ==> Key(s'.pcbs[k]) != Key(s'.pcbs[id])
    ensures Unique(s')
  {
    forall a, b | Connected(s', a) && Connected(s', b) && a != b ensures Key(s'.pcbs[a]) != Key(s'.pcbs[b]) {
      if a != id && b != id {
        assert Connected(s, a) && Connected(s, b);
      }
    }
  }

  /** Filling in the local address does so exactly when the PCB had one, or no other connection has the result. */
  lemma OutputKeepsUnique(s: Stack, id: Id, route: u32)
    requires Unique(s) && Connected(s, id)
    ensures Unique(Output(s, id, route)) <==> !TakenByOther(s, id, Key(Output(s, id, route).pcbs[id]))
  {
    var s' := Output(s, id, route);
    if TakenByOther(s, id, Key(s'.pcbs[id])) {
      var k :| Connected(s, k) && k != id && Key(s.pcbs[k]) == Key(s'.pcbs[id]);
      assert Connected(s', k) && Connected(s', id);
    } else {
      forall k | Connected(s', k) && k != id ensures Connected(s, k) && Key(s'.pcbs[k]) != Key(s'.pcbs[id]) {
        assert Connected(s, k);
      }
      OneChanged(s, s', id);
    }
  }

  ghost predicate TakenByOther(s: Stack, id: Id, key: (u32, u16, u32, u16)) {
    exists k :: Connected(s, k) && k != id && Key(s.pcbs[k]) == key
  }

  /** The step adds no connection, and changes the addresses and ports of none. */
  ghost predicate Shrinks(s: Stack, s': Stack) {
    forall id :: Connected(s', id) ==> Connected(s, id) && Key(s'.pcbs[id]) == Key(s.pcbs[id])
  }

  lemma ShrinksUnique(s: Stack, s': Stack)
    requires Unique(s) && Shrinks(s, s')
    ensures Unique(s')
  {
    forall a, b | Connected(s', a) && Connected(s', b) && a != b ensures Key(s'.pcbs[a]) != Key(s'.pcbs[b]) {
      assert Connected(s, a) && Connected(s, b);
    }
  }

  /** A SYN creates a connection only when none has its addresses and ports. */
  lemma SpawnUnique(s: Stack, id: Id, t: Tuple, newId: Id)
    requires Unique(s) && Axioms(s) && id in s.pcbs && s.pcbs[id].state == LISTEN && newId !in s.pcbs
    requires Demux(s, t) == Found(id)
    ensures Unique(s.(active := [newId] + s.active, pcbs := s.pcbs[newId := Child(s.pcbs[id], t)]))
  {
    hide Demux;
    DemuxIs(s, t);
    var s' := s.(active := [newId] + s.active, pcbs := s.pcbs[newId := Child(s.pcbs[id], t)]);
    forall k | Connected(s, k) ensures Key(s.pcbs[k]) != Key(s'.pcbs[newId]) {
      PlacedByAxioms(s, k);
      assert k in s.active || k in s.tw;
      assert !ActiveMatch(s.pcbs[k], t);
    }
    forall a, b | Connected(s', a) && Connected(s', b) && a != b ensures Key(s'.pcbs[a]) != Key(s'.pcbs[b]) {
      if a == newId {
        assert Connected(s, b);
      } else if b == newId {
        assert Connected(s, a);
      } else {
        assert Connected(s, a) && Connected(s, b);
      }
    }
  }

  /** No verdict but Spawn adds a connection. */
  lemma ApplyShrinks(s: Stack, id: Id, v: Verdict, t: Tuple, newId: Found)
    requires id in s.pcbs && Connected(s, id) && v != Spawn
    ensures Shrinks(s, Apply(s, id, v, t, newId))
  {
    hide Without;
  }

  lemma SamePcbs(s: Stack, s': Stack)
    requires s'.pcbs == s.pcbs
    ensures Unique(s') <==> Unique(s)
  {
    if Unique(s) {
      ShrinksUnique(s, s');
    }
    if Unique(s') {
      ShrinksUnique(s', s);
    }
  }

  /** Only a listener gets the verdict Spawn, and a listener gets no other but Stay. */
  lemma VerdictIs(state: State, g: Segment)
    ensures state == LISTEN <==> Process(state, g) == Spawn || (state == LISTEN && Process(state, g) == Stay)
  {
  }

  lemma InputUnique(s: Stack, g: Segment, newId: Found)
    requires Unique(s) && Axioms(s) && Fresh(s, newId)
    ensures Unique(Input(s, g, newId))
  {
    hide Axioms, Unique, Demux, AfterLookup, Lookup, Without, Process, Apply, Shrinks, ActiveMatch, ListenMatch;
    DemuxIs(s, g.t);
    if Demux(s, g.t).Found? {
      var id := Demux(s, g.t).id;
      var r := Reordered(s, g.t);
      SamePcbs(s, r);
      VerdictIs(s.pcbs[id].state, g);
      ApplyUnique(s, r, id, Process(s.pcbs[id].state, g), g.t, newId);
    }
  }

  lemma ApplyUnique(s: Stack, r: Stack, id: Id, v: Verdict, t: Tuple, newId: Found)
    requires Unique(s) && Axioms(s) && Fresh(s, newId) && Demux(s, t) == Found(id) && id in s.pcbs
    requires r.pcbs == s.pcbs && s.pcbs[id].state != CLOSED
    requires if s.pcbs[id].state == LISTEN then v == Spawn || v == Stay else v != Spawn
    ensures Unique(Apply(r, id, v, t, newId))
  {
    hide Axioms, Unique, Demux, Without, Shrinks;
    SamePcbs(s, r);
    if v == Spawn {
      if newId.Found? {
        SpawnUnique(s, id, t, newId.id);
        SamePcbs(s.(active := [newId.id] + s.active, pcbs := s.pcbs[newId.id := Child(s.pcbs[id], t)]),
                 Apply(r, id, v, t, newId));
      }
    } else if v != Stay {
      ApplyShrinks(r, id, v, t, newId);
      ShrinksUnique(r, Apply(r, id, v, t, newId));
    }
  }

  /** A connect, or a first segment, that would duplicate a connection. */
  ghost predicate Duplicates(s: Stack, e: Event) {
    || (e.Connecting? && e.id in s.pcbs && Taken(s, NewKey(s.pcbs[e.id], e)))
    || (e.Transmitted? && e.id in s.pcbs && TakenByOther(s, e.id, Key(Output(s, e.id, e.route).pcbs[e.id])))
  }

  lemma OthersShrink(s: Stack, e: Event)
    requires Sane(s, e) && !e.Connecting? && !e.Transmitted? && !e.Arrived?
    ensures Shrinks(s, Step(s, e))
  {
    hide Input, Connect, Without, Sweep, Lookup;
  }

  lemma StepKeepsUnique(s: Stack, e: Event)
    requires Axioms(s) && Unique(s) && Sane(s, e) && !Duplicates(s, e)
    ensures Unique(Step(s, e))
  {
    hide Axioms, Unique, Input, Connect, Output, Taken, TakenByOther, New, Bind, Listen, Close, Abort, Reclaim, Tick,
      Shrinks;
    match e
    case Connecting(_, _, _, _, _, _) => ConnectKeepsUnique(s, e);
    case Transmitted(id, route) => OutputKeepsUnique(s, id, route);
    case Arrived(g, newId) => InputUnique(s, g, newId);
    case _ =>
      OthersShrink(s, e);
      ShrinksUnique(s, Step(s, e));
  }

  /** Every segment of a connection reaches that connection, however the lists have been reordered. */
  lemma DemuxExact(s: Stack, t: Tuple, id: Id)
    requires Axioms(s) && Unique(s) && Connected(s, id)
    ensures Demux(s, t) == Found(id) <==> ActiveMatch(s.pcbs[id], t)
  {
    hide Demux;
    DemuxIs(s, t);
    PlacedByAxioms(s, id);
    assert id in s.active || id in s.tw;
    if ActiveMatch(s.pcbs[id], t) {
      var d := Demux(s, t);
      assert d.Found? && Connected(s, d.id);
    }
  }

  // ----- The state diagram

  /** The arrows of figure 6 of RFC 793, without those into CLOSED that delete the PCB, and with the step from
      FIN_WAIT_1 to TIME_WAIT that the text of section 3.9 gives for a FIN that also acknowledges ours. */
  predicate Arrow(a: State, b: State) {
    match a
    case CLOSED => b == LISTEN || b == SYN_SENT
    case LISTEN => b == SYN_RCVD || b == SYN_SENT
    case SYN_SENT => b == SYN_RCVD || b == ESTABLISHED
    case SYN_RCVD => b == ESTABLISHED || b == FIN_WAIT_1
    case ESTABLISHED => b == FIN_WAIT_1 || b == CLOSE_WAIT
    case FIN_WAIT_1 => b == FIN_WAIT_2 || b == CLOSING || b == TIME_WAIT
    case CLOSE_WAIT => b == LAST_ACK
    case FIN_WAIT_2 => b == TIME_WAIT
    case CLOSING => b == TIME_WAIT
    case LAST_ACK => b == CLOSED
    case TIME_WAIT => b == CLOSED
  }

  /** Where the PCB at an address after a step comes from. */
  ghost predicate Follows(s: Stack, s': Stack, e: Event, id: Id)
    requires id in s'.pcbs
  {
    var b := s'.pcbs[id].state;
    if id in s.pcbs then s.pcbs[id].state == b || Arrow(s.pcbs[id].state, b)
    else
      match e
      case Opened(_) => b == CLOSED
      case Listening(was, _) => was in s.pcbs && Arrow(s.pcbs[was].state, b) && b == LISTEN
      case Arrived(g, _) =>
        var d := Demux(s, g.t);
        d.Found? && d.id in s.pcbs && s.pcbs[d.id].state == LISTEN && Arrow(LISTEN, b) && g.syn && !g.ack && !g.rst
      case _ => false
  }

  lemma InputFollows(s: Stack, g: Segment, newId: Found, id: Id)
    requires Axioms(s) && Fresh(s, newId) && id in Input(s, g, newId).pcbs
    ensures Follows(s, Input(s, g, newId), Arrived(g, newId), id)
  {
    hide Axioms, Demux, Lookup, AfterLookup, Process, Apply, Arrow;
    DemuxIs(s, g.t);
    var d := Demux(s, g.t);
    if d.Found? {
      ProcessArrow(s.pcbs[d.id].state, g);
      ApplyMoves(Reordered(s, g.t), d.id, Process(s.pcbs[d.id].state, g), g.t, newId, id);
    }
  }

  lemma ProcessArrow(state: State, g: Segment)
    ensures match Process(state, g)
            case Go(next) => next == state || next == CLOSED || Arrow(state, next)
            case Spawn => state == LISTEN && Arrow(LISTEN, SYN_RCVD) && g.syn && !g.ack && !g.rst
            case _ => true
  {
  }

  lemma ApplyMoves(s: Stack, k: Id, v: Verdict, t: Tuple, newId: Found, id: Id)
    requires k in s.pcbs && Fresh(s, newId) && id in Apply(s, k, v, t, newId).pcbs
    ensures var b := Apply(s, k, v, t, newId).pcbs[id].state;
            if id !in s.pcbs then v == Spawn && b == SYN_RCVD
            else b == s.pcbs[id].state || (id == k && v == Go(b) && b != CLOSED)
  {
    hide Without;
  }

  /** Every step moves every PCB along an arrow of the diagram, or leaves its state alone. */
  lemma StepFollows(s: Stack, e: Event, id: Id)
    requires Axioms(s) && Sane(s, e) && id in Step(s, e).pcbs
    ensures Follows(s, Step(s, e), e, id)
  {
    hide Axioms, Input, Demux, Sweep, Without;
    if e.Arrived? {
      InputFollows(s, e.g, e.newId, id);
    }
  }

  /** A reset that tcp_process() accepts: in SYN_SENT by its ACK number, and otherwise by its own number. */
  predicate ResetFits(state: State, g: Segment) {
    state != LISTEN && if state == SYN_SENT then g.acksNext else g.inWindow
  }

  /** The event takes the PCB away: it was moved by tcp_listen(), closed by its owner before a connection existed,
      aborted, reclaimed, reset, expired, or got an ACK number equal to snd_nxt in LAST_ACK. */
  predicate Removes(s: Stack, e: Event, id: Id)
    requires id in s.pcbs
  {
    match e
    case Listening(was, _) => was == id
    case Closed(k, _) => k == id && (s.pcbs[id].state == LISTEN || s.pcbs[id].state == SYN_SENT)
    case Aborted(k) => k == id
    case Reclaimed(oldest) => if s.tw != [] then id == s.tw[0] else oldest == Found(id) && id in s.active
    case Arrived(g, _) =>
      && Demux(s, g.t) == Found(id)
      && if g.rst then ResetFits(s.pcbs[id].state, g) else s.pcbs[id].state == LAST_ACK && g.ack && g.acksNext
    case Ticked(expired) => id in expired && Connected(s, id)
    case _ => false
  }

  /** A PCB disappears exactly when an event takes it away. */
  lemma Disappears(s: Stack, e: Event, id: Id)
    requires Axioms(s) && Sane(s, e) && id in s.pcbs
    ensures id !in Step(s, e).pcbs <==> Removes(s, e, id)
  {
    hide Axioms, Input, Demux, Sweep, Without, Lookup;
    PlacedByAxioms(s, id);
    InLists(s, id);
    match e
    case Arrived(g, newId) => InputDrops(s, g, newId, id);
    case Reclaimed(oldest) =>
      if s.tw != [] {
        assert s.tw[0] in s.tw;
      }
    case _ =>
  }

  /** A connection is in the active list or in TIME-WAIT, and these hold nothing else. */
  lemma InLists(s: Stack, id: Id)
    requires Axioms(s)
    ensures id in s.active <==> id in s.pcbs && IsActive(s.pcbs[id].state)
    ensures id in s.tw <==> id in s.pcbs && s.pcbs[id].state == TIME_WAIT
    ensures id in s.listen <==> id in s.pcbs && s.pcbs[id].state == LISTEN
  {
    hide Axioms;
    PlacedByAxioms(s, id);
    assert id in s.active <==> multiset(s.active)[id] > 0;
    assert id in s.tw <==> multiset(s.tw)[id] > 0;
    assert id in s.listen <==> multiset(s.listen)[id] > 0;
  }

  lemma InputDrops(s: Stack, g: Segment, newId: Found, id: Id)
    requires Axioms(s) && Fresh(s, newId) && id in s.pcbs
    ensures id !in Input(s, g, newId).pcbs <==> Removes(s, Arrived(g, newId), id)
  {
    hide Axioms, Demux, Without, AfterLookup, Lookup;
    DemuxIs(s, g.t);
  }

  // ----- Two half-closes

  /** Our side of a connection: open; our FIN queued, sent or not; and then an ACK number equal to snd_nxt seen. */
  datatype Side = Open | FinQueued | NextAcked

  /** A connection as two directions: ours, theirs (whether their FIN has come), and whether theirs was closed first. */
  datatype Halves = Halves(ours: Side, theirs: bool, theyClosedFirst: bool)

  predicate Synchronised(state: State) {
    state != CLOSED && state != LISTEN && state != SYN_SENT && state != SYN_RCVD
  }

  /** What the states from ESTABLISHED on stand for; CLOSED here is what LAST_ACK ends in. */
  function HalvesOf(state: State): Halves
    requires Synchronised(state) || state == CLOSED
  {
    match state
    case ESTABLISHED => Halves(Open, false, false)
    case FIN_WAIT_1 => Halves(FinQueued, false, false)
    case FIN_WAIT_2 => Halves(NextAcked, false, false)
    case CLOSE_WAIT => Halves(Open, true, true)
    case CLOSING => Halves(FinQueued, true, false)
    case LAST_ACK => Halves(FinQueued, true, true)
    case TIME_WAIT => Halves(NextAcked, true, false)
    case CLOSED => Halves(NextAcked, true, true)
  }

  lemma HalvesDecide(a: State, b: State)
    requires (Synchronised(a) || a == CLOSED) && (Synchronised(b) || b == CLOSED)
    ensures HalvesOf(a) == HalvesOf(b) <==> a == b
  {
  }

  /** The state after a verdict that moves a PCB or leaves it. */
  function After(state: State, v: Verdict): State
    requires v.Stay? || v.Go?
  {
    if v.Go? then v.state else state
  }

  /** In every synchronised state a segment without RST closes the two directions independently: theirs when it carries
      a FIN, ours when our FIN is queued and its ACK number is snd_nxt; and this determines the new state. */
  lemma ProcessHalves(state: State, g: Segment)
    requires Synchronised(state) && !g.rst
    ensures var v := Process(state, g);
            var h := HalvesOf(state);
            && (v.Stay? || (v.Go? && (Synchronised(v.state) || v.state == CLOSED)))
            && var h' := Halves(if h.ours == FinQueued && g.ack && g.acksNext then NextAcked else h.ours,
                                h.theirs || g.fin,
                                h.theyClosedFirst || (g.fin && !h.theirs && h.ours == Open));
            && HalvesOf(After(state, v)) == h'
            && forall b :: (Synchronised(b) || b == CLOSED) && HalvesOf(b) == h' ==> b == After(state, v)
  {
    var v := Process(state, g);
    forall b | (Synchronised(b) || b == CLOSED) && HalvesOf(b) == HalvesOf(After(state, v))
      ensures b == After(state, v)
    {
      HalvesDecide(b, After(state, v));
    }
  }

  /** tcp_close() closes our direction, if it is open and the FIN can be queued, and nothing else. */
  lemma CloseHalves(s: Stack, id: Id, sent: bool)
    requires id in s.pcbs && Synchronised(s.pcbs[id].state)
    ensures var h := HalvesOf(s.pcbs[id].state);
            var s' := Close(s, id, sent);
            && s'.pcbs.Keys == s.pcbs.Keys && Synchronised(s'.pcbs[id].state)
            && HalvesOf(s'.pcbs[id].state) == h.(ours := if h.ours == Open && sent then FinQueued else h.ours)
            && s' == s.(pcbs := s.pcbs[id := s.pcbs[id].(state := s'.pcbs[id].state)])
  {
    assert s.pcbs == s.pcbs[id := s.pcbs[id]];
  }

  /** The connection a SYN creates gets the segments that follow. */
  lemma SpawnServes(s: Stack, g: Segment, newId: Id, t: Tuple)
    requires Axioms(s) && Unique(s) && newId !in s.pcbs && newId in Input(s, g, Found(newId)).pcbs
    ensures Demux(Input(s, g, Found(newId)), t) == Found(newId) <==> t == g.t
  {
    hide Axioms, Unique, Demux, Lookup, AfterLookup, Input;
    var s' := Input(s, g, Found(newId));
    InputKeeps(s, g, Found(newId));
    InputUnique(s, g, Found(newId));
    SpawnIs(s, g, newId);
    DemuxExact(s', t, newId);
  }

  lemma SpawnIs(s: Stack, g: Segment, newId: Id)
    requires Axioms(s) && newId !in s.pcbs && newId in Input(s, g, Found(newId)).pcbs
    ensures Connected(Input(s, g, Found(newId)), newId)
    ensures forall t :: ActiveMatch(Input(s, g, Found(newId)).pcbs[newId], t) <==> t == g.t
  {
    hide Axioms, Demux, Lookup, AfterLookup, Without;
    DemuxIs(s, g.t);
  }

  // ----- Listeners

  /** tcp_listen() leaves the listeners without conflicts exactly when the new one conflicts with none of them. */
  lemma ListenConflicts(s: Stack, id: Id, newId: Id)
    requires Axioms(s) && NoConflicts(s.listen, s.pcbs) && id in s.pcbs && s.pcbs[id].state == CLOSED &&
             newId !in s.pcbs
    ensures var s' := Listen(s, id, Found(newId));
            NoConflicts(s'.listen, s'.pcbs) <==> (forall k :: k in s.listen ==> !Conflict(s.pcbs[k], s.pcbs[id]))
  {
    var s' := Listen(s, id, Found(newId));
    assert s'.listen[0] == newId;
    assert forall k :: k in s'.listen <==> k == newId || k in s.listen;
    assert forall j :: 0 < j < |s'.listen| ==> s'.listen[j] == s.listen[j - 1];
    assert forall k :: k in s.listen ==> s'.pcbs[k] == s.pcbs[k] && k != newId;
    if k: Id :| k in s.listen && Conflict(s.pcbs[k], s.pcbs[id]) {
      assert Conflict(s'.pcbs[k], s'.pcbs[newId]);
    }
  }

  /** tcp_bind() fails exactly when some listening or active PCB is in the way. */
  lemma BindExactly(s: Stack, ip: u32, port: u16)
    requires Axioms(s)
    ensures BindOk(s, ip, port) <==> forall id :: id in s.listen || id in s.active ==> !InUse(s.pcbs[id], ip, port)
  {
    hide Lookup;
    var f := InUseTest(s.pcbs, ip, port);
    NotFoundIs(s.listen, f);
    NotFoundIs(s.active, f);
    forall id | id in s.listen || id in s.active ensures f(id) <==> InUse(s.pcbs[id], ip, port) {
    }
  }

  /** Listening at once after tcp_bind() returned ERR_OK keeps the listeners without conflicts. */
  lemma BindThenListen(s: Stack, id: Id, ip: u32, port: u16, newId: Id)
    requires Axioms(s) && NoConflicts(s.listen, s.pcbs) && id in s.pcbs && s.pcbs[id].state == CLOSED &&
             newId !in s.pcbs
    requires BindOk(s, ip, port)
    ensures var b := Listen(Bind(s, id, ip, port), id, Found(newId)); NoConflicts(b.listen, b.pcbs)
  {
    hide Listen, Lookup;
    var b := Bind(s, id, ip, port);
    BindKeeps(s, id, ip, port);
    NotFoundIs(s.listen, InUseTest(s.pcbs, ip, port));
    forall k | k in s.listen ensures !Conflict(b.pcbs[k], b.pcbs[id]) {
      assert !InUseTest(s.pcbs, ip, port)(k);
    }
    assert NoConflicts(b.listen, b.pcbs);
    ListenConflicts(b, id, newId);
  }

  /** Two PCBs bound to one port before either listens: both binds succeed, both end up listening, and which of them a
      SYN reaches depends on the order of the list. */
  lemma LateConflict()
    ensures var es := [Opened(1), Opened(2), Bound(1, 0, 80), Bound(2, 7, 80), Listening(1, Found(3)),
                       Listening(2, Found(4))];
            && SaneRun(EMPTY, es)
            && Run(EMPTY, es).listen == [4, 3]
            && !NoConflicts([4, 3], Run(EMPTY, es).pcbs)
            && Lookup([4, 3], ListenTest(Run(EMPTY, es).pcbs, Tuple(1, 1, 7, 80))) == Found(4)
            && Lookup(ListenRun([4, 3], Run(EMPTY, es).pcbs, [Tuple(1, 1, 9, 80)]),
                      ListenTest(Run(EMPTY, es).pcbs, Tuple(1, 1, 7, 80))) == Found(3)
  {
    hide Run, SaneRun, Sane, Duplicates, Step, Axioms, NoConflicts, Lookup, ListenRun;
    var e1, e2, e3 := Opened(1), Opened(2), Bound(1, 0, 80);
    var e4, e5, e6 := Bound(2, 7, 80), Listening(1, Found(3)), Listening(2, Found(4));
    var s6 := LateSteps();
    LateLookup(s6.pcbs);
    var s1 := Step(EMPTY, e1);
    var s2 := Step(s1, e2);
    var s3 := Step(s2, e3);
    var s4 := Step(s3, e4);
    var s5 := Step(s4, e5);
    RunNil(s6);
    RunCons(s5, e6, []);
    assert [e6] + [] == [e6];
    RunCons(s4, e5, [e6]);
    assert [e5] + [e6] == [e5, e6];
    RunCons(s3, e4, [e5, e6]);
    assert [e4] + [e5, e6] == [e4, e5, e6];
    RunCons(s2, e3, [e4, e5, e6]);
    assert [e3] + [e4, e5, e6] == [e3, e4, e5, e6];
    RunCons(s1, e2, [e3, e4, e5, e6]);
    assert [e2] + [e3, e4, e5, e6] == [e2, e3, e4, e5, e6];
    RunCons(EMPTY, e1, [e2, e3, e4, e5, e6]);
    assert [e1] + [e2, e3, e4, e5, e6] == [e1, e2, e3, e4, e5, e6];
  }

  lemma LateSteps() returns (s6: Stack)
    ensures s6.listen == [4, 3] && s6.pcbs == map[3 := Pcb(LISTEN, 0, 80, 0, 0), 4 := Pcb(LISTEN, 7, 80, 0, 0)]
    ensures Sane(EMPTY, Opened(1))
    ensures var s1 := Step(EMPTY, Opened(1));
            Sane(s1, Opened(2)) &&
            var s2 := Step(s1, Opened(2));
            Sane(s2, Bound(1, 0, 80)) &&
            var s3 := Step(s2, Bound(1, 0, 80));
            Sane(s3, Bound(2, 7, 80)) &&
            var s4 := Step(s3, Bound(2, 7, 80));
            Sane(s4, Listening(1, Found(3))) &&
            var s5 := Step(s4, Listening(1, Found(3)));
            Sane(s5, Listening(2, Found(4))) && Step(s5, Listening(2, Found(4))) == s6
  {
    hide Bind;
    var p: Pcb := Pcb(CLOSED, 0, 0, 0, 0);
    var s1 := Stack([], [], [], map[1 := p]);
    var s2 := Stack([], [], [], map[1 := p, 2 := p]);
    var s3 := Stack([], [], [], map[1 := p.(localPort := 80), 2 := p]);
    var s4 := Stack([], [], [], map[1 := p.(localPort := 80), 2 := p.(localIp := 7, localPort := 80)]);
    var s5 := Stack([3], [], [], map[3 := Pcb(LISTEN, 0, 80, 0, 0), 2 := p.(localIp := 7, localPort := 80)]);
    s6 := Stack([4, 3], [], [], map[3 := Pcb(LISTEN, 0, 80, 0, 0), 4 := Pcb(LISTEN, 7, 80, 0, 0)]);
    assert New(EMPTY, 1) == s1;
    assert New(s1, 2) == s2;
    BindAlone(s2, 1, 0, 80);
    assert Bind(s2, 1, 0, 80) == s3;
    BindAlone(s3, 2, 7, 80);
    assert Bind(s3, 2, 7, 80) == s4;
    assert Listen(s4, 1, Found(3)) == s5;
    assert Listen(s5, 2, Found(4)) == s6;
  }

  lemma BindAlone(s: Stack, id: Id, ip: u32, port: u16)
    requires s.listen == [] && s.active == [] && id in s.pcbs
    ensures var pcb := s.pcbs[id];
            Bind(s, id, ip, port)
              == s.(pcbs := s.pcbs[id := pcb.(localIp := if ip == 0 then pcb.localIp else ip, localPort := port)])
  {
  }

  lemma RunNil(s: Stack)
    ensures SaneRun(s, []) && Run(s, []) == s
  {
  }

  lemma LateLookup(pcbs: map<Id, Pcb>)
    requires 3 in pcbs && 4 in pcbs && pcbs[3] == Pcb(LISTEN, 0, 80, 0, 0) && pcbs[4] == Pcb(LISTEN, 7, 80, 0, 0)
    ensures !NoConflicts([4, 3], pcbs)
    ensures Lookup([4, 3], ListenTest(pcbs, Tuple(1, 1, 7, 80))) == Found(4)
    ensures Lookup(ListenRun([4, 3], pcbs, [Tuple(1, 1, 9, 80)]), ListenTest(pcbs, Tuple(1, 1, 7, 80))) == Found(3)
  {
    var q, f, g := [4, 3], ListenTest(pcbs, Tuple(1, 1, 7, 80)), ListenTest(pcbs, Tuple(1, 1, 9, 80));
    assert 3 in q && 4 in q && Conflict(pcbs[4], pcbs[3]);
    IndexIs(q, f, 0);
    IndexIs(q, g, 1);
    assert ToFront(q, 1) == [3, 4];
    IndexIs([3, 4], f, 0);
    assert ListenRun(AfterLookup(q, g), pcbs, []) == [3, 4];
  }

  lemma RunCons(s: Stack, e: Event, es: seq<Event>)
    requires Sane(s, e) && !e.Connecting? && !e.Transmitted? && SaneRun(Step(s, e), es)
    ensures SaneRun(s, [e] + es) && Run(s, [e] + es) == Run(Step(s, e), es)
  {
    assert ([e] + es)[1..] == es;
  }

  // ----- Runs

  ghost predicate SaneRun(s: Stack, es: seq<Event>)
    decreases |es|
  {
    es != [] ==> Sane(s, es[0]) && !Duplicates(s, es[0]) && SaneRun(Step(s, es[0]), es[1..])
  }

  ghost function Run(s: Stack, es: seq<Event>): Stack
    requires SaneRun(s, es)
    decreases |es|
  {
    if es == [] then s else Run(Step(s, es[0]), es[1..])
  }

  /** tcp_init(). */
  const EMPTY := Stack([], [], [], map[])

  lemma {:induction false} RunKeeps(s: Stack, es: seq<Event>)
    requires SaneRun(s, es) && Axioms(s) && Unique(s)
    ensures Axioms(Run(s, es)) && Unique(Run(s, es))
    decreases |es|
  {
    hide Axioms, Unique, Sane, Duplicates, Step;
    if es != [] {
      StepKeeps(s, es[0]);
      StepKeepsUnique(s, es[0]);
      RunKeeps(Step(s, es[0]), es[1..]);
    }
  }

  /** From an empty stack, every run keeps the list axioms, and every connection gets exactly its own segments. */
  lemma RunFromEmpty(es: seq<Event>, id: Id, t: Tuple)
    requires SaneRun(EMPTY, es)
    ensures Axioms(Run(EMPTY, es))
    ensures Connected(Run(EMPTY, es), id) ==>
              (Demux(Run(EMPTY, es), t) == Found(id) <==> ActiveMatch(Run(EMPTY, es).pcbs[id], t))
  {
    assert Axioms(EMPTY) && Unique(EMPTY);
    hide Demux, ActiveMatch;
    RunKeeps(EMPTY, es);
    if Connected(Run(EMPTY, es), id) {
      DemuxExact(Run(EMPTY, es), t, id);
    }
  }
}
