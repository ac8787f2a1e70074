/** The loops over the PCB lists in SW_stub/lwtcp/tcp.c and tcp_input.c, on mutable lists. */
module PcbTable {
  import opened SeqNum
  import opened PcbLists
  import opened PcbStates
  import opened PcbRuns

  const FIRST_PORT: u16 := 4096
  const LAST_PORT: u16 := 0x7fff

  /** The next candidate of tcp_new_port(). */
  function NextPort(port: u16): (r: u16)
    ensures FIRST_PORT <= port <= LAST_PORT ==> FIRST_PORT <= r <= LAST_PORT
  {
    var n: int := port;
    if n + 1 > 0x7fff then 4096 else n + 1
  }

  /** How many candidates come before p, starting after port. */
  function Distance(port: u16, p: u16): (d: nat)
    requires FIRST_PORT <= port <= LAST_PORT && FIRST_PORT <= p <= LAST_PORT
  {
    var a: int, b: int := port, p;
    if b > a then b - a - 1 else b - a - 1 + 28672
  }

  lemma DistanceDrops(port: u16, p: u16)
    requires FIRST_PORT <= port <= LAST_PORT && FIRST_PORT <= p <= LAST_PORT && p != NextPort(port)
    ensures Distance(port, p) == 1 + Distance(NextPort(port), p)
  {
  }

  function PortTest(pcbs: map<Id, Pcb>, port: u16): Id -> bool {
    (id: Id) => id in pcbs && pcbs[id].localPort == port
  }

  /** No PCB in any of the three lists is bound to the port. */
  predicate PortFree(s: Stack, port: u16) {
    && Lookup(s.active, PortTest(s.pcbs, port)) == NotFound
    && Lookup(s.tw, PortTest(s.pcbs, port)) == NotFound
    && Lookup(s.listen, PortTest(s.pcbs, port)) == NotFound
  }

  /** The first free port after the given one, on a search that passes a free one sooner or later. */
  ghost function FirstFree(s: Stack, port: u16, free: u16): (r: u16)
    requires FIRST_PORT <= port <= LAST_PORT && FIRST_PORT <= free <= LAST_PORT && PortFree(s, free)
    ensures FIRST_PORT <= r <= LAST_PORT && PortFree(s, r)
    decreases Distance(port, free)
  {
    if PortFree(s, NextPort(port)) then NextPort(port)
    else
      DistanceDrops(port, free);
      FirstFree(s, NextPort(port), free)
  }

  /** No port that the search passes on its way is free. */
  lemma {:induction false} FirstFreeMeans(s: Stack, port: u16, free: u16, p: u16)
    requires FIRST_PORT <= port <= LAST_PORT && FIRST_PORT <= free <= LAST_PORT && PortFree(s, free)
    requires FIRST_PORT <= p <= LAST_PORT && Distance(port, p) < Distance(port, FirstFree(s, port, free))
    ensures !PortFree(s, p)
    decreases Distance(port, free)
  {
    hide PortFree;
    if PortFree(s, NextPort(port)) {
      NextIsNear(port);
    } else if p != NextPort(port) {
      DistanceDrops(port, free);
      DistanceDrops(port, p);
      DistanceDrops(port, FirstFree(s, NextPort(port), free));
      FirstFreeMeans(s, NextPort(port), free, p);
    }
  }

  lemma NextIsNear(port: u16)
    requires FIRST_PORT <= port <= LAST_PORT
    ensures Distance(port, NextPort(port)) == 0
  {
  }

  /** A connection to anywhere from a port tcp_new_port() chose cannot duplicate another. */
  lemma FreePortNotTaken(s: Stack, port: u16, localIp: u32, ip: u32, remotePort: u16)
    requires Axioms(s) && PortFree(s, port)
    ensures !Taken(s, (localIp, port, ip, remotePort))
  {
    hide Axioms, Lookup;
    NotFoundIs(s.active, PortTest(s.pcbs, port));
    NotFoundIs(s.tw, PortTest(s.pcbs, port));
    forall id | Connected(s, id) ensures s.pcbs[id].localPort != port {
      PlacedByAxioms(s, id);
      assert id in s.active || id in s.tw;
      assert !PortTest(s.pcbs, port)(id);
    }
  }

  /** The expired PCBs of a list. */
  function Gone(q: seq<Id>, expired: set<Id>): set<Id> {
    set id | id in expired && id in q
  }

  lemma GoneStep(q: seq<Id>, n: nat, expired: set<Id>, pcbs: map<Id, Pcb>)
    requires n < |q|
    ensures Gone(q[..n + 1], expired) == Gone(q[..n], expired) + if q[n] in expired then {q[n]} else {}
    ensures q[n] in expired ==> pcbs - Gone(q[..n], expired) - {q[n]} == pcbs - Gone(q[..n + 1], expired)
  {
    assert q[..n + 1] == q[..n] + [q[n]];
  }

  lemma SweepStart(q: seq<Id>, expired: set<Id>)
    ensures Sweep([], expired) == [] && q[0..] == q && q[..0] == [] && q[..|q|] == q && Gone([], expired) == {}
  {
  }

  lemma SweepCons(id: Id, rest: seq<Id>, expired: set<Id>)
    ensures Sweep([id] + rest, expired) == (if id in expired then [] else [id]) + Sweep(rest, expired)
  {
    assert ([id] + rest)[1..] == rest;
  }

  /** The list after one round of the loop that takes expired PCBs off the list cur. */
  function SweepNext(cur: seq<Id>, i: nat, expired: set<Id>): seq<Id>
    requires i < |cur|
  {
    if cur[i] in expired then cur[..i] + cur[i + 1..] else cur
  }

  lemma TailOf(cur: seq<Id>, i: nat)
    requires i < |cur|
    ensures cur[i..] == [cur[i]] + cur[i + 1..]
  {
  }

  lemma SameTail(cur: seq<Id>, i: nat, q: seq<Id>, n: nat)
    requires i < |cur| && n < |q| && cur[i..] == q[n..]
    ensures cur[i] == q[n] && cur[i + 1..] == q[n + 1..]
  {
    assert cur[i] == cur[i..][0] && q[n] == q[n..][0];
    assert cur[i + 1..] == cur[i..][1..] && q[n + 1..] == q[n..][1..];
  }

  lemma Removed(cur: seq<Id>, i: nat)
    requires i < |cur|
    ensures var next := cur[..i] + cur[i + 1..]; next[i..] == cur[i + 1..] && next[..i] == cur[..i]
  {
  }

  lemma Kept(cur: seq<Id>, i: nat, tail: seq<Id>)
    requires i < |cur|
    ensures cur[..i] + ([cur[i]] + tail) == cur[..i + 1] + tail
  {
  }

  /** One round of the loop, n elements into the original list q. */
  lemma SweepStep(q: seq<Id>, cur: seq<Id>, i: nat, n: nat, expired: set<Id>)
    requires i < |cur| && n < |q| && cur[i..] == q[n..]
    requires cur[..i] + Sweep(cur[i..], expired) == Sweep(q, expired)
    ensures cur[i] == q[n]
    ensures var next := SweepNext(cur, i, expired);
            var j := if cur[i] in expired then i else i + 1;
            j <= |next| && next[j..] == q[n + 1..] && next[..j] + Sweep(next[j..], expired) == Sweep(q, expired)
  {
    hide Sweep;
    SameTail(cur, i, q, n);
    TailOf(cur, i);
    SweepCons(cur[i], cur[i + 1..], expired);
    if cur[i] in expired {
      Removed(cur, i);
      assert [] + Sweep(cur[i + 1..], expired) == Sweep(cur[i + 1..], expired);
    } else {
      Kept(cur, i, Sweep(cur[i + 1..], expired));
    }
  }

  lemma UnlinkStart(q: seq<Id>, id: Id)
    ensures q == [] ==> Without(q, id) == []
    ensures q != [] && q[0] == id ==> Without(q, id) == q[1..]
    ensures q != [] && q[0] != id ==> Without(q, id) == q[..1] + Without(q[1..], id)
  {
  }

  lemma UnlinkStep(q: seq<Id>, i: nat, id: Id)
    requires 0 < i < |q| && Without(q, id) == q[..i] + Without(q[i..], id)
    ensures q[i] == id ==> Without(q, id) == q[..i] + q[i + 1..]
    ensures q[i] != id ==> Without(q, id) == q[..i + 1] + Without(q[i + 1..], id)
  {
    assert q[i..][1..] == q[i + 1..];
    assert q[..i + 1] == q[..i] + [q[i]];
  }

  lemma UnlinkEnd(q: seq<Id>, id: Id)
    ensures q != [] ==> q[..|q|] + Without(q[|q|..], id) == q
  {
  }

  class Tcp {
    var listen: seq<Id>
    var active: seq<Id>
    var tw: seq<Id>
    var pcbs: map<Id, Pcb>
    var port: u16   // the static variable of tcp_new_port()

    function Value(): Stack
      reads this
    {
      Stack(listen, active, tw, pcbs)
    }

    /** tcp_init(). */
    constructor ()
      ensures Value() == EMPTY && port == 4096
    {
      listen, active, tw, pcbs, port := [], [], [], map[], 4096;
    }

    /** TCP_RMV. */
    static method Unlink(q: seq<Id>, id: Id) returns (r: seq<Id>)
      ensures r == Without(q, id)
    {
      hide Without;
      UnlinkStart(q, id);
      if q != [] && q[0] == id {
        return q[1..];
      }
      var i := 0;
      while i + 1 < |q|
        invariant i <= |q| && (q != [] ==> i < |q|)
        invariant q != [] ==> Without(q, id) == q[..i + 1] + Without(q[i + 1..], id)
      {
        UnlinkStep(q, i + 1, id);
        if q[i + 1] == id {
          return q[..i + 1] + q[i + 2..];
        }
        i := i + 1;
      }
      r := q;
      UnlinkEnd(q, id);
    }

    /** The loops that look for a PCB in a list. */
    static method FindIn(q: seq<Id>, f: Id -> bool) returns (i: nat)
      ensures i == Index(q, f)
    {
      i := 0;
      while i < |q| && !f(q[i])
        invariant i <= |q| && forall k :: 0 <= k < i ==> !f(q[k])
      {
        i := i + 1;
      }
      IndexIs(q, f, i);
    }

    /** The relinking of a PCB that was found: nothing is done to the first of the list. */
    static method Relink(q: seq<Id>, i: nat) returns (r: seq<Id>)
      requires i < |q|
      ensures r == ToFront(q, i)
    {
      r := q;
      if i > 0 {
        r := [q[i]] + (q[..i] + q[i + 1..]);
      }
      assert r == ToFront(q, i);
    }

    /** Demultiplexing. */
    method Find(t: Tuple) returns (d: Found)
      modifies this`active, this`listen
      ensures d == old(Demux(Value(), t))
      ensures Value() == old(Reordered(Value(), t))
    {
      hide Index, ToFront, ActiveTest, ListenTest;
      var i := FindIn(active, ActiveTest(pcbs, t));
      if i < |active| {
        d := Found(active[i]);
        active := Relink(active, i);
        return;
      }
      i := FindIn(tw, ActiveTest(pcbs, t));
      if i < |tw| {
        return Found(tw[i]);
      }
      i := FindIn(listen, ListenTest(pcbs, t));
      if i < |listen| {
        d := Found(listen[i]);
        listen := Relink(listen, i);
        return;
      }
      d := NotFound;
    }

    /** tcp_input() after the checksum test, with tcp_process(). */
    method TcpInput(g: Segment, newId: Found)
      requires Axioms(Value()) && Fresh(Value(), newId)
      modifies this`active, this`listen, this`tw, this`pcbs
      ensures Value() == old(Input(Value(), g, newId)) && Axioms(Value())
    {
      hide Axioms, Demux, Lookup, AfterLookup, Without;
      ghost var s := Value();
      InputKeeps(s, g, newId);
      DemuxIs(s, g.t);
      var d := Find(g.t);
      if d == NotFound {
        assert Value() == Reordered(s, g.t);
        NothingReordered(s, g.t);
        return;
      }
      var id := d.id;
      match Process(pcbs[id].state, g)
      case Stay =>
      case Reset =>
        if pcbs[id].state == TIME_WAIT {
          tw := Unlink(tw, id);
        } else {
          active := Unlink(active, id);
        }
        pcbs := pcbs - {id};
      case Go(TIME_WAIT) =>
        active := Unlink(active, id);
        pcbs := pcbs[id := pcbs[id].(state := TIME_WAIT)];
        tw := [id] + tw;
      case Go(CLOSED) =>
        active := Unlink(active, id);
        pcbs := pcbs - {id};
      case Go(state) =>
        pcbs := pcbs[id := pcbs[id].(state := state)];
      case Spawn =>
        if newId.Found? {
          pcbs := pcbs[newId.id := Child(pcbs[id], g.t)];
          active := [newId.id] + active;
        }
    }

    /** tcp_bind(). */
    method TcpBind(id: Id, ip: u32, port: u16) returns (ok: bool)
      requires id in pcbs
      modifies this`pcbs
      ensures ok == old(BindOk(Value(), ip, port))
      ensures Value() == old(Bind(Value(), id, ip, port))
    {
      hide Index;
      var i := FindIn(listen, InUseTest(pcbs, ip, port));
      if i < |listen| {
        return false;
      }
      i := FindIn(active, InUseTest(pcbs, ip, port));
      if i < |active| {
        return false;
      }
      var p := pcbs[id];
      if ip != 0 {
        p := p.(localIp := ip);
      }
      pcbs := pcbs[id := p.(localPort := port)];
      ok := true;
    }

    /** tcp_new_port(): ends when some port is free, with the first free one. */
    method TcpNewPort(ghost free: u16) returns (r: u16)
      requires FIRST_PORT <= port <= LAST_PORT
      requires FIRST_PORT <= free <= LAST_PORT && PortFree(Value(), free)
      modifies this`port
      ensures r == port == FirstFree(Value(), old(port), free) && PortFree(Value(), r)
    {
      hide Index, PortTest;
      var busy := true;
      r := port;
      while busy
        invariant FIRST_PORT <= port <= LAST_PORT && r == port
        invariant FirstFree(Value(), old(port), free) == if busy then FirstFree(Value(), port, free) else port
        invariant !busy ==> PortFree(Value(), r)
        decreases busy, Distance(port, free)
      {
        port := NextPort(port);
        r := port;
        var i := FindIn(active, PortTest(pcbs, port));
        var j := FindIn(tw, PortTest(pcbs, port));
        var k := FindIn(listen, PortTest(pcbs, port));
        busy := i < |active| || j < |tw| || k < |listen|;
      }
    }

    /** The SYN could be queued and goes out: tcp_output_segment() fills in a missing local address. */
    method OutputSegment(id: Id, route: u32)
      requires id in pcbs
      modifies this`pcbs
      ensures Value() == old(Output(Value(), id, route))
    {
      var p := pcbs[id];
      if p.localIp == 0 {
        p := p.(localIp := route);
      }
      pcbs := pcbs[id := p];
    }

    /** tcp_connect() to a given address: an unbound PCB gets a port of its own. */
    method TcpConnect(id: Id, ip: u32, remotePort: u16, sent: bool, route: u32, ghost free: u16)
      requires Axioms(Value()) && Unique(Value()) && id in pcbs && pcbs[id].state == CLOSED
      requires FIRST_PORT <= port <= LAST_PORT
      requires FIRST_PORT <= free <= LAST_PORT && PortFree(Value(), free)
      modifies this`port, this`active, this`pcbs
      ensures port == old(if pcbs[id].localPort == 0 then FirstFree(Value(), port, free) else port)
      ensures var chosen := old(if pcbs[id].localPort == 0 then FirstFree(Value(), port, free) else pcbs[id].localPort);
              var e := Connecting(id, chosen, ip, remotePort, sent, route);
              && Value() == old(Connect(Value(), id, chosen, ip, remotePort, sent, route))
              && (Unique(Value()) <==> !old(Taken(Value(), NewKey(pcbs[id], e))))
      ensures Axioms(Value())
      ensures old(pcbs[id].localPort) == 0 ==> Unique(Value())
    {
      hide Axioms, Unique, Lookup, PortFree, Taken;
      ghost var s := Value();
      var p := pcbs[id];
      if p.localPort == 0 {
        var chosen := TcpNewPort(free);
        p := p.(localPort := chosen);
        FreePortNotTaken(s, chosen, if sent then Routed(p.localIp, route) else p.localIp, ip, remotePort);
      }
      ghost var e := Connecting(id, p.localPort, ip, remotePort, sent, route);
      ConnectKeepsUnique(s, e);
      ConnectKeeps(s, id, p.localPort, ip, remotePort, sent, route);
      pcbs := pcbs[id := p.(state := SYN_SENT, remoteIp := ip, remotePort := remotePort)];
      active := [id] + active;
      if sent {
        OutputSegment(id, route);
      }
    }

    /** tcp_listen(). */
    method TcpListen(id: Id, newId: Found)
      requires Axioms(Value()) && id in pcbs && Fresh(Value(), newId)
      modifies this`listen, this`pcbs
      ensures Value() == old(Listen(Value(), id, newId))
      ensures Axioms(Value()) <==> old(pcbs[id].state) == if newId.Found? then CLOSED else LISTEN
    {
      hide Axioms;
      ListenKeeps(Value(), id, newId);
      var p := pcbs[id].(state := LISTEN);
      if newId == NotFound {
        pcbs := pcbs[id := p];
        return;
      }
      pcbs := (pcbs - {id})[newId.id := p];
      listen := [newId.id] + listen;
    }

    /** tcp_close(); sent says whether tcp_send_ctrl() could queue the FIN. */
    method TcpClose(id: Id, sent: bool)
      requires Axioms(Value()) && id in pcbs
      modifies this`listen, this`active, this`pcbs
      ensures Value() == old(Close(Value(), id, sent)) && Axioms(Value())
    {
      hide Axioms, Without;
      CloseKeeps(Value(), id, sent);
      match pcbs[id].state
      case LISTEN =>
        listen := Unlink(listen, id);
        pcbs := pcbs - {id};
      case SYN_SENT =>
        active := Unlink(active, id);
        pcbs := pcbs - {id};
      case SYN_RCVD =>
        if sent {
          pcbs := pcbs[id := pcbs[id].(state := FIN_WAIT_1)];
        }
      case ESTABLISHED =>
        if sent {
          pcbs := pcbs[id := pcbs[id].(state := FIN_WAIT_1)];
        }
      case CLOSE_WAIT =>
        if sent {
          pcbs := pcbs[id := pcbs[id].(state := LAST_ACK)];
        }
      case _ =>
    }

    /** tcp_slowtmr(): the loops that take PCBs off the active and the TIME-WAIT list. */
    method TcpSlowtmr(expired: set<Id>)
      modifies this`active, this`tw, this`pcbs
      ensures Value() == old(Tick(Value(), expired))
    {
      hide Sweep;
      ghost var s := Value();
      SweepActive(expired);
      assert active == Sweep(s.active, expired) && tw == s.tw;
      SweepTw(expired);
      assert pcbs == s.pcbs - set id | id in expired && (id in s.active || id in s.tw);
    }

    method SweepActive(expired: set<Id>)
      modifies this`active, this`pcbs
      ensures active == old(Sweep(active, expired))
      ensures pcbs == old(pcbs) - Gone(old(active), expired)
    {
      hide Sweep, Gone;
      SweepStart(old(active), expired);
      var i: nat := 0;
      ghost var n: nat := 0;
      while i < |active|
        invariant n <= |old(active)| && i <= |active|
        invariant active[i..] == old(active)[n..]
        invariant active[..i] + Sweep(active[i..], expired) == Sweep(old(active), expired)
        invariant pcbs == old(pcbs) - Gone(old(active)[..n], expired)
        decreases |active| - i
      {
        SweepStep(old(active), active, i, n, expired);
        GoneStep(old(active), n, expired, old(pcbs));
        if active[i] in expired {
          pcbs := pcbs - {active[i]};
          active := active[..i] + active[i + 1..];
        } else {
          i := i + 1;
        }
        n := n + 1;
      }
    }

    method SweepTw(expired: set<Id>)
      modifies this`tw, this`pcbs
      ensures tw == old(Sweep(tw, expired))
      ensures pcbs == old(pcbs) - Gone(old(tw), expired)
    {
      hide Sweep, Gone;
      SweepStart(old(tw), expired);
      var i: nat := 0;
      ghost var n: nat := 0;
      while i < |tw|
        invariant n <= |old(tw)| && i <= |tw|
        invariant tw[i..] == old(tw)[n..]
        invariant tw[..i] + Sweep(tw[i..], expired) == Sweep(old(tw), expired)
        invariant pcbs == old(pcbs) - Gone(old(tw)[..n], expired)
        decreases |tw| - i
      {
        SweepStep(old(tw), tw, i, n, expired);
        GoneStep(old(tw), n, expired, old(pcbs));
        if tw[i] in expired {
          pcbs := pcbs - {tw[i]};
          tw := tw[..i] + tw[i + 1..];
        } else {
          i := i + 1;
        }
        n := n + 1;
      }
    }
  }

  lemma NothingReordered(s: Stack, t: Tuple)
    requires Demux(s, t) == NotFound
    ensures Reordered(s, t) == s
  {
  }
}
