/** The moves of TCP PCBs between the three lists: SW_stub/lwtcp/tcp.c, tcp_input.c and the axioms of lwip/tcp.h. */
module PcbStates {
  import opened SeqNum
  import opened PcbLists

  /** An incoming segment: its addresses, its flags, and the outcomes of the comparisons tcp_process() makes between
      its sequence numbers and those of the PCB it is for. */
  datatype Segment = Segment(t: Tuple, syn: bool, fin: bool, rst: bool, ack: bool,
                             inWindow: bool,    // rcv_nxt <= seqno <= rcv_nxt + rcv_wnd
                             acksNext: bool,    // ackno == snd_nxt
                             acksSyn: bool,     // ackno == seqno of the first unacked segment + 1
                             acksNew: bool)     // lastack < ackno <= snd_nxt

  datatype Verdict = Stay | Go(state: State) | Reset | Spawn

  /** tcp_process(): what a segment makes of a PCB in each state. */
  function Process(state: State, g: Segment): Verdict {
    if g.rst then
      if state == LISTEN then Stay
      else if (if state == SYN_SENT then g.acksNext else g.inWindow) then Reset
      else Stay
    else
      match state
      case CLOSED => Stay
      case LISTEN => if !g.ack && g.syn then Spawn else Stay
      case SYN_SENT => if g.ack && g.syn && g.acksSyn then Go(ESTABLISHED) else Stay
      case SYN_RCVD => if g.ack && g.acksNew then Go(ESTABLISHED) else Stay
      case ESTABLISHED => if g.fin then Go(CLOSE_WAIT) else Stay
      case CLOSE_WAIT => if g.fin then Go(CLOSE_WAIT) else Stay
      case FIN_WAIT_1 =>
        if g.fin then (if g.ack && g.acksNext then Go(TIME_WAIT) else Go(CLOSING))
        else if g.ack && g.acksNext then Go(FIN_WAIT_2) else Stay
      case FIN_WAIT_2 => if g.fin then Go(TIME_WAIT) else Stay
      case CLOSING => if g.ack && g.acksNext then Go(TIME_WAIT) else Stay
      case LAST_ACK => if g.ack && g.acksNext then Go(CLOSED) else Stay
      case TIME_WAIT => Stay
  }

  function SetState(s: Stack, id: Id, state: State): (r: Stack)
    requires id in s.pcbs
  {
    s.(pcbs := s.pcbs[id := s.pcbs[id].(state := state)])
  }

  /** tcp_pcb_remove() from the active list, then memp_free(). */
  function DropActive(s: Stack, id: Id): Stack {
    s.(active := Without(s.active, id), pcbs := s.pcbs - {id})
  }

  function DropTw(s: Stack, id: Id): Stack {
    s.(tw := Without(s.tw, id), pcbs := s.pcbs - {id})
  }

  function DropListen(s: Stack, id: Id): Stack {
    s.(listen := Without(s.listen, id), pcbs := s.pcbs - {id})
  }

  /** A PCB created by a SYN to a listener. */
  function Child(listener: Pcb, t: Tuple): Pcb {
    Pcb(SYN_RCVD, t.dest, listener.localPort, t.src, t.srcPort)
  }

  /** What the verdict does to the lists. newId is the address tcp_new() returned, if it returned one. */
  function Apply(s: Stack, id: Id, v: Verdict, t: Tuple, newId: Found): Stack
    requires id in s.pcbs
  {
    match v
    case Stay => s
    case Reset => if s.pcbs[id].state == TIME_WAIT then DropTw(s, id) else DropActive(s, id)
    case Go(TIME_WAIT) => SetState(s.(active := Without(s.active, id), tw := [id] + s.tw), id, TIME_WAIT)
    case Go(CLOSED) => DropActive(s, id)
    case Go(state) => SetState(s, id, state)
    case Spawn =>
      if newId == NotFound then s
      else s.(active := [newId.id] + s.active, pcbs := s.pcbs[newId.id := Child(s.pcbs[id], t)])
  }

  /** The PCB a segment is for: an active connection, else one in TIME-WAIT, else a listener. */
  function Demux(s: Stack, t: Tuple): Found {
    if Lookup(s.active, ActiveTest(s.pcbs, t)) != NotFound then Lookup(s.active, ActiveTest(s.pcbs, t))
    else if Lookup(s.tw, ActiveTest(s.pcbs, t)) != NotFound then Lookup(s.tw, ActiveTest(s.pcbs, t))
    else Lookup(s.listen, ListenTest(s.pcbs, t))
  }

  /** The lists after the lookup: only the active list and the listen list are reordered. */
  function Reordered(s: Stack, t: Tuple): Stack {
    if Lookup(s.active, ActiveTest(s.pcbs, t)) != NotFound then
      s.(active := AfterLookup(s.active, ActiveTest(s.pcbs, t)))
    else if Lookup(s.tw, ActiveTest(s.pcbs, t)) != NotFound then s
    else s.(listen := AfterLookup(s.listen, ListenTest(s.pcbs, t)))
  }

  /** tcp_input() after the checksum test. */
  function Input(s: Stack, g: Segment, newId: Found): Stack {
    match Demux(s, g.t)
    case NotFound => s
    case Found(id) =>
      if id !in s.pcbs then s
      else Apply(Reordered(s, g.t), id, Process(s.pcbs[id].state, g), g.t, newId)
  }

  /** tcp_new(). */
  function New(s: Stack, id: Id): Stack {
    s.(pcbs := s.pcbs[id := Pcb(CLOSED, 0, 0, 0, 0)])
  }

  /** A PCB that tcp_bind() finds in the way of binding to an address and port. */
  predicate InUse(p: Pcb, ip: u32, port: u16) {
    p.localPort == port && (p.localIp == 0 || ip == 0 || p.localIp == ip)
  }

  function InUseTest(pcbs: map<Id, Pcb>, ip: u32, port: u16): Id -> bool {
    (id: Id) => id in pcbs && InUse(pcbs[id], ip, port)
  }

  /** tcp_bind() returns ERR_OK. */
  predicate BindOk(s: Stack, ip: u32, port: u16) {
    && Lookup(s.listen, InUseTest(s.pcbs, ip, port)) == NotFound
    && Lookup(s.active, InUseTest(s.pcbs, ip, port)) == NotFound
  }

  /** tcp_bind(): binding to the any-address leaves an address bound before in place. */
  function Bind(s: Stack, id: Id, ip: u32, port: u16): Stack
    requires id in s.pcbs
  {
    if !BindOk(s, ip, port) then s
    else
      var p := s.pcbs[id];
      s.(pcbs := s.pcbs[id := p.(localIp := if ip == 0 then p.localIp else ip, localPort := port)])
  }

  /** tcp_listen(): the PCB moves to the block newId of the pool of listening PCBs, if that pool has one left. */
  function Listen(s: Stack, id: Id, newId: Found): Stack
    requires id in s.pcbs
  {
    var p := s.pcbs[id].(state := LISTEN);
    if newId == NotFound then s.(pcbs := s.pcbs[id := p])
    else s.(listen := [newId.id] + s.listen, pcbs := (s.pcbs - {id})[newId.id := p])
  }

  /** The local address once a segment has gone out: tcp_output_segment() fills in that of ip_route()'s interface. */
  function Routed(localIp: u32, route: u32): u32 {
    if localIp == 0 then route else localIp
  }

  /** tcp_connect() to a given address; port is what the PCB is bound to or what tcp_new_port() chose, and sent says
      whether the SYN could be queued, in which case it goes out at once. */
  function Connect(s: Stack, id: Id, port: u16, ip: u32, remotePort: u16, sent: bool, route: u32): Stack
    requires id in s.pcbs
  {
    var localIp := if sent then Routed(s.pcbs[id].localIp, route) else s.pcbs[id].localIp;
    s.(active := [id] + s.active, pcbs := s.pcbs[id := Pcb(SYN_SENT, localIp, port, ip, remotePort)])
  }

  /** The first segment of a PCB that was connected without one. */
  function Output(s: Stack, id: Id, route: u32): Stack
    requires id in s.pcbs
  {
    s.(pcbs := s.pcbs[id := s.pcbs[id].(localIp := Routed(s.pcbs[id].localIp, route))])
  }

  /** tcp_close(); sent says whether the FIN could be queued. */
  function Close(s: Stack, id: Id, sent: bool): Stack
    requires id in s.pcbs
  {
    match s.pcbs[id].state
    case LISTEN => DropListen(s, id)
    case SYN_SENT => DropActive(s, id)
    case SYN_RCVD => if sent then SetState(s, id, FIN_WAIT_1) else s
    case ESTABLISHED => if sent then SetState(s, id, FIN_WAIT_1) else s
    case CLOSE_WAIT => if sent then SetState(s, id, LAST_ACK) else s
    case _ => s
  }

  /** tcp_abort(). */
  function Abort(s: Stack, id: Id): Stack
    requires id in s.pcbs
  {
    match s.pcbs[id].state
    case TIME_WAIT => DropTw(s, id)
    case LISTEN => DropListen(s, id)
    case _ => DropActive(s, id)
  }

  /** tcp_memp_reclaim() for a PCB: the first PCB in TIME-WAIT, else the least recently used active one. */
  function Reclaim(s: Stack, oldest: Found): Stack {
    if s.tw != [] then s.(tw := s.tw[1..], pcbs := s.pcbs - {s.tw[0]})
    else if oldest.Found? && oldest.id in s.active && oldest.id in s.pcbs then Abort(s, oldest.id)
    else s
  }

  /** tcp_slowtmr() removes the PCBs whose timers or retransmission counts have run out. */
  function Tick(s: Stack, expired: set<Id>): Stack {
    s.(active := Sweep(s.active, expired), tw := Sweep(s.tw, expired),
       pcbs := s.pcbs - set id | id in expired && (id in s.active || id in s.tw))
  }

  // ----- The axioms

  /** How often a PCB occurs in the three lists together. */
  function Places(s: Stack, id: Id): nat {
    multiset(s.listen)[id] + multiset(s.active)[id] + multiset(s.tw)[id]
  }

  predicate IsActive(state: State) {
    state != CLOSED && state != LISTEN && state != TIME_WAIT
  }

  /** The four axioms, with what tcp_input() and tcp_slowtmr() assert of the active list. */
  ghost predicate Axioms(s: Stack) {
    && (forall id :: id in s.pcbs && s.pcbs[id].state != CLOSED ==> Places(s, id) >= 1)
    && (forall id :: Places(s, id) <= 1)
    && (forall id :: id in s.listen ==> id in s.pcbs && s.pcbs[id].state == LISTEN)
    && (forall id :: id in s.tw ==> id in s.pcbs && s.pcbs[id].state == TIME_WAIT)
    && (forall id :: id in s.active ==> id in s.pcbs && IsActive(s.pcbs[id].state))
  }

  /** The axioms for one PCB: it is once in the list its state calls for, and nowhere else. */
  predicate Placed(s: Stack, id: Id) {
    && multiset(s.listen)[id] == (if id in s.pcbs && s.pcbs[id].state == LISTEN then 1 else 0)
    && multiset(s.tw)[id] == (if id in s.pcbs && s.pcbs[id].state == TIME_WAIT then 1 else 0)
    && multiset(s.active)[id] == (if id in s.pcbs && IsActive(s.pcbs[id].state) then 1 else 0)
  }

  /** The state of a PCB decides its list: the axioms hold exactly when every PCB is where its state puts it. */
  lemma AxiomsIffPlaced(s: Stack)
    ensures Axioms(s) <==> forall id :: Placed(s, id)
  {
    if forall id :: Placed(s, id) {
      forall id ensures Places(s, id) <= 1
                ensures id in s.pcbs && s.pcbs[id].state != CLOSED ==> Places(s, id) >= 1 {
        assert Placed(s, id);
      }
      forall id | id in s.listen || id in s.tw || id in s.active ensures id in s.pcbs
                ensures id in s.listen ==> s.pcbs[id].state == LISTEN
                ensures id in s.tw ==> s.pcbs[id].state == TIME_WAIT
                ensures id in s.active ==> IsActive(s.pcbs[id].state) {
        assert Placed(s, id);
        assert id in s.listen ==> multiset(s.listen)[id] > 0;
        assert id in s.tw ==> multiset(s.tw)[id] > 0;
        assert id in s.active ==> multiset(s.active)[id] > 0;
      }
    }
    if Axioms(s) {
      forall id ensures Placed(s, id) {
        PlacedByAxioms(s, id);
      }
    }
  }

  lemma PlacedByAxioms(s: Stack, id: Id)
    requires Axioms(s)
    ensures Placed(s, id)
  {
    assert Places(s, id) <= 1;
    assert id in s.listen <==> multiset(s.listen)[id] > 0;
    assert id in s.tw <==> multiset(s.tw)[id] > 0;
    assert id in s.active <==> multiset(s.active)[id] > 0;
  }
}
