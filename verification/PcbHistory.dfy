/** What must have happened, number by number, before a TCP PCB of SW_stub/lwtcp can carry data: the PCB lists with the
    sequence fields of the PCBs that are being opened. */
module PcbHistory {
  import opened SeqNum
  import opened PcbLists
  import opened PcbStates
  import PR = PcbRuns
  import H = Handshake

  /** The lists, and of each PCB that tcp_new() has returned the send fields as its opening leaves them. */
  datatype Host = Host(s: Stack, open: map<Id, H.Opening>)

  const START := Host(PR.EMPTY, map[])

  /**
   The initial sequence numbers are those tcp_next_iss() returns, fails says which allocations of our SYN fail, and
   ackno, wnd and the flags are those of the arriving segment.  Other stands for every event that involves no number.
   */
  datatype Event =
    | Opened(id: Id, iss: u32)
    | Connecting(id: Id, port: u16, ip: u32, remotePort: u16, route: u32, iss: u32, fails: set<nat>)
    | Arrived(g: Segment, ackno: u32, newId: Found, iss: u32, wnd: u16, fails: set<nat>)
    | Other(e: PR.Event)

  predicate Queued(fails: set<nat>) {
    0 !in fails && 1 !in fails
  }

  predicate IsOpening(state: State) {
    state == SYN_SENT || state == SYN_RCVD
  }

  /** The comparisons that tcp_process() makes for a PCB that is being opened. */
  function Compared(g: Segment, ackno: u32, o: H.Opening): Segment {
    g.(acksNext := ackno == o.sndNxt,
       acksSyn := o.syn.Unacked? && ackno == Wrap(o.syn.seqno + 1),
       acksNew := SeqLt(o.lastAck, ackno) && SeqLeq(ackno, o.sndNxt))
  }

  function Seen(h: Host, g: Segment, ackno: u32): Segment {
    match Demux(h.s, g.t)
    case NotFound => g
    case Found(id) =>
      if id in h.s.pcbs && id in h.open && IsOpening(h.s.pcbs[id].state) then Compared(g, ackno, h.open[id]) else g
  }

  /** The event as the lists see it. */
  function Plain(h: Host, e: Event): PR.Event {
    match e
    case Opened(id, _) => PR.Opened(id)
    case Connecting(id, port, ip, remotePort, route, _, fails) =>
      PR.Connecting(id, port, ip, remotePort, Queued(fails), route)
    case Arrived(g, ackno, newId, _, _, _) => PR.Arrived(Seen(h, g, ackno), newId)
    case Other(e) => e
  }

  predicate Sane(h: Host, e: Event) {
    && PR.Sane(h.s, Plain(h, e))
    && (e.Other? ==> !e.e.Opened? && !e.e.Connecting? && !e.e.Arrived?)
    && (e.Connecting? ==> e.id in h.open)
  }

  function Step(h: Host, e: Event): Host
    requires Sane(h, e)
  {
    var s := PR.Step(h.s, Plain(h, e));
    match e
    case Opened(id, iss) => Host(s, h.open[id := H.New(iss)])
    case Connecting(id, _, _, _, _, iss, fails) => Host(s, h.open[id := H.Connect(h.open[id], iss, fails)])
    case Arrived(_, _, newId, iss, wnd, fails) =>
      if newId.Found? && newId.id in s.pcbs && newId.id !in h.s.pcbs then
        Host(s, h.open[newId.id := H.Accept(iss, wnd, fails)])
      else Host(s, h.open)
    case Other(_) => Host(s, h.open)
  }

  predicate SaneRun(es: seq<Event>)
    decreases |es|, 0
  {
    es == [] || (SaneRun(es[..|es| - 1]) && Sane(Run(es[..|es| - 1]), es[|es| - 1]))
  }

  /** The host after a run from tcp_init() on. */
  function Run(es: seq<Event>): Host
    requires SaneRun(es)
    decreases |es|, 1
  {
    if es == [] then START else Step(Run(es[..|es| - 1]), es[|es| - 1])
  }

  // ----- One step

  /** Data can come and go. */
  predicate Carries(state: State) {
    state == ESTABLISHED || state == CLOSE_WAIT
  }

  /** The segment completes the opening of a PCB in the given state, by the comparisons made for it. */
  predicate Completes(state: State, g: Segment) {
    && !g.rst && g.ack
    && ((state == SYN_SENT && g.syn && g.acksSyn) || (state == SYN_RCVD && g.acksNew))
  }

  /** Where the PCB at an address after an event comes from. */
  predicate From(s: Stack, e: PR.Event, id: Id, state: State) {
    || (id in s.pcbs && s.pcbs[id].state == state)
    || match state
       case CLOSED => e == PR.Opened(id) && id !in s.pcbs
       case SYN_SENT => e.Connecting? && e.id == id && id in s.pcbs && s.pcbs[id].state == CLOSED
       case SYN_RCVD => e.Arrived? && e.newId == Found(id) && id !in s.pcbs
       case ESTABLISHED =>
         e.Arrived? && id in s.pcbs && Demux(s, e.g.t) == Found(id) && Completes(s.pcbs[id].state, e.g)
       case CLOSE_WAIT => id in s.pcbs && s.pcbs[id].state == ESTABLISHED
       case _ => true
  }

  lemma ApplyFrom(s: Stack, k: Id, v: Verdict, t: Tuple, newId: Found, id: Id)
    requires k in s.pcbs && PR.Fresh(s, newId) && id in Apply(s, k, v, t, newId).pcbs
    ensures var p := Apply(s, k, v, t, newId).pcbs[id];
            if id !in s.pcbs then newId == Found(id) && p.state == SYN_RCVD
            else p.state == s.pcbs[id].state || (id == k && v == Go(p.state) && p.state != CLOSED)
  {
    hide Without;
  }

  lemma ProcessGoes(state: State, g: Segment)
    ensures match Process(state, g)
            case Go(CLOSED) => state == LAST_ACK
            case Go(LISTEN) => false
            case Go(SYN_SENT) => false
            case Go(SYN_RCVD) => false
            case Go(ESTABLISHED) => Completes(state, g)
            case Go(CLOSE_WAIT) => Carries(state)
            case _ => true
  {
  }

  lemma InputFrom(s: Stack, g: Segment, newId: Found, id: Id)
    requires Axioms(s) && PR.Fresh(s, newId) && id in Input(s, g, newId).pcbs
    ensures From(s, PR.Arrived(g, newId), id, Input(s, g, newId).pcbs[id].state)
  {
    hide Axioms, Demux, Lookup, AfterLookup, Process, Apply, Completes;
    PR.DemuxIs(s, g.t);
    var d := Demux(s, g.t);
    if d.Found? {
      ProcessGoes(s.pcbs[d.id].state, g);
      ApplyFrom(Reordered(s, g.t), d.id, Process(s.pcbs[d.id].state, g), g.t, newId, id);
    }
  }

  lemma StepFrom(s: Stack, e: PR.Event, id: Id)
    requires Axioms(s) && PR.Sane(s, e) && id in PR.Step(s, e).pcbs
    ensures From(s, e, id, PR.Step(s, e).pcbs[id].state)
  {
    hide Axioms, Input, Sweep, Without, Lookup, Demux, Completes;
    if e.Arrived? {
      InputFrom(s, e.g, e.newId, id);
    }
  }

  // ----- The history of a PCB

  /** The PCB has been there ever since event b. */
  ghost predicate Lives(es: seq<Event>, b: int, id: Id) {
    forall k :: 0 <= b < k <= |es| ==> SaneRun(es[..k]) && id in Run(es[..k]).s.pcbs
  }

  /** Event b sends the SYN of this PCB, or accepts that of its peer. */
  ghost predicate OpenedBy(es: seq<Event>, b: int, id: Id) {
    && 0 <= b < |es| && Lives(es, b, id) && SaneRun(es[..b])
    && match es[b]
       case Connecting(k, _, _, _, _, _, _) => k == id
       case Arrived(_, _, newId, _, _, _) => newId == Found(id) && id !in Run(es[..b]).s.pcbs
       case _ => false
  }

  /** The segment answers the SYN of the event that opened its PCB: its ACK number is one past that of our SYN; or our
      SYN could not be queued when the PCB was accepted, and the number is 2^31 ahead. */
  predicate Answers(opening: Event, e: Event) {
    && e.Arrived? && !e.g.rst && e.g.ack
    && match opening
       case Connecting(_, _, _, _, _, iss, fails) => Queued(fails) && e.g.syn && e.ackno == iss
       case Arrived(_, _, _, iss, _, fails) =>
         if Queued(fails) then e.ackno == Wrap(iss + 1) else Wrap(e.ackno - iss) == TWO31
       case _ => false
  }

  /** Event b opened the PCB, and the later segment w, which was for this PCB, answered. */
  ghost predicate Completed(es: seq<Event>, b: int, w: int, id: Id) {
    && OpenedBy(es, b, id) && b < w < |es| && Answers(es[b], es[w])
    && SaneRun(es[..w]) && Demux(Run(es[..w]).s, es[w].g.t) == Found(id)
  }

  /** What is known of one PCB. */
  ghost predicate Told(es: seq<Event>, h: Host, id: Id) {
    id in h.s.pcbs ==>
      match h.s.pcbs[id].state
      case CLOSED => id in h.open && h.open[id].syn == H.NoSyn && h.open[id].queueLen == 0
      case SYN_SENT =>
        && id in h.open
        && exists b :: OpenedBy(es, b, id) && es[b].Connecting?
                       && h.open[id].syn == if Queued(es[b].fails) then H.Unacked(Wrap(es[b].iss - 1)) else H.NoSyn
      case SYN_RCVD =>
        && id in h.open
        && exists b :: OpenedBy(es, b, id) && es[b].Arrived?
                       && h.open[id] == H.Accept(es[b].iss, es[b].wnd, es[b].fails)
      case ESTABLISHED => exists b, w :: Completed(es, b, w, id)
      case CLOSE_WAIT => exists b, w :: Completed(es, b, w, id)
      case _ => true
  }

  lemma RunSnoc(es: seq<Event>, e: Event)
    requires SaneRun(es + [e])
    ensures SaneRun(es) && Sane(Run(es), e) && Run(es + [e]) == Step(Run(es), e)
  {
    assert (es + [e])[..|es|] == es;
  }

  lemma SamePast(es: seq<Event>, e: Event, k: int)
    requires 0 <= k <= |es|
    ensures (es + [e])[..k] == es[..k] && (es + [e])[..|es| + 1] == es + [e]
  {
  }

  lemma LivesOn(es: seq<Event>, e: Event, b: int, id: Id)
    requires 0 <= b <= |es| && Lives(es, b, id) && SaneRun(es + [e]) && id in Run(es + [e]).s.pcbs
    ensures Lives(es + [e], b, id)
  {
    hide Run, SaneRun;
    var es' := es + [e];
    forall k | b < k <= |es'| ensures SaneRun(es'[..k]) && id in Run(es'[..k]).s.pcbs {
      if k <= |es| {
        SamePast(es, e, k);
      } else {
        SamePast(es, e, |es|);
      }
    }
  }

  lemma OpenedOn(es: seq<Event>, e: Event, b: int, id: Id)
    requires OpenedBy(es, b, id) && SaneRun(es + [e]) && id in Run(es + [e]).s.pcbs
    ensures OpenedBy(es + [e], b, id) && (es + [e])[b] == es[b]
  {
    hide Run, SaneRun, Lives;
    LivesOn(es, e, b, id);
    SamePast(es, e, b);
  }

  lemma CompletedOn(es: seq<Event>, e: Event, b: int, w: int, id: Id)
    requires Completed(es, b, w, id) && SaneRun(es + [e]) && id in Run(es + [e]).s.pcbs
    ensures Completed(es + [e], b, w, id)
  {
    hide Run, SaneRun, Lives, Answers;
    OpenedOn(es, e, b, id);
    SamePast(es, e, w);
  }

  /** The last event opens the PCB. */
  lemma OpenedNow(es: seq<Event>, e: Event, id: Id)
    requires SaneRun(es) && SaneRun(es + [e]) && id in Run(es + [e]).s.pcbs
    requires match e
             case Connecting(k, _, _, _, _, _, _) => k == id
             case Arrived(_, _, newId, _, _, _) => newId == Found(id) && id !in Run(es).s.pcbs
             case _ => false
    ensures OpenedBy(es + [e], |es|, id) && (es + [e])[|es|] == e
  {
    hide Run, SaneRun;
    SamePast(es, e, |es|);
    assert (es + [e])[..|es|] == es[..|es|] == es;
  }

  lemma {:induction false} RunAxioms(es: seq<Event>)
    requires SaneRun(es)
    ensures Axioms(Run(es).s)
    decreases |es|
  {
    hide Axioms, Step, Plain, PR.Sane;
    if es == [] {
      assert Axioms(PR.EMPTY) by { NothingYet(); }
    } else {
      var init, e := es[..|es| - 1], es[|es| - 1];
      RunAxioms(init);
      StepIs(Run(init), e);
      PR.StepKeeps(Run(init).s, Plain(Run(init), e));
    }
  }

  lemma NothingYet()
    ensures Axioms(PR.EMPTY)
  {
  }

  lemma StepIs(h: Host, e: Event)
    requires Sane(h, e)
    ensures Step(h, e).s == PR.Step(h.s, Plain(h, e))
  {
    hide PR.Step, PR.Sane;
  }

  /** Which send fields change. */
  lemma OpenIs(h: Host, e: Event, id: Id)
    requires Sane(h, e)
    ensures var h' := Step(h, e);
            match e
            case Opened(k, iss) =>
              && (k == id ==> id in h'.open && h'.open[id] == H.New(iss))
              && (k != id && id in h.open ==> id in h'.open && h'.open[id] == h.open[id])
            case Connecting(k, _, _, _, _, iss, fails) =>
              && (k == id ==> id in h.open && id in h'.open && h'.open[id] == H.Connect(h.open[id], iss, fails))
              && (k != id && id in h.open ==> id in h'.open && h'.open[id] == h.open[id])
            case Arrived(_, _, newId, iss, wnd, fails) =>
              && (newId == Found(id) && id in h'.s.pcbs && id !in h.s.pcbs ==>
                    id in h'.open && h'.open[id] == H.Accept(iss, wnd, fails))
              && (id in h.s.pcbs && id in h.open ==> id in h'.open && h'.open[id] == h.open[id])
            case Other(_) => h'.open == h.open
  {
    hide PR.Step, PR.Sane, Plain, H.New, H.Connect, H.Accept;
  }

  lemma ConnectSyn(o: H.Opening, iss: u32, fails: set<nat>)
    requires o.syn == H.NoSyn && o.queueLen == 0
    ensures H.Connect(o, iss, fails).syn == if Queued(fails) then H.Unacked(Wrap(iss - 1)) else H.NoSyn
  {
  }

  lemma AcceptNumbers(iss: u32, wnd: u16, fails: set<nat>, ackno: u32)
    ensures var o := H.Accept(iss, wnd, fails);
            SeqLt(o.lastAck, ackno) && SeqLeq(ackno, o.sndNxt) <==>
            if Queued(fails) then ackno == Wrap(iss + 1) else Wrap(ackno - iss) == TWO31
  {
    hide H.Accept, SeqLt, SeqLeq;
    var o := H.Accept(iss, wnd, fails);
    assert H.AckArrived(o, ackno, 0, 0, 0).Established? <==> SeqLt(o.lastAck, ackno) && SeqLeq(ackno, o.sndNxt);
    if Queued(fails) {
      FailsIgnored(iss, wnd, fails);
      H.PassiveOpen(iss, wnd, ackno, 0, 0, 0);
    } else {
      H.FailedAccept(iss, wnd, fails, ackno, 0, 0, 0);
    }
  }

  lemma FailsIgnored(iss: u32, wnd: u16, fails: set<nat>)
    requires Queued(fails)
    ensures H.Accept(iss, wnd, fails) == H.Accept(iss, wnd, {})
  {
    hide SeqLt;
  }

  lemma OpenKept(h: Host, e: Event, id: Id)
    requires Sane(h, e) && id in h.s.pcbs && id in h.open && !(e.Connecting? && e.id == id)
    ensures id in Step(h, e).open && Step(h, e).open[id] == h.open[id]
  {
    hide Step, PR.Step, H.New, H.Connect, H.Accept, Seen;
    OpenIs(h, e, id);
  }

  lemma ToldClosed(es: seq<Event>, e: Event, id: Id)
    requires SaneRun(es) && SaneRun(es + [e]) && Told(es, Run(es), id)
    requires id in Run(es + [e]).s.pcbs && Run(es + [e]).s.pcbs[id].state == CLOSED
    requires From(Run(es).s, Plain(Run(es), e), id, CLOSED)
    ensures Told(es + [e], Run(es + [e]), id)
  {
    hide Run, SaneRun, Step, H.Connect, H.Accept, PR.Step, Lives, Completed;
    RunSnoc(es, e);
    OpenIs(Run(es), e, id);
    if e.Connecting? {
      ConnectingIs(Run(es), e);
    }
  }

  lemma ConnectingIs(h: Host, e: Event)
    requires Sane(h, e) && e.Connecting?
    ensures e.id in Step(h, e).s.pcbs && Step(h, e).s.pcbs[e.id].state == SYN_SENT
  {
    hide H.Connect;
  }

  lemma ToldSynSent(es: seq<Event>, e: Event, id: Id)
    requires SaneRun(es) && SaneRun(es + [e]) && Told(es, Run(es), id)
    requires id in Run(es + [e]).s.pcbs && Run(es + [e]).s.pcbs[id].state == SYN_SENT
    requires From(Run(es).s, Plain(Run(es), e), id, SYN_SENT)
    ensures Told(es + [e], Run(es + [e]), id)
  {
    hide Run, SaneRun, Step, H.Connect, H.Accept, PR.Step, Lives, Completed, Seen;
    RunSnoc(es, e);
    var h := Run(es);
    if h.s.pcbs[id].state == SYN_SENT {
      var b :| OpenedBy(es, b, id) && es[b].Connecting?
               && h.open[id].syn == if Queued(es[b].fails) then H.Unacked(Wrap(es[b].iss - 1)) else H.NoSyn;
      OpenKept(h, e, id);
      OpenedOn(es, e, b, id);
    } else {
      OpenIs(h, e, id);
      ConnectSyn(h.open[id], e.iss, e.fails);
      OpenedNow(es, e, id);
    }
  }

  lemma ToldSynRcvd(es: seq<Event>, e: Event, id: Id)
    requires SaneRun(es) && SaneRun(es + [e]) && Told(es, Run(es), id)
    requires id in Run(es + [e]).s.pcbs && Run(es + [e]).s.pcbs[id].state == SYN_RCVD
    requires From(Run(es).s, Plain(Run(es), e), id, SYN_RCVD)
    ensures Told(es + [e], Run(es + [e]), id)
  {
    hide Run, SaneRun, Step, H.Connect, H.Accept, PR.Step, Lives, Completed, Seen;
    RunSnoc(es, e);
    var h := Run(es);
    if id in h.s.pcbs {
      var b :| OpenedBy(es, b, id) && es[b].Arrived? && h.open[id] == H.Accept(es[b].iss, es[b].wnd, es[b].fails);
      OpenKept(h, e, id);
      OpenedOn(es, e, b, id);
    } else {
      OpenIs(h, e, id);
      OpenedNow(es, e, id);
    }
  }

  /** The comparisons made for a PCB that is being opened come to one number. */
  lemma ComparedIs(state: State, g: Segment, ackno: u32, o: H.Opening, opening: Event, e: Event)
    requires e.Arrived? && e.g == g && e.ackno == ackno
    requires match state
             case SYN_SENT =>
               && opening.Connecting?
               && o.syn == if Queued(opening.fails) then H.Unacked(Wrap(opening.iss - 1)) else H.NoSyn
             case SYN_RCVD => opening.Arrived? && o == H.Accept(opening.iss, opening.wnd, opening.fails)
             case _ => false
    ensures Completes(state, Compared(g, ackno, o)) <==> Answers(opening, e)
  {
    hide SeqLt, SeqLeq, H.Accept;
    if state == SYN_RCVD {
      AcceptNumbers(opening.iss, opening.wnd, opening.fails, ackno);
    }
  }

  /** Of a PCB that is being opened, the event that opened it; and when a segment completes the opening. */
  lemma OpeningIs(es: seq<Event>, e: Event, id: Id) returns (b: int)
    requires SaneRun(es) && Told(es, Run(es), id) && e.Arrived? && Demux(Run(es).s, e.g.t) == Found(id)
    requires id in Run(es).s.pcbs && IsOpening(Run(es).s.pcbs[id].state)
    ensures OpenedBy(es, b, id)
    ensures Completes(Run(es).s.pcbs[id].state, Seen(Run(es), e.g, e.ackno)) <==> Answers(es[b], e)
  {
    hide Run, SaneRun, H.Accept, Lives, Completes, Answers, Compared, Completed;
    var h := Run(es);
    var o := h.open[id];
    if h.s.pcbs[id].state == SYN_SENT {
      b :| OpenedBy(es, b, id) && es[b].Connecting?
           && o.syn == if Queued(es[b].fails) then H.Unacked(Wrap(es[b].iss - 1)) else H.NoSyn;
    } else {
      b :| OpenedBy(es, b, id) && es[b].Arrived? && o == H.Accept(es[b].iss, es[b].wnd, es[b].fails);
    }
    ComparedIs(h.s.pcbs[id].state, e.g, e.ackno, o, es[b], e);
  }

  lemma CompletedNow(es: seq<Event>, e: Event, id: Id) returns (b: int)
    requires SaneRun(es) && SaneRun(es + [e]) && Told(es, Run(es), id)
    requires id in Run(es + [e]).s.pcbs && id in Run(es).s.pcbs && e.Arrived?
    requires Demux(Run(es).s, e.g.t) == Found(id)
    requires Completes(Run(es).s.pcbs[id].state, Seen(Run(es), e.g, e.ackno))
    ensures Completed(es + [e], b, |es|, id)
  {
    hide Run, SaneRun, Lives, Told, Seen, Answers;
    SamePast(es, e, |es|);
    assert (es + [e])[..|es|] == es[..|es|] == es;
    b := OpeningIs(es, e, id);
    OpenedOn(es, e, b, id);
  }

  lemma InputOpens(s: Stack, g: Segment, newId: Found, id: Id)
    requires PR.Fresh(s, newId) && Demux(s, g.t) == Found(id) && id in s.pcbs && IsOpening(s.pcbs[id].state)
    ensures var s' := Input(s, g, newId);
            && ((id in s'.pcbs && s'.pcbs[id].state == ESTABLISHED) <==> Completes(s.pcbs[id].state, g))
            && (!Completes(s.pcbs[id].state, g) && !g.rst ==> s'.pcbs == s.pcbs)
  {
    hide Demux, Lookup, AfterLookup, Without;
  }

  /** A segment that reaches a PCB that is being opened establishes the connection exactly when it answers; any other
      without RST leaves the PCB as it was. */
  lemma EstablishedExactly(es: seq<Event>, e: Event, id: Id) returns (b: int)
    requires SaneRun(es) && Sane(Run(es), e) && e.Arrived? && Demux(Run(es).s, e.g.t) == Found(id)
    requires id in Run(es).s.pcbs && IsOpening(Run(es).s.pcbs[id].state)
    ensures OpenedBy(es, b, id)
    ensures var h' := Step(Run(es), e);
            && ((id in h'.s.pcbs && h'.s.pcbs[id].state == ESTABLISHED) <==> Answers(es[b], e))
            && (!Answers(es[b], e) && !e.g.rst ==> h'.s.pcbs == Run(es).s.pcbs)
  {
    hide Run, SaneRun, Lives, Told, Seen, Answers, Completes, Input;
    AllTold(es, id);
    b := OpeningIs(es, e, id);
    SeenSame(Run(es), e.g, e.ackno);
    PlainSane(Run(es), e);
    InputOpens(Run(es).s, Seen(Run(es), e.g, e.ackno), e.newId, id);
  }

  lemma ToldCarries(es: seq<Event>, e: Event, id: Id)
    requires SaneRun(es) && SaneRun(es + [e]) && Told(es, Run(es), id)
    requires id in Run(es + [e]).s.pcbs && Carries(Run(es + [e]).s.pcbs[id].state)
    requires From(Run(es).s, Plain(Run(es), e), id, Run(es + [e]).s.pcbs[id].state)
    ensures Told(es + [e], Run(es + [e]), id)
  {
    hide Run, SaneRun, PR.Step, PR.Sane, Step, Lives, Completed, Seen, Completes;
    RunSnoc(es, e);
    var h := Run(es);
    if Carries(h.s.pcbs[id].state) {
      var b, w :| Completed(es, b, w, id);
      CompletedOn(es, e, b, w, id);
    } else {
      SeenSame(h, e.g, e.ackno);
      var b := CompletedNow(es, e, id);
    }
  }

  lemma SeenSame(h: Host, g: Segment, ackno: u32)
    ensures Seen(h, g, ackno).t == g.t && Seen(h, g, ackno).rst == g.rst && Seen(h, g, ackno).ack == g.ack
  {
  }

  lemma ToldStep(es: seq<Event>, e: Event, id: Id)
    requires SaneRun(es + [e]) && SaneRun(es) && Told(es, Run(es), id)
    ensures Told(es + [e], Run(es + [e]), id)
  {
    hide Run, SaneRun, Axioms, PR.Step, PR.Sane, Sane, From, Lives, Completed, Seen;
    RunSnoc(es, e);
    var h, h' := Run(es), Run(es + [e]);
    if id in h'.s.pcbs {
      RunAxioms(es);
      PlainSane(h, e);
      StepFrom(h.s, Plain(h, e), id);
      match h'.s.pcbs[id].state {
        case CLOSED => ToldClosed(es, e, id);
        case SYN_SENT => ToldSynSent(es, e, id);
        case SYN_RCVD => ToldSynRcvd(es, e, id);
        case ESTABLISHED => ToldCarries(es, e, id);
        case CLOSE_WAIT => ToldCarries(es, e, id);
        case _ =>
      }
    }
  }

  lemma PlainSane(h: Host, e: Event)
    requires Sane(h, e)
    ensures PR.Sane(h.s, Plain(h, e)) && Step(h, e).s == PR.Step(h.s, Plain(h, e))
  {
    hide PR.Sane, PR.Step;
  }

  lemma {:induction false} AllTold(es: seq<Event>, id: Id)
    requires SaneRun(es)
    ensures Told(es, Run(es), id)
    decreases |es|
  {
    hide Told, Step, Sane;
    if es == [] {
      assert Told([], START, id) by { NobodyYet(id); }
    } else {
      AllTold(es[..|es| - 1], id);
      assert es[..|es| - 1] + [es[|es| - 1]] == es;
      ToldStep(es[..|es| - 1], es[|es| - 1], id);
    }
  }

  lemma NobodyYet(id: Id)
    ensures Told([], START, id)
  {
  }

  /** In every run from tcp_init() on: a PCB in a state that carries data was opened by one event and completed by a
      later one, a segment for that PCB whose number is one past that of the SYN it sent. There is one exception: the
      SYN of an accepted connection that could not be queued, which is never sent, is taken for acknowledged by a
      number 2^31 ahead of its own. */
  lemma HandshakeFirst(es: seq<Event>, id: Id)
    requires SaneRun(es) && id in Run(es).s.pcbs && Carries(Run(es).s.pcbs[id].state)
    ensures exists b, w :: Completed(es, b, w, id)
  {
    hide Run, SaneRun, Completed;
    AllTold(es, id);
  }
}
