/** The send fields of a PCB while its connection is being opened: tcp_new() and tcp_connect() in SW_stub/lwtcp/tcp.c,
    the LISTEN, SYN_SENT and SYN_RCVD branches of tcp_process() in tcp_input.c, and the SYN in tcp_output.c. */
module Handshake {
  import opened SeqNum
  import opened TcpSend
  import opened SendInvariant
  import opened SendRuns

  /** Where our SYN is. It carries no data and is a queue entry of one pbuf. */
  datatype Syn = NoSyn | Unsent(seqno: u32) | Unacked(seqno: u32)

  datatype Opening = Opening(lastAck: u32, sndLbb: u32, sndNxt: u32, sndMax: u32, sndBuf: u16, queueLen: u8, syn: Syn)

  /** The fields of a synchronised connection, with our SYN if it is still queued, or none yet. */
  datatype Established = Not | Established(st: State, syn: Syn)

  /** tcp_new() */
  function New(iss: u32): Opening {
    Opening(iss, iss, iss, iss, TCP_SND_BUF, 0, NoSyn)
  }

  /** tcp_enqueue() of a SYN with options: it takes a tcp_seg and a pbuf, and one byte of the send buffer. */
  function EnqueueSyn(o: Opening, fails: set<nat>): (Opening, bool) {
    if o.queueLen >= TCP_SND_QUEUELEN || 0 in fails || 1 in fails then (o, false)
    else
      var syn := Unsent(o.sndLbb);
      (o.(syn := syn, sndLbb := Wrap(o.sndLbb + 1), sndBuf := Wrap16(o.sndBuf - 1), queueLen := o.queueLen + 1), true)
  }

  /** tcp_output() of the SYN. */
  function OutputSyn(o: Opening, wnd: u32): Opening {
    if o.syn.Unsent? && Wrap(o.syn.seqno - o.lastAck) <= wnd then
      var nxt := Wrap(o.syn.seqno + 1);
      o.(syn := Unacked(o.syn.seqno), sndNxt := nxt, sndMax := if SeqLt(o.sndMax, nxt) then nxt else o.sndMax)
    else o
  }

  /** tcp_connect() with a new initial sequence number; the congestion window is 1. */
  function Connect(o: Opening, iss: u32, fails: set<nat>): Opening {
    var before := Wrap(iss - 1);
    var (o', ok) := EnqueueSyn(o.(sndNxt := iss, lastAck := before, sndLbb := before), fails);
    if ok then OutputSyn(o', 1) else o'
  }

  /** The LISTEN branch: a PCB for an incoming SYN answers with its own; the peer's window may be zero. */
  function Accept(iss: u32, wnd: u16, fails: set<nat>): Opening {
    OutputSyn(EnqueueSyn(New(iss), fails).0, if wnd < 1 then wnd else 1)
  }

  /** The SYN_SENT branch for a SYN|ACK, with the SYN unacknowledged. */
  function SynAckArrived(o: Opening, ackno: u32, mss: u16, sndWnd: u32, cwnd: u16): Established {
    if o.syn.Unacked? && ackno == Wrap(o.syn.seqno + 1) then
      var queueLen := (o.queueLen - 1) % 256;
      var st := State([], [], o.sndLbb, o.sndNxt, o.sndMax, ackno, o.sndBuf, queueLen, mss, sndWnd, cwnd, false, false);
      Established(st, NoSyn)
    else Not
  }

  /** The SYN_RCVD branch for an ACK, with the ACK processing of tcp_receive(). */
  function AckArrived(o: Opening, ackno: u32, mss: u16, sndWnd: u32, cwnd: u16): Established {
    if SeqLt(o.lastAck, ackno) && SeqLeq(ackno, o.sndNxt) then
      var taken := SeqLeq(ackno, o.sndMax);
      var dropped := taken && o.syn.Unacked? && SeqLeq(Wrap(o.syn.seqno + 1), ackno);
      Established(State([], [], o.sndLbb, o.sndNxt, o.sndMax,
                        if taken then ackno else o.lastAck,
                        if taken then Wrap16(o.sndBuf + Wrap16(ackno - o.lastAck)) else o.sndBuf,
                        if dropped then (o.queueLen - 1) % 256 else o.queueLen, mss, sndWnd, cwnd, false, false),
                  if dropped then NoSyn else o.syn)
    else Not
  }

  /** Fields of a PCB that are set while it opens. */
  class Pcb {
    var lastAck: u32
    var sndLbb: u32
    var sndNxt: u32
    var sndMax: u32
    var sndBuf: u16
    var queueLen: u8
    var syn: Syn

    function Value(): Opening
      reads this
    {
      Opening(lastAck, sndLbb, sndNxt, sndMax, sndBuf, queueLen, syn)
    }

    /** tcp_new() */
    constructor (iss: u32)
      ensures Value() == New(iss)
    {
      lastAck, sndLbb, sndNxt, sndMax := iss, iss, iss, iss;
      sndBuf, queueLen, syn := TCP_SND_BUF, 0, NoSyn;
    }

    /** tcp_enqueue() of the SYN: the fields are set only when both allocations succeeded. */
    method TcpEnqueueSyn(fails: set<nat>) returns (ok: bool)
      modifies this
      ensures (Value(), ok) == EnqueueSyn(old(Value()), fails)
    {
      if queueLen >= TCP_SND_QUEUELEN || 0 in fails || 1 in fails {
        return false;
      }
      syn := Unsent(sndLbb);
      sndLbb := Wrap(sndLbb + 1);
      sndBuf := Wrap16(sndBuf - 1);
      queueLen := queueLen + 1;
      ok := true;
    }

    /** tcp_output() while the SYN is the only segment. */
    method TcpOutputSyn(wnd: u32)
      modifies this
      ensures Value() == OutputSyn(old(Value()), wnd)
    {
      if syn.Unsent? && Wrap(syn.seqno - lastAck) <= wnd {
        sndNxt := Wrap(syn.seqno + 1);
        if SeqLt(sndMax, sndNxt) {
          sndMax := sndNxt;
        }
        syn := Unacked(syn.seqno);
      }
    }

    /** tcp_connect() */
    method TcpConnect(iss: u32, fails: set<nat>) returns (ok: bool)
      modifies this
      ensures Value() == Connect(old(Value()), iss, fails)
    {
      sndNxt, lastAck, sndLbb := iss, Wrap(iss - 1), Wrap(iss - 1);
      ok := TcpEnqueueSyn(fails);
      if ok {
        TcpOutputSyn(1);
      }
    }
  }

  /** What tcp_new() at iss0 and tcp_connect() at iss leave in snd_max. */
  function StartMax(iss0: u32, iss: u32): u32 {
    if Wrap(iss - iss0) <= TWO31 then iss else iss0
  }

  /** An active open. The peer's SYN|ACK is taken if and only if it acknowledges exactly our SYN, and the connection
      starts with 255 bytes of send buffer: the byte the SYN took is never given back. snd_max, which tcp_connect()
      does not reset, is left over from tcp_new() when the initial sequence number has moved by more than 2^31 in
      between; the send invariant holds if and only if it has not. */
  lemma ActiveOpen(iss0: u32, iss: u32, ackno: u32, mss: u16, sndWnd: u32, cwnd: u16)
    requires mss <= TCP_MSS
    ensures var e := SynAckArrived(Connect(New(iss0), iss, {}), ackno, mss, sndWnd, cwnd);
            && (e.Established? <==> ackno == iss)
            && (e.Established? ==>
                  && e.syn == NoSyn
                  && e.st == Fresh(iss, 255, mss, sndWnd, cwnd).(sndMax := StartMax(iss0, iss))
                  && ((exists v :: Inv(e.st, iss, [], v)) <==> Wrap(iss - iss0) <= TWO31))
  {
    hide Inv, SeqLt;
    OpenedActively(iss0, iss);
    var e := SynAckArrived(Connect(New(iss0), iss, {}), ackno, mss, sndWnd, cwnd);
    if e.Established? {
      if Wrap(iss - iss0) <= TWO31 {
        FreshOk(iss, 255, mss, sndWnd, cwnd);
      } else {
        forall v ensures !Inv(e.st, iss, [], v) {
          StaleMax(e.st, iss, v);
        }
      }
    }
  }

  lemma OpenedActively(iss0: u32, iss: u32)
    ensures Connect(New(iss0), iss, {})
              == Opening(Wrap(iss - 1), iss, iss, StartMax(iss0, iss), 255, 1, Unacked(Wrap(iss - 1)))
  {
    hide SeqLt;
    SeqLtMeans(iss0, iss);
    assert Wrap(Wrap(iss - 1) + 1) == iss;
  }

  lemma StaleMax(st: State, base: u32, v: View)
    requires st.sndMax != base && !st.closing
    ensures !Inv(st, base, [], v)
  {
  }

  /** A passive open. An ACK completes it if and only if it acknowledges exactly our SYN, and the connection starts
      with the whole send buffer, in a state that satisfies the send invariant. */
  lemma PassiveOpen(iss: u32, wnd: u16, ackno: u32, mss: u16, sndWnd: u32, cwnd: u16)
    requires mss <= TCP_MSS
    ensures var e := AckArrived(Accept(iss, wnd, {}), ackno, mss, sndWnd, cwnd);
            && (e.Established? <==> ackno == Wrap(iss + 1))
            && (e.Established? ==> e == Established(Fresh(iss + 1, 256, mss, sndWnd, cwnd), NoSyn))
    ensures Inv(Fresh(iss + 1, 256, mss, sndWnd, cwnd), iss + 1, [], View(0, 0, 0, 256))
  {
    hide SeqLt, SeqLeq, Inv;
    FreshOk(iss + 1, 256, mss, sndWnd, cwnd);
    var next := Wrap(iss + 1);
    SeqLtMeans(iss, next);
    assert Accept(iss, wnd, {}) == Opening(iss, next, next, next, 255, 1, Unacked(iss));
    OnlyNext(iss, ackno);
  }

  /** The two comparisons of the SYN_RCVD branch leave one number. */
  lemma OnlyNext(iss: u32, ackno: u32)
    ensures SeqLt(iss, ackno) && SeqLeq(ackno, Wrap(iss + 1)) <==> ackno == Wrap(iss + 1)
    ensures SeqLeq(Wrap(iss + 1), Wrap(iss + 1))
  {
    hide SeqLt, SeqLeq, Wrap;
    SeqLtMeans(iss, ackno);
    SeqLeqMeans(ackno, Wrap(iss + 1));
    Further(ackno, iss, Wrap(iss + 1), 1);
    SeqLeqMeans(Wrap(iss + 1), Wrap(iss + 1));
    WrapDiff(Wrap(iss + 1), Wrap(iss + 1));
    WrapDiff(ackno, Wrap(iss + 1));
  }

  /** When the SYN of a passive open could not be queued, no SYN is sent, and yet one ACK number, 2^31 ahead of the
      initial sequence number, completes the connection. */
  lemma FailedAccept(iss: u32, wnd: u16, fails: set<nat>, ackno: u32, mss: u16, sndWnd: u32, cwnd: u16)
    requires 0 in fails || 1 in fails
    ensures Accept(iss, wnd, fails).syn == NoSyn
    ensures AckArrived(Accept(iss, wnd, fails), ackno, mss, sndWnd, cwnd).Established? <==> Wrap(ackno - iss) == TWO31
  {
    hide SeqLt;
    SeqLtMeans(iss, ackno);
  }
}
