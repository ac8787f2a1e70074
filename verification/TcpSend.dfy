/**
 The send side of a synchronised connection: tcp_write()/tcp_close() through tcp_enqueue(), tcp_output(), the
 processing of ACKs for new data in tcp_receive(), and the retransmission step of tcp_slowtmr().
 */
module TcpSend {
  import opened SeqNum

  const TCP_SND_BUF := 256
  const TCP_SND_QUEUELEN := 8
  const TCP_MSS := 128

  /** A queued segment: data are the bytes its pbuf chain carries, pbufs the length of that chain. */
  datatype Segment = Segment(seqno: u32, len: u16, fin: bool, data: seq<byte>, pbufs: u8)

  /** TCP_TCPLEN */
  function TcpLen(s: Segment): nat {
    s.len + if s.fin then 1 else 0
  }

  /** The send fields of a struct tcp_pcb; closing says that a FIN has been queued (FIN_WAIT_1, LAST_ACK, ...). */
  datatype State = State(
    unsent: seq<Segment>, unacked: seq<Segment>,
    sndLbb: u32, sndNxt: u32, sndMax: u32, lastAck: u32,
    sndBuf: u16, queueLen: u8, mss: u16, sndWnd: u32, cwnd: u16,
    ackNow: bool, closing: bool)

  // ----- tcp_enqueue()

  datatype Built = NoMemory | Built(queue: seq<Segment>, queueLen: u8)

  /**
   The segmentation loop, with left still to be cut up and n allocations made so far; fails says which allocations
   return NULL.  A segment takes one for the tcp_seg, one for the pbuf and, when not copying, one for a header pbuf.
   */
  function Build(left: seq<byte>, fin: bool, copy: bool, mss: u16, seqno: u32, queueLen: u8, n: nat,
                 fails: set<nat>): Built
    requires queueLen <= TCP_SND_QUEUELEN
    decreases TCP_SND_QUEUELEN + 1 - queueLen
  {
    var seglen: u16 := if |left| > mss then mss else |left|;
    var pbufs := if copy then 1 else 2;
    if n in fails || n + 1 in fails || (!copy && n + 2 in fails) then NoMemory
    else if queueLen + pbufs > TCP_SND_QUEUELEN then NoMemory
    else
      var seg := Segment(seqno, seglen, fin, left[..seglen], pbufs);
      if |left| == seglen then Built([seg], queueLen + pbufs)
      else
        match Build(left[seglen..], fin, copy, mss, Wrap(seqno + seglen), queueLen + pbufs, n + 1 + pbufs, fails)
        case NoMemory => NoMemory
        case Built(rest, len) => Built([seg] + rest, len)
  }

  /** Whether the first new segment is chained onto the last unsent one. */
  predicate Merges(unsent: seq<Segment>, fin: bool, first: Segment, mss: u16) {
    && unsent != []
    && var useg := unsent[|unsent| - 1];
       TcpLen(useg) != 0 && !useg.fin && !fin && useg.len + first.len <= mss
  }

  /** useg with the pbuf chain of first appended to its own. */
  function Chained(useg: Segment, first: Segment): Segment
    requires useg.len + first.len < TWO16
  {
    Segment(useg.seqno, useg.len + first.len, useg.fin, useg.data + first.data, (useg.pbufs + first.pbufs) % 256)
  }

  function Append(unsent: seq<Segment>, fin: bool, queue: seq<Segment>, mss: u16): seq<Segment>
    requires queue != []
  {
    if Merges(unsent, fin, queue[0], mss) then
      unsent[..|unsent| - 1] + ([Chained(unsent[|unsent| - 1], queue[0])] + queue[1..])
    else unsent + queue
  }

  /** The new state and whether the result is ERR_OK (otherwise ERR_MEM). */
  function Enqueue(st: State, data: seq<byte>, fin: bool, copy: bool, fails: set<nat>): (State, bool)
    requires |data| < TWO16
  {
    if |data| > st.sndBuf || st.queueLen >= TCP_SND_QUEUELEN then (st, false)
    else
      match Build(data, fin, copy, st.mss, st.sndLbb, st.queueLen, 0, fails)
      case NoMemory => (st, false)
      case Built(queue, queueLen) =>
        var taken := |data| + if fin then 1 else 0;
        BuildNonempty(data, fin, copy, st.mss, st.sndLbb, st.queueLen, 0, fails);
        (st.(unsent := Append(st.unsent, fin, queue, st.mss), sndLbb := Wrap(st.sndLbb + taken),
             sndBuf := Wrap16(st.sndBuf - taken), queueLen := queueLen), true)
  }

  lemma BuildNonempty(left: seq<byte>, fin: bool, copy: bool, mss: u16, seqno: u32, queueLen: u8, n: nat,
                      fails: set<nat>)
    requires queueLen <= TCP_SND_QUEUELEN
    ensures var b := Build(left, fin, copy, mss, seqno, queueLen, n, fails);
            b.Built? ==> b.queue != []
  {
  }

  // ----- tcp_output()

  /** The segment fits into the window: the unsigned test seqno - lastack + len <= wnd. */
  predicate Fits(s: Segment, lastAck: u32, wnd: u32) {
    Wrap(Wrap(s.seqno - lastAck) + s.len) <= wnd
  }

  /** The smaller of the two windows. */
  function Window(st: State): (wnd: u32)
    ensures wnd <= st.sndWnd && wnd <= st.cwnd && (wnd == st.sndWnd || wnd == st.cwnd)
  {
    if st.sndWnd < st.cwnd then st.sndWnd else st.cwnd
  }

  /** What the loop of tcp_output() changes. */
  datatype Flow = Flow(unsent: seq<Segment>, unacked: seq<Segment>, nxt: u32, max: u32)

  function SendHead(f: Flow): Flow
    requires f.unsent != []
  {
    var seg := f.unsent[0];
    var nxt := Wrap(seg.seqno + TcpLen(seg));
    Flow(f.unsent[1..], if TcpLen(seg) > 0 then f.unacked + [seg] else f.unacked,
         nxt, if SeqLt(f.max, nxt) then nxt else f.max)
  }

  function SendLoop(f: Flow, lastAck: u32, wnd: u32): (Flow, seq<Segment>)
    decreases |f.unsent|
  {
    if f.unsent == [] || !Fits(f.unsent[0], lastAck, wnd) then (f, [])
    else
      var (f', sent) := SendLoop(SendHead(f), lastAck, wnd);
      (f', [f.unsent[0]] + sent)
  }

  function FlowOf(st: State): Flow {
    Flow(st.unsent, st.unacked, st.sndNxt, st.sndMax)
  }

  /** The new state and the segments transmitted; with TF_ACK_NOW set only a pure ACK goes out. */
  function Output(st: State): (State, seq<Segment>) {
    if st.ackNow then (st.(ackNow := false), [])
    else
      var (f, sent) := SendLoop(FlowOf(st), st.lastAck, Window(st));
      (st.(unsent := f.unsent, unacked := f.unacked, sndNxt := f.nxt, sndMax := f.max), sent)
  }

  // ----- ACKs for new data

  predicate Acceptable(st: State, ackno: u32) {
    SeqLt(st.lastAck, ackno) && SeqLeq(ackno, st.sndMax)
  }

  /** Drops the leading segments that end at or below ackno. */
  function DropAcked(q: seq<Segment>, ackno: u32): seq<Segment> {
    if q != [] && SeqLeq(Wrap(q[0].seqno + TcpLen(q[0])), ackno) then DropAcked(q[1..], ackno) else q
  }

  function PbufCount(q: seq<Segment>): nat {
    if q == [] then 0 else q[0].pbufs + PbufCount(q[1..])
  }

  /** snd_nxt follows the head of unsent, but keeps its value once unsent runs empty. */
  function NextAfterDrop(q: seq<Segment>, ackno: u32, sndNxt: u32): u32 {
    if q != [] && SeqLeq(Wrap(q[0].seqno + TcpLen(q[0])), ackno) then
      NextAfterDrop(q[1..], ackno, if |q| > 1 then q[1].seqno else sndNxt)
    else sndNxt
  }

  /** One byte-wide subtraction per dropped segment. */
  function QueueLenAfterDrop(q: seq<Segment>, ackno: u32, queueLen: u8): u8 {
    if q != [] && SeqLeq(Wrap(q[0].seqno + TcpLen(q[0])), ackno) then
      QueueLenAfterDrop(q[1..], ackno, (queueLen - q[0].pbufs) % 256)
    else queueLen
  }

  function Ack(st: State, ackno: u32): State {
    if !Acceptable(st, ackno) then st
    else
      st.(sndBuf := Wrap16(st.sndBuf + Wrap16(ackno - st.lastAck)),
          lastAck := ackno,
          unsent := DropAcked(st.unsent, ackno),
          sndNxt := NextAfterDrop(st.unsent, ackno, st.sndNxt),
          unacked := DropAcked(st.unacked, ackno),
          queueLen := QueueLenAfterDrop(st.unacked, ackno, QueueLenAfterDrop(st.unsent, ackno, st.queueLen)))
  }

  // ----- Retransmission

  /** tcp_slowtmr(): all unacked segments but the first go back to the front of unsent. */
  function Requeue(st: State): State {
    if |st.unacked| <= 1 then st
    else st.(unsent := st.unacked[1..] + st.unsent, unacked := st.unacked[..1], sndNxt := st.unacked[1].seqno)
  }

  /** tcp_rexmit_seg() on the first unacked segment. */
  function Rexmit(st: State): seq<Segment> {
    if st.unacked != [] && Fits(st.unacked[0], st.lastAck, Window(st)) then [st.unacked[0]] else []
  }

  // ----- The code

  ghost function Resume(queue: seq<Segment>, b: Built): Built {
    match b
    case NoMemory => NoMemory
    case Built(rest, len) => Built(queue + rest, len)
  }

  lemma ResumeStep(queue: seq<Segment>, seg: Segment, b: Built)
    ensures Resume([], b) == b
    ensures Resume(queue, Resume([seg], b)) == Resume(queue + [seg], b)
  {
    if b.Built? {
      assert [] + b.queue == b.queue;
      assert queue + ([seg] + b.queue) == queue + [seg] + b.queue;
    }
  }

  /** One turn of the segmentation loop. */
  lemma BuildTurn(left: seq<byte>, fin: bool, copy: bool, mss: u16, seqno: u32, queueLen: u8, n: nat, fails: set<nat>)
    requires queueLen <= TCP_SND_QUEUELEN
    ensures var seglen: u16 := if |left| > mss then mss else |left|;
            var pbufs := if copy then 1 else 2;
            var seg := Segment(seqno, seglen, fin, left[..seglen], pbufs);
            var b := Build(left, fin, copy, mss, seqno, queueLen, n, fails);
            if n in fails || n + 1 in fails || (!copy && n + 2 in fails) || queueLen + pbufs > TCP_SND_QUEUELEN
            then b == NoMemory
            else if |left| == seglen then b == Built([seg], queueLen + pbufs)
            else b == Resume([seg], Build(left[seglen..], fin, copy, mss, Wrap(seqno + seglen), queueLen + pbufs,
                                          n + 1 + pbufs, fails))
  {
  }

  ghost function After(sent: seq<Segment>, rest: (Flow, seq<Segment>)): (Flow, seq<Segment>) {
    (rest.0, sent + rest.1)
  }

  lemma AfterStep(sent: seq<Segment>, seg: Segment, rest: (Flow, seq<Segment>))
    ensures After([], rest) == rest
    ensures rest.1 == [] ==> After(sent, rest) == (rest.0, sent)
    ensures After(sent, (rest.0, [seg] + rest.1)) == After(sent + [seg], rest)
  {
    assert [] + rest.1 == rest.1 && sent + [] == sent;
    assert sent + ([seg] + rest.1) == sent + [seg] + rest.1;
  }

  class Pcb {
    var unsent: seq<Segment>
    var unacked: seq<Segment>
    var sndLbb: u32
    var sndNxt: u32
    var sndMax: u32
    var lastAck: u32
    var sndBuf: u16
    var queueLen: u8
    var mss: u16
    var sndWnd: u32
    var cwnd: u16
    var ackNow: bool
    var closing: bool

    ghost function Abs(): State
      reads this
    {
      State(unsent, unacked, sndLbb, sndNxt, sndMax, lastAck, sndBuf, queueLen, mss, sndWnd, cwnd, ackNow, closing)
    }

    /** The loop of tcp_enqueue(): nothing of the PCB is touched while segments are being built. */
    method BuildQueue(data: seq<byte>, fin: bool, copy: bool, fails: set<nat>)
      returns (ok: bool, queue: seq<Segment>, len: u8)
      requires |data| < TWO16 && queueLen <= TCP_SND_QUEUELEN
      ensures var b := Build(data, fin, copy, mss, sndLbb, queueLen, 0, fails);
              ok == b.Built? && (ok ==> queue == b.queue != [] && len == b.queueLen)
    {
      hide Build;
      var left: seq<byte>, seqno: u32, n: nat := data, sndLbb, 0;
      queue, len := [], queueLen;
      ghost var b := Build(data, fin, copy, mss, sndLbb, queueLen, 0, fails);
      ResumeStep([], Segment(0, 0, false, [], 0), b);
      while queue == [] || left != []
        invariant len <= TCP_SND_QUEUELEN && |left| <= |data|
        invariant queue == [] || left != [] ==> b == Resume(queue, Build(left, fin, copy, mss, seqno, len, n, fails))
        invariant queue != [] && left == [] ==> b == Built(queue, len)
        decreases TCP_SND_QUEUELEN + 1 - len
      {
        BuildTurn(left, fin, copy, mss, seqno, len, n, fails);
        var seglen: u16 := if |left| > mss then mss else |left|;
        if n in fails {
          return false, queue, len;
        }
        if n + 1 in fails {
          return false, queue, len;
        }
        if !copy && n + 2 in fails {
          return false, queue, len;
        }
        var pbufs := if copy then 1 else 2;
        if len + pbufs > TCP_SND_QUEUELEN {
          return false, queue, len;
        }
        var seg := Segment(seqno, seglen, fin, left[..seglen], pbufs);
        if |left| > seglen {
          ResumeStep(queue, seg, Build(left[seglen..], fin, copy, mss, Wrap(seqno + seglen), len + pbufs,
                                        n + 1 + pbufs, fails));
        } else {
          assert left[seglen..] == [];
        }
        queue := queue + [seg];
        len, n := len + pbufs, n + 1 + pbufs;
        left, seqno := left[seglen..], Wrap(seqno + seglen);
      }
      ok := true;
    }

    method TcpEnqueue(data: seq<byte>, fin: bool, copy: bool, fails: set<nat>) returns (ok: bool)
      requires |data| < TWO16
      modifies this
      ensures (Abs(), ok) == Enqueue(old(Abs()), data, fin, copy, fails)
      ensures !ok ==> Abs() == old(Abs())
    {
      hide Build, Wrap, Wrap16;
      if |data| > sndBuf || queueLen >= TCP_SND_QUEUELEN {
        return false;
      }
      var built, queue, len := BuildQueue(data, fin, copy, fails);
      if !built {
        return false;
      }
      if Merges(unsent, fin, queue[0], mss) {
        var last := |unsent| - 1;
        var useg := unsent[last];
        useg := useg.(len := useg.len + queue[0].len, data := useg.data + queue[0].data,
                      pbufs := (useg.pbufs + queue[0].pbufs) % 256);
        unsent := unsent[..last] + ([useg] + queue[1..]);
      } else {
        unsent := unsent + queue;
      }
      var taken := |data| + if fin then 1 else 0;
      sndLbb := Wrap(sndLbb + taken);
      sndBuf := Wrap16(sndBuf - taken);
      queueLen := len;
      ok := true;
    }

    /** tcp_output(); sent lists the segments handed to the IP layer. */
    method TcpOutput() returns (sent: seq<Segment>)
      modifies this
      ensures (Abs(), sent) == Output(old(Abs()))
    {
      sent := [];
      if ackNow {
        ackNow := false;
        return;
      }
      sent := SendInWindow(if sndWnd < cwnd then sndWnd else cwnd);
    }

    method SendInWindow(wnd: u32) returns (sent: seq<Segment>)
      modifies this`unsent, this`unacked, this`sndNxt, this`sndMax
      ensures (FlowOf(Abs()), sent) == SendLoop(FlowOf(old(Abs())), lastAck, wnd)
    {
      hide SeqLt, Wrap, Fits, After;
      sent := [];
      ghost var f := FlowOf(Abs());
      AfterStep([], Segment(0, 0, false, [], 0), SendLoop(f, lastAck, wnd));
      while unsent != [] && Fits(unsent[0], lastAck, wnd)
        invariant SendLoop(f, lastAck, wnd) == After(sent, SendLoop(FlowOf(Abs()), lastAck, wnd))
        decreases |unsent|
      {
        var seg := unsent[0];
        AfterStep(sent, seg, SendLoop(SendHead(FlowOf(Abs())), lastAck, wnd));
        unsent := unsent[1..];
        sndNxt := Wrap(seg.seqno + TcpLen(seg));
        if SeqLt(sndMax, sndNxt) {
          sndMax := sndNxt;
        }
        if TcpLen(seg) > 0 {
          unacked := unacked + [seg];
        }
        sent := sent + [seg];
      }
      AfterStep(sent, Segment(0, 0, false, [], 0), SendLoop(FlowOf(Abs()), lastAck, wnd));
    }

    /** The part of tcp_receive() that handles an ACK for new data. */
    method AckNewData(ackno: u32)
      modifies this
      ensures Abs() == Ack(old(Abs()), ackno)
    {
      hide SeqLt, SeqLeq, Wrap, Wrap16, DropAcked, NextAfterDrop, QueueLenAfterDrop;
      if SeqLt(lastAck, ackno) && SeqLeq(ackno, sndMax) {
        sndBuf := Wrap16(sndBuf + Wrap16(ackno - lastAck));
        lastAck := ackno;
        DropUnsent(ackno);
        DropUnacked(ackno);
      }
    }

    method DropUnsent(ackno: u32)
      modifies this`unsent, this`queueLen, this`sndNxt
      ensures unsent == DropAcked(old(unsent), ackno)
      ensures sndNxt == NextAfterDrop(old(unsent), ackno, old(sndNxt))
      ensures queueLen == QueueLenAfterDrop(old(unsent), ackno, old(queueLen))
    {
      while unsent != [] && SeqLeq(Wrap(unsent[0].seqno + TcpLen(unsent[0])), ackno)
        invariant DropAcked(unsent, ackno) == DropAcked(old(unsent), ackno)
        invariant NextAfterDrop(unsent, ackno, sndNxt) == NextAfterDrop(old(unsent), ackno, old(sndNxt))
        invariant QueueLenAfterDrop(unsent, ackno, queueLen) == QueueLenAfterDrop(old(unsent), ackno, old(queueLen))
        decreases |unsent|
      {
        var next := unsent[0];
        unsent := unsent[1..];
        queueLen := (queueLen - next.pbufs) % 256;
        if unsent != [] {
          sndNxt := unsent[0].seqno;
        }
      }
    }

    method DropUnacked(ackno: u32)
      modifies this`unacked, this`queueLen
      ensures unacked == DropAcked(old(unacked), ackno)
      ensures queueLen == QueueLenAfterDrop(old(unacked), ackno, old(queueLen))
    {
      while unacked != [] && SeqLeq(Wrap(unacked[0].seqno + TcpLen(unacked[0])), ackno)
        invariant DropAcked(unacked, ackno) == DropAcked(old(unacked), ackno)
        invariant QueueLenAfterDrop(unacked, ackno, queueLen) == QueueLenAfterDrop(old(unacked), ackno, old(queueLen))
        decreases |unacked|
      {
        var next := unacked[0];
        unacked := unacked[1..];
        queueLen := (queueLen - next.pbufs) % 256;
      }
    }

    /** The retransmission timer has expired: requeue all but the first unacked segment and resend that one. */
    method Retransmit() returns (sent: seq<Segment>)
      modifies this
      ensures Abs() == Requeue(old(Abs())) && sent == Rexmit(Abs())
    {
      sent := [];
      if unacked != [] {
        var seg := unacked[0];
        if |unacked| > 1 {
          unsent := unacked[1..] + unsent;
          unacked := unacked[..1];
          sndNxt := unsent[0].seqno;
        }
        if Fits(seg, lastAck, if sndWnd < cwnd then sndWnd else cwnd) {
          sent := [seg];
        }
      }
    }
  }
}
