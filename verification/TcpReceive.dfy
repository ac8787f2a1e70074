/** tcp_receive() of SW_stub/lwtcp/tcp_input.c for data segments, on 32-bit sequence numbers. */
module TcpReceive {
  import opened SeqNum
  import R = Reassembly

  /** A struct tcp_seg together with the bytes its pbuf holds. */
  datatype Segment = Segment(seqno: u32, len: u16, data: seq<byte>)

  datatype State = State(rcvNxt: u32, rcvWnd: u16, ooseq: seq<Segment>)

  // ----- pbuf operations on the single pbuf of a segment

  /** seg->len = len; pbuf_realloc(seg->p, len) */
  function TrimEnd(s: Segment, len: u16): Segment {
    Segment(s.seqno, len, if |s.data| <= len then s.data else s.data[..len])
  }

  /** Conversion to int16_t, the type of the second parameter of pbuf_header(). */
  function Int16(x: int): int {
    var w := Wrap16(x);
    if w < 0x8000 then w else w - TWO16
  }

  /** The longest left trim pbuf_header() can make, because its second parameter is an int16_t. */
  const MAX_TRIM := 0x8000

  /**
   The bytes of a pbuf after pbuf_header(p, -off), when data are its bytes and front those before its payload pointer.
   An offset that does not fit into the parameter comes out positive: the pointer moves back, over front, or stays
   where it is when there is no room.
   */
  function HeaderMoved(data: seq<byte>, front: seq<byte>, off: u16): seq<byte>
    requires off < |data|
  {
    var size := Int16(0 - off);
    if size <= 0 then data[-size..]
    else if size <= |front| then front[|front| - size..] + data
    else data
  }

  lemma Negated(off: u16)
    ensures Int16(0 - off) == if off <= MAX_TRIM then 0 - off else TWO16 - off
  {
    if off > 0 {
      assert Wrap16(0 - off) == TWO16 - off;
    }
  }

  /** pbuf_header() cuts off exactly off bytes if and only if the offset is at most 2^15. */
  lemma TrimArgument(data: seq<byte>, front: seq<byte>, off: u16)
    requires off < |data|
    ensures HeaderMoved(data, front, off) == data[off..] <==> off <= MAX_TRIM
  {
    hide Int16;
    Negated(off);
    if off > MAX_TRIM {
      assert |HeaderMoved(data, front, off)| >= |data| > |data[off..]|;
    }
  }

  // ----- The receive path

  function Walk(q: seq<Segment>, i: nat, s: Segment, alloc: bool): seq<Segment>
    requires i < |q|
    decreases |q| - i
  {
    var next := q[i];
    if s.seqno == next.seqno then
      if s.len > next.len && alloc then q[i := s] else q
    else if i == 0 && SeqLt(s.seqno, next.seqno) then
      if alloc then [FitBefore(s, next)] + q else q
    else if i > 0 && SeqLt(q[i - 1].seqno, s.seqno) && SeqLt(s.seqno, next.seqno) then
      if alloc then q[..i - 1] + [FitBefore(q[i - 1], s), FitBefore(s, next)] + q[i..] else q
    else if i + 1 == |q| && SeqGt(s.seqno, next.seqno) then
      if alloc then q[..i] + [FitBefore(next, s), s] else q
    else if i + 1 == |q| then
      q
    else
      Walk(q, i + 1, s, alloc)
  }

  /** Trims the right edge of s if it reaches past the start of next. */
  function FitBefore(s: Segment, next: Segment): Segment {
    if SeqGt(Wrap(s.seqno + s.len), next.seqno) then TrimEnd(s, Wrap16(next.seqno - s.seqno)) else s
  }

  function Enqueue(q: seq<Segment>, s: Segment, alloc: bool): seq<Segment> {
    if q != [] then Walk(q, 0, s, alloc) else if alloc then [s] else []
  }

  function Shrink(wnd: u16, len: u16): u16 {
    if wnd < len then 0 else wnd - len
  }

  function Drain(st: State): (State, seq<byte>)
    decreases |st.ooseq|
  {
    if st.ooseq == [] || st.ooseq[0].seqno != st.rcvNxt then (st, [])
    else
      var cseg := st.ooseq[0];
      var (st', more) := Drain(State(Wrap(st.rcvNxt + cseg.len), Shrink(st.rcvWnd, cseg.len), st.ooseq[1..]));
      (st', cseg.data + more)
  }

  function HandUp(st: State, s: Segment): (State, seq<byte>) {
    var t := if st.ooseq != [] && SeqLeq(st.ooseq[0].seqno, Wrap(s.seqno + s.len))
             then TrimEnd(s, Wrap16(st.ooseq[0].seqno - s.seqno)) else s;
    var (st', more) := Drain(State(Wrap(st.rcvNxt + t.len), Shrink(st.rcvWnd, t.len), st.ooseq));
    (st', t.data + more)
  }

  predicate Straddles(seqno: u32, len: u16, rcvNxt: u32) {
    SeqLt(seqno, rcvNxt) && SeqLt(rcvNxt, Wrap(seqno + len))
  }

  /** What the two comparisons say together, for every pair of 32-bit numbers. */
  lemma StraddleOffset(seqno: u32, len: u16, rcvNxt: u32)
    requires 0 < len
    ensures Straddles(seqno, len, rcvNxt) <==> 0 < Wrap(rcvNxt - seqno) < len
  {
    var d := Wrap(rcvNxt - seqno);
    SeqLtMeans(seqno, rcvNxt);
    SeqLtMeans(rcvNxt, Wrap(seqno + len));
    LengthPast(seqno, len, rcvNxt);
    WrapSub(len, d);
    hide SeqLt, Wrap;
  }

  lemma LengthPast(seqno: u32, len: u16, rcvNxt: u32)
    ensures Wrap(Wrap(seqno + len) - rcvNxt) == Wrap(len - Wrap(rcvNxt - seqno))
  {
  }

  /** The incoming segment after its already received left part has been cut off, as far as pbuf_header() does it. */
  function Trimmed(st: State, seqno: u32, data: seq<byte>, front: seq<byte>): Segment
    requires 0 < |data| <= R.MAX_LEN
  {
    if Straddles(seqno, |data|, st.rcvNxt) then
      StraddleOffset(seqno, |data|, st.rcvNxt);
      var off := Wrap(st.rcvNxt - seqno);
      Segment(st.rcvNxt, |data| - off, HeaderMoved(data, front, off))
    else
      Segment(seqno, |data|, data)
  }

  /** The new state and the bytes passed to the application for one incoming segment. */
  function Receive(st: State, seqno: u32, data: seq<byte>, front: seq<byte>, alloc: bool): (State, seq<byte>)
    requires |data| <= R.MAX_LEN
  {
    if data == [] then (st, [])
    else
      var s := Trimmed(st, seqno, data, front);
      if !(SeqGeq(s.seqno, st.rcvNxt) && SeqLt(s.seqno, Wrap(st.rcvNxt + st.rcvWnd))) then (st, [])
      else if st.rcvNxt == s.seqno then HandUp(st, s)
      else (st.(ooseq := Enqueue(st.ooseq, s, alloc)), [])
  }

  // ----- The code

  /** The receive fields of a struct tcp_pcb. */
  class Pcb {
    var rcvNxt: u32
    var rcvWnd: u16
    var ooseq: seq<Segment>

    ghost function Abs(): State
      reads this
    {
      State(rcvNxt, rcvWnd, ooseq)
    }

    method Advance(len: u16)
      modifies this`rcvNxt, this`rcvWnd
      ensures rcvNxt == Wrap(old(rcvNxt) + len) && rcvWnd == Shrink(old(rcvWnd), len)
    {
      rcvNxt := Wrap(rcvNxt + len);
      if rcvWnd < len {
        rcvWnd := 0;
      } else {
        rcvWnd := rcvWnd - len;
      }
    }

    method ReceiveInOrder(inseg: Segment) returns (recvData: seq<byte>)
      modifies this
      ensures (Abs(), recvData) == HandUp(old(Abs()), inseg)
    {
      hide SeqLeq, Wrap, Wrap16, TrimEnd, Shrink;
      var seg := inseg;
      if ooseq != [] && SeqLeq(ooseq[0].seqno, Wrap(seg.seqno + seg.len)) {
        seg := TrimEnd(seg, Wrap16(ooseq[0].seqno - seg.seqno));
      }
      Advance(seg.len);
      recvData := seg.data;
      ghost var st := Abs();
      while ooseq != [] && ooseq[0].seqno == rcvNxt
        invariant Drain(st).0 == Drain(Abs()).0
        invariant seg.data + Drain(st).1 == recvData + Drain(Abs()).1
        decreases |ooseq|
      {
        var cseg := ooseq[0];
        Advance(cseg.len);
        recvData := recvData + cseg.data;
        ooseq := ooseq[1..];
      }
      assert recvData + [] == recvData;
    }

    method QueueOutOfOrder(inseg: Segment, alloc: bool)
      modifies this`ooseq
      ensures ooseq == Enqueue(old(ooseq), inseg, alloc)
    {
      if ooseq == [] {
        if alloc {
          ooseq := [inseg];
        }
        return;
      }
      var i := 0;
      while i < |ooseq|
        invariant ooseq == old(ooseq)
        invariant i <= |ooseq|
        invariant if i < |ooseq| then Walk(ooseq, i, inseg, alloc) == Enqueue(ooseq, inseg, alloc)
                  else ooseq == Enqueue(ooseq, inseg, alloc)
      {
        var next := ooseq[i];
        if inseg.seqno == next.seqno {
          if inseg.len > next.len && alloc {
            ooseq := ooseq[i := inseg];
          }
          return;
        } else {
          if i == 0 {
            if SeqLt(inseg.seqno, next.seqno) {
              if alloc {
                ooseq := [FitBefore(inseg, next)] + ooseq;
              }
              return;
            }
          } else if SeqLt(ooseq[i - 1].seqno, inseg.seqno) && SeqLt(inseg.seqno, next.seqno) {
            if alloc {
              ooseq := ooseq[..i - 1] + [FitBefore(ooseq[i - 1], inseg), FitBefore(inseg, next)] + ooseq[i..];
            }
            return;
          }
          if i + 1 == |ooseq| && SeqGt(inseg.seqno, next.seqno) {
            if alloc {
              ooseq := ooseq[..i] + [FitBefore(next, inseg), inseg];
            }
            return;
          }
        }
        i := i + 1;
      }
    }

    method TrimLeft(seqno: u32, data: seq<byte>, front: seq<byte>) returns (inseg: Segment)
      requires 0 < |data| <= R.MAX_LEN
      ensures inseg == Trimmed(Abs(), seqno, data, front)
    {
      inseg := Segment(seqno, |data|, data);
      if SeqLt(seqno, rcvNxt) && SeqLt(rcvNxt, Wrap(seqno + inseg.len)) {
        StraddleOffset(seqno, inseg.len, rcvNxt);
        var off := Wrap(rcvNxt - seqno);
        inseg := Segment(rcvNxt, inseg.len - off, HeaderMoved(inseg.data, front, off));
      }
    }

    /** The data part of tcp_receive(): seqno and data are those of the incoming segment, and front the bytes before its
        data in the pbuf. */
    method TcpReceive(seqno: u32, data: seq<byte>, front: seq<byte>, alloc: bool) returns (recvData: seq<byte>)
      requires |data| <= R.MAX_LEN
      modifies this
      ensures (Abs(), recvData) == Receive(old(Abs()), seqno, data, front, alloc)
    {
      recvData := [];
      if |data| > 0 {
        var inseg := TrimLeft(seqno, data, front);
        if SeqGeq(inseg.seqno, rcvNxt) && SeqLt(inseg.seqno, Wrap(rcvNxt + rcvWnd)) {
          if rcvNxt == inseg.seqno {
            recvData := ReceiveInOrder(inseg);
          } else {
            QueueOutOfOrder(inseg, alloc);
          }
        }
      }
    }

    /** tcp_recved(): the application has consumed len bytes. */
    method TcpRecved(len: u16)
      modifies this`rcvWnd
      ensures rcvWnd == Reopen(old(rcvWnd), len)
    {
      rcvWnd := Wrap16(rcvWnd + len);
      if rcvWnd > R.TCP_WND {
        rcvWnd := R.TCP_WND;
      }
    }
  }

  function Reopen(wnd: u16, len: u16): u16 {
    if Wrap16(wnd + len) > R.TCP_WND then R.TCP_WND else Wrap16(wnd + len)
  }

  /** The window opens by what was consumed, up to TCP_WND, exactly when the 16-bit sum does not wrap around to less. */
  lemma ReopenExactly(wnd: u16, len: u16)
    ensures Reopen(wnd, len) <= R.TCP_WND
    ensures var capped := if wnd + len < R.TCP_WND then wnd + len else R.TCP_WND;
            && (Reopen(wnd, len) == capped <==> wnd + len < TWO16 || wnd + len >= TWO16 + R.TCP_WND)
            && (Reopen(wnd, len) != capped ==> Reopen(wnd, len) == wnd + len - TWO16)
  {
  }

  /** Consuming what a delivery took gives the window back, exactly when the delivery fitted into it and it was no
      larger than TCP_WND, or it was TCP_WND. A larger window is that of the peer, which tcp_process() copies on an
      active open; it never comes back. */
  lemma WindowRestored(wnd: u16, len: u16)
    ensures Reopen(Shrink(wnd, len), len) == wnd <==> len <= wnd <= R.TCP_WND || wnd == R.TCP_WND
    ensures wnd > R.TCP_WND ==> Reopen(Shrink(wnd, len), len) <= R.TCP_WND < wnd
  {
  }

  // ----- The 32-bit code refines the unbounded reassembler

  ghost function Wire(p: R.Piece, base: int): Segment
    requires |p.data| <= R.MAX_LEN
  {
    Segment(Wrap(base + p.at), |p.data|, p.data)
  }

  ghost function WireAll(q: seq<R.Piece>, base: int): (ws: seq<Segment>)
    requires forall i :: 0 <= i < |q| ==> |q[i].data| <= R.MAX_LEN
    ensures |ws| == |q| && forall i :: 0 <= i < |q| ==> ws[i] == Wire(q[i], base)
  {
    seq(|q|, i requires 0 <= i < |q| => Wire(q[i], base))
  }

  /** The receiver state that stands for r when the byte at stream position k has sequence number base + k. */
  ghost function Image(r: R.Receiver, base: int): State
    requires r.window < TWO16 && forall i :: 0 <= i < |r.queue| ==> |r.queue[i].data| <= R.MAX_LEN
  {
    State(Wrap(base + r.next), r.window, WireAll(r.queue, base))
  }

  ghost predicate Short(q: seq<R.Piece>) {
    forall i :: 0 <= i < |q| ==> |q[i].data| <= R.MAX_LEN
  }

  lemma FitBeforeRefines(p: R.Piece, next: R.Piece, base: int)
    requires |p.data| <= R.MAX_LEN && |next.data| <= R.MAX_LEN && p.at < next.at < p.at + TWO31 - TWO16
    ensures FitBefore(Wire(p, base), Wire(next, base)) == Wire(R.CutEnd(p, next.at), base)
  {
    hide SeqLt, SeqLeq, SeqGt, SeqGeq, Wrap, Wrap16, Signed;
    WrapAdd(base + p.at, |p.data|);
    SeqCompare(base + p.End(), base + next.at);
    if p.End() > next.at {
      TrimLength(base + next.at, base + p.at);
    }
  }

  lemma WireSplice(q: seq<R.Piece>, i: nat, mid: seq<R.Piece>, j: nat, base: int)
    requires i <= j <= |q| && Short(q) && Short(mid)
    ensures Short(q[..i] + mid + q[j..])
    ensures WireAll(q[..i] + mid + q[j..], base) == WireAll(q, base)[..i] + WireAll(mid, base) + WireAll(q, base)[j..]
  {
    var q' := q[..i] + mid + q[j..];
    forall k | 0 <= k < |q'| ensures |q'[k].data| <= R.MAX_LEN {
      assert q'[k] == if k < i then q[k] else if k < i + |mid| then mid[k - i] else q[j..][k - i - |mid|];
    }
  }

  lemma SpliceRefines(q: seq<R.Piece>, i: nat, p: R.Piece, base: int, low: nat)
    requires 0 < i < |q| && Short(q) && 0 < |p.data| <= R.MAX_LEN
    requires low < p.at < low + TWO16 && forall k :: 0 <= k < |q| ==> low < q[k].at < low + TWO16
    requires q[i - 1].at < p.at < q[i].at
    ensures var mid := [R.CutEnd(q[i - 1], p.at), R.CutEnd(p, q[i].at)];
            var wq, w := WireAll(q, base), Wire(p, base);
            && Short(q[..i - 1] + mid + q[i..])
            && wq[..i - 1] + [FitBefore(wq[i - 1], w), FitBefore(w, wq[i])] + wq[i..]
                == WireAll(q[..i - 1] + mid + q[i..], base)
  {
    var l, r := R.CutEnd(q[i - 1], p.at), R.CutEnd(p, q[i].at);
    FitBeforeRefines(q[i - 1], p, base);
    FitBeforeRefines(p, q[i], base);
    WireSplice(q, i - 1, [l, r], i, base);
    assert WireAll([l, r], base) == [Wire(l, base), Wire(r, base)];
  }

  lemma AppendRefines(q: seq<R.Piece>, p: R.Piece, base: int, low: nat)
    requires q != [] && Short(q) && 0 < |p.data| <= R.MAX_LEN
    requires low < p.at < low + TWO16 && forall k :: 0 <= k < |q| ==> low < q[k].at < low + TWO16
    requires q[|q| - 1].at < p.at
    ensures var i := |q| - 1;
            var q' := q[..i] + [R.CutEnd(q[i], p.at), p];
            var wq, w := WireAll(q, base), Wire(p, base);
            Short(q') && wq[..i] + [FitBefore(wq[i], w), w] == WireAll(q', base)
  {
    var i := |q| - 1;
    var l := R.CutEnd(q[i], p.at);
    FitBeforeRefines(q[i], p, base);
    WireSplice(q, i, [l, p], |q|, base);
    assert q[..i] + [l, p] + q[|q|..] == q[..i] + [l, p];
    assert WireAll([l, p], base) == [Wire(l, base), Wire(p, base)];
  }

  lemma FrontRefines(q: seq<R.Piece>, p: R.Piece, base: int)
    requires q != [] && Short(q) && 0 < |p.data| <= R.MAX_LEN && p.at < q[0].at < p.at + TWO16
    ensures var q' := [R.CutEnd(p, q[0].at)] + q;
            Short(q') && [FitBefore(Wire(p, base), WireAll(q, base)[0])] + WireAll(q, base) == WireAll(q', base)
  {
    FitBeforeRefines(p, q[0], base);
  }

  lemma ReplaceRefines(q: seq<R.Piece>, i: nat, p: R.Piece, alloc: bool, base: int)
    requires i < |q| && Short(q) && 0 < |p.data| <= R.MAX_LEN && p.at == q[i].at
    ensures Short(R.Place(q, i, p, alloc))
    ensures Walk(WireAll(q, base), i, Wire(p, base), alloc) == WireAll(R.Place(q, i, p, alloc), base)
  {
    hide SeqLt, SeqGt, FitBefore, R.CutEnd, Wrap;
  }

  lemma {:induction false} WalkRefines(q: seq<R.Piece>, i: nat, p: R.Piece, alloc: bool, base: int, low: nat)
    requires i < |q| && Short(q) && 0 < |p.data| <= R.MAX_LEN
    requires low < p.at < low + TWO16 && forall k :: 0 <= k < |q| ==> low < q[k].at < low + TWO16
    requires i > 0 ==> q[i - 1].at < p.at
    ensures Short(R.Place(q, i, p, alloc))
    ensures Walk(WireAll(q, base), i, Wire(p, base), alloc) == WireAll(R.Place(q, i, p, alloc), base)
    decreases |q| - i
  {
    hide SeqLt, SeqGt, Wrap, FitBefore, R.CutEnd, WireAll;
    SeqCompare(base + p.at, base + q[i].at);
    if p.at == q[i].at {
      ReplaceRefines(q, i, p, alloc, base);
    } else if i == 0 && p.at < q[0].at {
      FrontRefines(q, p, base);
    } else if i > 0 && q[i - 1].at < p.at < q[i].at {
      SeqCompare(base + q[i - 1].at, base + p.at);
      SpliceRefines(q, i, p, base, low);
    } else {
      if i > 0 {
        SeqCompare(base + q[i - 1].at, base + p.at);
      }
      if i + 1 < |q| {
        WalkRefines(q, i + 1, p, alloc, base, low);
      } else {
        AppendRefines(q, p, base, low);
      }
    }
  }

  lemma InvShort(r: R.Receiver, stream: seq<byte>)
    requires R.Inv(r, stream)
    ensures r.window < TWO16 && Short(r.queue)
    ensures forall i :: 0 <= i < |r.queue| ==> r.next < r.queue[i].at < r.next + TWO16
  {
    assert forall i :: 0 <= i < |r.queue| ==> R.PieceOk(r.queue[i], r.next, stream);
  }

  lemma {:induction false} DrainRefines(r: R.Receiver, base: int, low: nat)
    requires r.window < TWO16 && Short(r.queue) && low <= r.next < low + 2 * TWO16
    requires forall i :: 0 <= i < |r.queue| ==> low < r.queue[i].at < low + TWO16
    ensures var (r', up) := R.Drain(r);
            r'.window < TWO16 && Short(r'.queue) && Drain(Image(r, base)) == (Image(r', base), up)
    decreases |r.queue|
  {
    if r.queue != [] {
      var head, rest := r.queue[0], r.queue[1..];
      SeqCompare(base + head.at, base + r.next);
      if head.at == r.next {
        WrapAdd(base + r.next, |head.data|);
        assert WireAll(rest, base) == WireAll(r.queue, base)[1..];
        DrainRefines(R.Receiver(head.End(), R.Shrink(r.window, |head.data|), rest), base, low);
      }
    }
  }

  /** The piece that is handed up, after its right edge has been trimmed against the queue. */
  lemma RightTrimRefines(p: R.Piece, head: R.Piece, base: int)
    requires |p.data| <= R.MAX_LEN && |head.data| <= R.MAX_LEN && p.at < head.at < p.at + TWO16
    ensures SeqLeq(Wrap(base + head.at), Wrap(Wrap(base + p.at) + |p.data|)) <==> head.at <= p.End()
    ensures head.at <= p.End() ==>
              TrimEnd(Wire(p, base), Wrap16(Wrap(base + head.at) - Wrap(base + p.at)))
                  == Wire(R.CutEnd(p, head.at), base)
  {
    hide SeqLt, SeqLeq, SeqGt, SeqGeq, Wrap, Wrap16, Signed;
    WrapAdd(base + p.at, |p.data|);
    SeqCompare(base + head.at, base + p.End());
    TrimLength(base + head.at, base + p.at);
  }

  lemma TrimLength(x: int, y: int)
    requires 0 <= x - y < TWO16
    ensures Wrap16(Wrap(x) - Wrap(y)) == x - y
  {
    WrapSub(x, y);
    Wrap16OfWrap(Wrap(x) - Wrap(y));
    hide Wrap;
  }

  lemma HandUpRefines(r: R.Receiver, p: R.Piece, base: int)
    requires r.window < TWO16 && Short(r.queue) && 0 < |p.data| <= R.MAX_LEN && p.at == r.next
    requires forall i :: 0 <= i < |r.queue| ==> r.next < r.queue[i].at < r.next + TWO16
    ensures var (r', up) := R.HandUp(r, p);
            r'.window < TWO16 && Short(r'.queue) && HandUp(Image(r, base), Wire(p, base)) == (Image(r', base), up)
  {
    hide SeqLeq, Wrap, TrimEnd, Drain, R.Drain, Wrap16;
    var p' := if r.queue != [] && p.at <= r.queue[0].at <= p.End() then R.CutEnd(p, r.queue[0].at) else p;
    WrapAdd(base + r.next, |p'.data|);
    if r.queue != [] {
      RightTrimRefines(p, r.queue[0], base);
    }
    DrainRefines(R.Receiver(p'.End(), R.Shrink(r.window, |p'.data|), r.queue), base, r.next);
  }

  /** The comparisons of tcp_receive() are meaningful: the piece lies within 2^31 of the receive window. */
  predicate Near(r: R.Receiver, p: R.Piece) {
    r.next + r.window - TWO31 < p.at && p.End() < r.next + TWO31
  }

  /** The left trim, if there is one, is one that pbuf_header() can make. */
  predicate Trimmable(r: R.Receiver, p: R.Piece) {
    p.at < r.next < p.End() ==> r.next - p.at <= MAX_TRIM
  }

  lemma TrimmedRefines(r: R.Receiver, p: R.Piece, front: seq<byte>, base: int)
    requires r.window < TWO16 && Short(r.queue) && 0 < |p.data| <= R.MAX_LEN && Near(r, p)
    ensures 0 < |R.Trimmed(r, p).data| <= R.MAX_LEN && r.next + r.window - TWO31 < R.Trimmed(r, p).at < r.next + TWO31
    ensures Trimmed(Image(r, base), Wrap(base + p.at), p.data, front) == Wire(R.Trimmed(r, p), base)
            <==> Trimmable(r, p)
  {
    hide SeqLt, SeqLeq, SeqGt, SeqGeq, Wrap, Wrap16, Signed, HeaderMoved, Int16;
    if p.at < r.next < p.End() {
      TrimArgument(p.data, front, r.next - p.at);
    }
    SeqCompare(base + p.at, base + r.next);
    SeqCompare(base + r.next, base + p.End());
    WrapAdd(base + p.at, |p.data|);
    WrapSub(base + r.next, base + p.at);
    StraddleOffset(Wrap(base + p.at), |p.data|, Wrap(base + r.next));
  }

  lemma EnqueueRefines(r: R.Receiver, p: R.Piece, alloc: bool, base: int)
    requires r.window < TWO16 && Short(r.queue) && 0 < |p.data| <= R.MAX_LEN && r.next < p.at < r.next + r.window
    requires forall i :: 0 <= i < |r.queue| ==> r.next < r.queue[i].at < r.next + TWO16
    ensures Short(R.Enqueue(r.queue, p, alloc))
    ensures Enqueue(WireAll(r.queue, base), Wire(p, base), alloc) == WireAll(R.Enqueue(r.queue, p, alloc), base)
  {
    if r.queue != [] {
      WalkRefines(r.queue, 0, p, alloc, base, r.next);
    }
  }

  lemma InWindowRefines(r: R.Receiver, p: R.Piece, base: int)
    requires r.window < TWO16 && r.next + r.window - TWO31 < p.at < r.next + TWO31
    ensures SeqGeq(Wrap(base + p.at), Wrap(base + r.next)) <==> r.next <= p.at
    ensures SeqLt(Wrap(base + p.at), Wrap(Wrap(base + r.next) + r.window)) <==> p.at < r.next + r.window
    ensures Wrap(base + p.at) == Wrap(base + r.next) <==> p.at == r.next
  {
    SeqCompare(base + p.at, base + r.next);
    SeqCompare(base + p.at, base + r.next + r.window);
    WrapAdd(base + r.next, r.window);
  }

  lemma ReceiveCases(st: State, seqno: u32, data: seq<byte>, front: seq<byte>, alloc: bool)
    requires 0 < |data| <= R.MAX_LEN
    ensures var s := Trimmed(st, seqno, data, front);
            var inWindow := SeqGeq(s.seqno, st.rcvNxt) && SeqLt(s.seqno, Wrap(st.rcvNxt + st.rcvWnd));
            && (!inWindow ==> Receive(st, seqno, data, front, alloc) == (st, []))
            && (inWindow && s.seqno == st.rcvNxt ==> Receive(st, seqno, data, front, alloc) == HandUp(st, s))
            && (inWindow && s.seqno != st.rcvNxt ==>
                  Receive(st, seqno, data, front, alloc)
                    == (State(st.rcvNxt, st.rcvWnd, Enqueue(st.ooseq, s, alloc)), []))
  {
  }

  lemma ReceiveNothing(st: State, seqno: u32, front: seq<byte>, alloc: bool)
    ensures Receive(st, seqno, [], front, alloc) == (st, [])
  {
  }

  /** One segment: the 32-bit code does to the image of r what Arrive does to r, whatever the stream offset. */
  lemma ReceiveRefines(r: R.Receiver, p: R.Piece, front: seq<byte>, alloc: bool, base: int, stream: seq<byte>)
    requires R.Inv(r, stream) && |p.data| <= R.MAX_LEN && Near(r, p) && Trimmable(r, p)
    ensures Short(r.queue)
    ensures var (r', up) := R.Arrive(r, p, alloc);
            && r'.window < TWO16 && Short(r'.queue)
            && Receive(Image(r, base), Wrap(base + p.at), p.data, front, alloc) == (Image(r', base), up)
  {
    hide SeqLt, SeqGeq, Wrap, Receive, HandUp, R.HandUp, Enqueue, R.Enqueue, WireAll, Trimmed, R.Trimmed, R.Inv,
      R.IsSlice;
    InvShort(r, stream);
    if p.data != [] {
      var p' := R.Trimmed(r, p);
      TrimmedRefines(r, p, front, base);
      InWindowRefines(r, p', base);
      ReceiveCases(Image(r, base), Wrap(base + p.at), p.data, front, alloc);
      if p'.at < r.next || r.next + r.window <= p'.at {
      } else if p'.at == r.next {
        HandUpRefines(r, p', base);
      } else {
        EnqueueRefines(r, p', alloc, base);
      }
    } else {
      ReceiveNothing(Image(r, base), Wrap(base + p.at), front, alloc);
    }
  }
}
