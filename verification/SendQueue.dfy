/** What every operation of the send side keeps: unacked ++ unsent is one gap-free copy of the unacknowledged bytes. */
module SendQueue {
  import opened SeqNum
  import opened TcpSend

  /** Positions count the bytes written since the connection was synchronised; byte k has sequence number base + k. */
  ghost predicate SegOk(s: Segment, at: nat, base: int, written: seq<byte>) {
    && s.seqno == Wrap(base + at)
    && s.len == |s.data| <= TCP_MSS
    && (if s.fin then s.data == [] && at == |written|
        else s.data != [] && at + |s.data| <= |written| && s.data == written[at..at + |s.data|])
  }

  /** q is a gap-free run of segments starting at position at. */
  ghost predicate Chain(q: seq<Segment>, at: nat, base: int, written: seq<byte>) {
    q == [] || (SegOk(q[0], at, base, written) && Chain(q[1..], at + TcpLen(q[0]), base, written))
  }

  function Total(q: seq<Segment>): nat {
    if q == [] then 0 else TcpLen(q[0]) + Total(q[1..])
  }

  function Data(q: seq<Segment>): seq<byte> {
    if q == [] then [] else q[0].data + Data(q[1..])
  }

  lemma {:induction false} Concat(a: seq<Segment>, b: seq<Segment>, at: nat, base: int, written: seq<byte>)
    ensures Chain(a + b, at, base, written) <==> Chain(a, at, base, written) && Chain(b, at + Total(a), base, written)
    ensures Total(a + b) == Total(a) + Total(b)
    ensures PbufCount(a + b) == PbufCount(a) + PbufCount(b)
    ensures Data(a + b) == Data(a) + Data(b)
    decreases |a|
  {
    if a == [] {
      assert a + b == b;
    } else {
      assert (a + b)[1..] == a[1..] + b;
      Concat(a[1..], b, at + TcpLen(a[0]), base, written);
    }
  }

  // ----- ACKs

  /** How many leading segments of a run starting at position at end at or below position ack. */
  function AckedCount(q: seq<Segment>, at: nat, ack: nat): (n: nat)
    ensures n <= |q|
  {
    if q != [] && at + TcpLen(q[0]) <= ack then 1 + AckedCount(q[1..], at + TcpLen(q[0]), ack) else 0
  }

  lemma {:induction false} DropAckedIs(q: seq<Segment>, at: nat, ack: nat, base: int, written: seq<byte>)
    requires Chain(q, at, base, written) && at + Total(q) < ack + TWO31 && ack < at + TWO31
    ensures DropAcked(q, Wrap(base + ack)) == q[AckedCount(q, at, ack)..]
    decreases |q|
  {
    if q != [] {
      var end := at + TcpLen(q[0]);
      WrapAdd(base + at, TcpLen(q[0]));
      SeqCompare(base + end, base + ack);
      if end <= ack {
        DropAckedIs(q[1..], end, ack, base, written);
        assert q[1..][AckedCount(q[1..], end, ack)..] == q[AckedCount(q, at, ack)..];
      }
    }
  }

  lemma {:induction false} AckedCountConcat(a: seq<Segment>, b: seq<Segment>, at: nat, ack: nat)
    requires b != [] ==> TcpLen(b[0]) > 0
    ensures AckedCount(a + b, at, ack) == AckedCount(a, at, ack) + AckedCount(b, at + Total(a), ack)
    ensures AckedCount(a, at, ack) < |a| ==> AckedCount(b, at + Total(a), ack) == 0
    decreases |a|
  {
    if a == [] {
      assert a + b == b;
    } else {
      assert (a + b)[1..] == a[1..] + b;
      if at + TcpLen(a[0]) <= ack {
        AckedCountConcat(a[1..], b, at + TcpLen(a[0]), ack);
      }
    }
  }

  /** Scanning unsent before unacked drops exactly the acknowledged prefix of unacked ++ unsent. */
  lemma DropBoth(a: seq<Segment>, b: seq<Segment>, at: nat, ack: nat, base: int, written: seq<byte>)
    requires Chain(a + b, at, base, written) && at <= ack <= at + Total(a + b) && Total(a + b) < TWO31
    requires b != [] ==> TcpLen(b[0]) > 0
    ensures DropAcked(a, Wrap(base + ack)) + DropAcked(b, Wrap(base + ack)) == (a + b)[AckedCount(a + b, at, ack)..]
    ensures DropAcked(a, Wrap(base + ack)) != [] ==> DropAcked(b, Wrap(base + ack)) == b
  {
    hide Chain, Total, Wrap, DropAcked, AckedCount, Data, PbufCount, TcpLen;
    Concat(a, b, at, base, written);
    DropAckedIs(a, at, ack, base, written);
    DropAckedIs(b, at + Total(a), ack, base, written);
    AckedCountConcat(a, b, at, ack);
  }

  lemma {:induction false} AckedAt(q: seq<Segment>, at: nat, ack: nat)
    requires at <= ack <= at + Total(q)
    ensures var k := AckedCount(q, at, ack);
            var at' := at + Total(q[..k]);
            at' <= ack && (k < |q| ==> ack < at' + TcpLen(q[k])) && (k == |q| ==> ack == at + Total(q))
    decreases |q|
  {
    var k := AckedCount(q, at, ack);
    if q != [] && at + TcpLen(q[0]) <= ack {
      AckedAt(q[1..], at + TcpLen(q[0]), ack);
      assert q[..k][1..] == q[1..][..k - 1];
    } else {
      assert q[..k] == [];
    }
    assert q[..|q|] == q;
  }

  /** What remains after an ACK starts at or below ack, ends where it ended, and its first segment reaches past ack. */
  lemma AckedRest(q: seq<Segment>, at: nat, ack: nat, base: int, written: seq<byte>)
    requires Chain(q, at, base, written) && at <= ack <= at + Total(q)
    ensures var k := AckedCount(q, at, ack);
            var at' := at + Total(q[..k]);
            && Chain(q[k..], at', base, written) && at' + Total(q[k..]) == at + Total(q)
            && at' <= ack && (k < |q| ==> ack < at' + TcpLen(q[k])) && (k == |q| ==> ack == at + Total(q))
            && PbufCount(q[..k]) + PbufCount(q[k..]) == PbufCount(q)
  {
    var k := AckedCount(q, at, ack);
    AckedAt(q, at, ack);
    hide AckedCount, Total, TcpLen, Chain, PbufCount, Data;
    assert q == q[..k] + q[k..];
    Concat(q[..k], q[k..], at, base, written);
  }

  // ----- tcp_enqueue()

  lemma {:induction false} BuildChain(left: seq<byte>, fin: bool, copy: bool, mss: u16, at: nat, queueLen: u8, n: nat,
                                      fails: set<nat>, base: int, written: seq<byte>)
    requires queueLen <= TCP_SND_QUEUELEN && mss <= TCP_MSS
    requires at + |left| <= |written| && left == written[at..at + |left|]
    requires if fin then left == [] && at == |written| else left != []
    ensures var b := Build(left, fin, copy, mss, Wrap(base + at), queueLen, n, fails);
            b.Built? ==>
              && Chain(b.queue, at, base, written)
              && Total(b.queue) == |left| + (if fin then 1 else 0)
              && Data(b.queue) == left
              && b.queueLen == queueLen + PbufCount(b.queue) <= TCP_SND_QUEUELEN
              && b.queue != [] && b.queue[0].len <= mss && b.queue[0].fin == fin
    decreases TCP_SND_QUEUELEN + 1 - queueLen
  {
    hide Build, SegOk, Chain, Total, Data, PbufCount, Wrap;
    var seglen: u16 := if |left| > mss then mss else |left|;
    var pbufs := if copy then 1 else 2;
    var seg := Segment(Wrap(base + at), seglen, fin, left[..seglen], pbufs);
    BuildUnfold(left, fin, copy, mss, Wrap(base + at), queueLen, n, fails);
    if |left| == seglen {
      LastSegment(seg, at, base, written);
    } else if mss == 0 {
      NoSpaceWithoutMss(left, copy, Wrap(base + at), queueLen, n, fails);
    } else if queueLen + pbufs <= TCP_SND_QUEUELEN {
      WrapAdd(base + at, seglen);
      BuildChain(left[seglen..], fin, copy, mss, at + seglen, queueLen + pbufs, n + 1 + pbufs, fails, base, written);
      var rest := Build(left[seglen..], fin, copy, mss, Wrap(base + at + seglen), queueLen + pbufs,
                        n + 1 + pbufs, fails);
      if rest.Built? {
        BuildCons(seg, rest.queue, left, at, base, written);
      }
    }
  }

  lemma LastSegment(seg: Segment, at: nat, base: int, written: seq<byte>)
    requires at + |seg.data| <= |written| && seg.data == written[at..at + |seg.data|] &&
             seg.len == |seg.data| <= TCP_MSS
    requires seg.seqno == Wrap(base + at)
    requires if seg.fin then seg.data == [] && at == |written| else seg.data != []
    ensures Chain([seg], at, base, written) && Total([seg]) == |seg.data| + (if seg.fin then 1 else 0)
    ensures PbufCount([seg]) == seg.pbufs && Data([seg]) == seg.data
  {
    OneSegment(seg, at, base, written);
  }

  lemma BuildCons(seg: Segment, rest: seq<Segment>, left: seq<byte>, at: nat, base: int, written: seq<byte>)
    requires 0 < seg.len < |left| && seg.len <= TCP_MSS && seg.data == left[..seg.len] && !seg.fin &&
             seg.seqno == Wrap(base + at)
    requires at + |left| <= |written| && left == written[at..at + |left|]
    requires Chain(rest, at + seg.len, base, written) && Total(rest) == |left| - seg.len &&
             Data(rest) == left[seg.len..]
    ensures Chain([seg] + rest, at, base, written) && Total([seg] + rest) == |left|
    ensures Data([seg] + rest) == left && PbufCount([seg] + rest) == seg.pbufs + PbufCount(rest)
  {
    assert SegOk(seg, at, base, written) && TcpLen(seg) == seg.len;
    ConsRun(seg, rest, at, base, written);
    assert left[..seg.len] + left[seg.len..] == left;
  }

  lemma BuildUnfold(left: seq<byte>, fin: bool, copy: bool, mss: u16, seqno: u32, queueLen: u8, n: nat, fails: set<nat>)
    requires queueLen <= TCP_SND_QUEUELEN
    ensures var pbufs := if copy then 1 else 2;
            var b := Build(left, fin, copy, mss, seqno, queueLen, n, fails);
            b.Built? ==>
              && queueLen + pbufs <= TCP_SND_QUEUELEN
              && (|left| <= mss ==> b == Built([Segment(seqno, |left|, fin, left, pbufs)], queueLen + pbufs))
              && (|left| > mss ==>
                    var seg := Segment(seqno, mss, fin, left[..mss], pbufs);
                    var rest := Build(left[mss..], fin, copy, mss, Wrap(seqno + mss), queueLen + pbufs,
                                      n + 1 + pbufs, fails);
                    rest.Built? && b == Built([seg] + rest.queue, rest.queueLen))
  {
    assert left[..|left|] == left;
  }

  lemma ConsRun(seg: Segment, rest: seq<Segment>, at: nat, base: int, written: seq<byte>)
    requires SegOk(seg, at, base, written) && Chain(rest, at + TcpLen(seg), base, written)
    ensures Chain([seg] + rest, at, base, written)
    ensures Total([seg] + rest) == TcpLen(seg) + Total(rest)
    ensures PbufCount([seg] + rest) == seg.pbufs + PbufCount(rest)
    ensures Data([seg] + rest) == seg.data + Data(rest)
  {
    assert ([seg] + rest)[1..] == rest;
  }

  lemma OneSegment(seg: Segment, at: nat, base: int, written: seq<byte>)
    ensures SegOk(seg, at, base, written) ==> Chain([seg], at, base, written)
    ensures Total([seg]) == TcpLen(seg) && PbufCount([seg]) == seg.pbufs && Data([seg]) == seg.data
  {
    assert [seg][1..] == [] && seg.data + [] == seg.data;
  }

  /** No segment is longer than the maximum segment size. */
  predicate Sized(q: seq<Segment>, mss: u16) {
    forall k :: 0 <= k < |q| ==> q[k].len <= mss
  }

  lemma {:induction false} BuildSizes(left: seq<byte>, fin: bool, copy: bool, mss: u16, seqno: u32, queueLen: u8,
                                      n: nat, fails: set<nat>)
    requires queueLen <= TCP_SND_QUEUELEN
    ensures var b := Build(left, fin, copy, mss, seqno, queueLen, n, fails); b.Built? ==> Sized(b.queue, mss)
    decreases TCP_SND_QUEUELEN + 1 - queueLen
  {
    hide Build;
    var pbufs: u8 := if copy then 1 else 2;
    BuildUnfold(left, fin, copy, mss, seqno, queueLen, n, fails);
    if queueLen + pbufs <= TCP_SND_QUEUELEN && |left| > mss {
      BuildSizes(left[mss..], fin, copy, mss, Wrap(seqno + mss), queueLen + pbufs, n + 1 + pbufs, fails);
    }
  }

  /** Neither cutting up the data nor merging into the last unsent segment makes a segment longer than mss. */
  lemma EnqueueSizes(st: State, data: seq<byte>, fin: bool, copy: bool, fails: set<nat>)
    requires |data| < TWO16 && Sized(st.unsent, st.mss)
    ensures Sized(Enqueue(st, data, fin, copy, fails).0.unsent, st.mss)
  {
    hide Build, Append, Merges;
    if |data| <= st.sndBuf && st.queueLen < TCP_SND_QUEUELEN {
      BuildSizes(data, fin, copy, st.mss, st.sndLbb, st.queueLen, 0, fails);
      var b := Build(data, fin, copy, st.mss, st.sndLbb, st.queueLen, 0, fails);
      if b.Built? {
        BuildNonempty(data, fin, copy, st.mss, st.sndLbb, st.queueLen, 0, fails);
        AppendIs(st.unsent, fin, b.queue, st.mss);
      }
    }
  }

  /** With a maximum segment size of 0 the loop makes no progress through the data; the queue limit ends it. */
  lemma {:induction false} NoSpaceWithoutMss(left: seq<byte>, copy: bool, seqno: u32, queueLen: u8, n: nat,
                                             fails: set<nat>)
    requires queueLen <= TCP_SND_QUEUELEN && left != []
    ensures Build(left, false, copy, 0, seqno, queueLen, n, fails).NoMemory?
    decreases TCP_SND_QUEUELEN + 1 - queueLen
  {
    var pbufs := if copy then 1 else 2;
    if queueLen + pbufs <= TCP_SND_QUEUELEN {
      assert left[0..] == left;
      NoSpaceWithoutMss(left, copy, Wrap(seqno + 0), queueLen + pbufs, n + 1 + pbufs, fails);
    }
  }

  /** Without a FIN a run stays a run when more is written. */
  lemma {:induction false} ChainExtend(q: seq<Segment>, at: nat, base: int, written: seq<byte>, more: seq<byte>)
    requires Chain(q, at, base, written) && at + Total(q) <= |written|
    ensures Chain(q, at, base, written + more)
    ensures forall i :: 0 <= i < |q| ==> !q[i].fin && q[i].data != []
    decreases |q|
  {
    if q != [] {
      ChainExtend(q[1..], at + TcpLen(q[0]), base, written, more);
    }
  }

  /** The last unsent segment extended by the first new one, followed by the other new ones. */
  lemma MergedRun(useg: Segment, queue: seq<Segment>, a: nat, base: int, written: seq<byte>)
    requires SegOk(useg, a, base, written) && queue != [] && Chain(queue, a + TcpLen(useg), base, written)
    requires !useg.fin && !queue[0].fin && useg.len + queue[0].len <= TCP_MSS && useg.pbufs + queue[0].pbufs < 256
    ensures var q := [Chained(useg, queue[0])] + queue[1..];
            && Chain(q, a, base, written)
            && Total(q) == TcpLen(useg) + Total(queue)
            && Data(q) == useg.data + Data(queue)
            && PbufCount(q) == useg.pbufs + PbufCount(queue)
  {
    hide SegOk, Chain, Total, Data, PbufCount;
    var first, rest := queue[0], queue[1..];
    var merged := Chained(useg, first);
    HeadRun(queue, a + TcpLen(useg), base, written);
    MergeOk(useg, first, a, base, written);
    assert TcpLen(merged) == TcpLen(useg) + TcpLen(first);
    ConsRun(merged, rest, a, base, written);
    assert useg.data + (first.data + Data(rest)) == useg.data + first.data + Data(rest);
  }

  lemma HeadRun(q: seq<Segment>, at: nat, base: int, written: seq<byte>)
    requires q != [] && Chain(q, at, base, written)
    ensures SegOk(q[0], at, base, written) && Chain(q[1..], at + TcpLen(q[0]), base, written)
    ensures Total(q) == TcpLen(q[0]) + Total(q[1..]) && Data(q) == q[0].data + Data(q[1..])
    ensures PbufCount(q) == q[0].pbufs + PbufCount(q[1..])
  {
  }

  lemma SplitLast(q: seq<Segment>, at: nat, base: int, written: seq<byte>)
    requires Chain(q, at, base, written) && q != []
    ensures var front, last := q[..|q| - 1], q[|q| - 1];
            && Chain(front, at, base, written) && SegOk(last, at + Total(front), base, written)
            && Total(q) == Total(front) + TcpLen(last) && Data(q) == Data(front) + last.data
            && PbufCount(q) == PbufCount(front) + last.pbufs
            && last.pbufs <= PbufCount(q)
  {
    var front, last := q[..|q| - 1], q[|q| - 1];
    assert q == front + [last];
    Concat(front, [last], at, base, written);
    OneSegment(last, at + Total(front), base, written);
    assert Chain([last], at + Total(front), base, written);
  }

  lemma AppendMerged(front: seq<Segment>, useg: Segment, queue: seq<Segment>, at: nat, base: int, written: seq<byte>)
    requires Chain(front, at, base, written) && SegOk(useg, at + Total(front), base, written)
    requires queue != [] && Chain(queue, at + Total(front) + TcpLen(useg), base, written)
    requires !useg.fin && !queue[0].fin && useg.len + queue[0].len <= TCP_MSS && useg.pbufs + queue[0].pbufs < 256
    ensures var q := front + ([Chained(useg, queue[0])] + queue[1..]);
            && Chain(q, at, base, written)
            && Total(q) == Total(front) + TcpLen(useg) + Total(queue)
            && Data(q) == Data(front) + (useg.data + Data(queue))
            && PbufCount(q) == PbufCount(front) + useg.pbufs + PbufCount(queue)
  {
    hide SegOk, TcpLen, Total, Data, PbufCount, Chain;
    MergedRun(useg, queue, at + Total(front), base, written);
    Concat(front, [Chained(useg, queue[0])] + queue[1..], at, base, written);
  }

  lemma PbufHead(q: seq<Segment>)
    requires q != []
    ensures q[0].pbufs <= PbufCount(q)
  {
  }

  lemma AppendMerging(unsent: seq<Segment>, queue: seq<Segment>, fin: bool, mss: u16, at: nat, base: int,
                      written: seq<byte>)
    requires Chain(unsent, at, base, written) && Chain(queue, at + Total(unsent), base, written)
    requires queue != [] && queue[0].fin == fin && mss <= TCP_MSS
    requires PbufCount(unsent) + PbufCount(queue) < 256
    requires Merges(unsent, fin, queue[0], mss)
    ensures var q := Append(unsent, fin, queue, mss);
            && Chain(q, at, base, written)
            && Total(q) == Total(unsent) + Total(queue)
            && Data(q) == Data(unsent) + Data(queue)
            && PbufCount(q) == PbufCount(unsent) + PbufCount(queue)
  {
    hide SegOk, TcpLen, Total, Data, PbufCount, Chain, Merges, Append, Chained;
    PbufHead(queue);
    AppendIs(unsent, fin, queue, mss);
    var front, useg := unsent[..|unsent| - 1], unsent[|unsent| - 1];
    SplitLast(unsent, at, base, written);
    AppendMerged(front, useg, queue, at, base, written);
    assert Data(front) + useg.data + Data(queue) == Data(front) + (useg.data + Data(queue));
  }

  lemma AppendChain(unsent: seq<Segment>, queue: seq<Segment>, fin: bool, mss: u16, at: nat, base: int,
                    written: seq<byte>)
    requires Chain(unsent, at, base, written) && Chain(queue, at + Total(unsent), base, written)
    requires queue != [] && queue[0].fin == fin && mss <= TCP_MSS
    requires PbufCount(unsent) + PbufCount(queue) < 256
    ensures var q := Append(unsent, fin, queue, mss);
            && Chain(q, at, base, written)
            && Total(q) == Total(unsent) + Total(queue)
            && Data(q) == Data(unsent) + Data(queue)
            && PbufCount(q) == PbufCount(unsent) + PbufCount(queue)
  {
    hide SegOk, TcpLen, Total, Data, PbufCount, Chain, Merges, Append;
    if Merges(unsent, fin, queue[0], mss) {
      AppendMerging(unsent, queue, fin, mss, at, base, written);
    } else {
      AppendIs(unsent, fin, queue, mss);
      Concat(unsent, queue, at, base, written);
    }
  }

  lemma AppendIs(unsent: seq<Segment>, fin: bool, queue: seq<Segment>, mss: u16)
    requires queue != []
    ensures !Merges(unsent, fin, queue[0], mss) ==> Append(unsent, fin, queue, mss) == unsent + queue
    ensures Merges(unsent, fin, queue[0], mss) ==>
              && unsent != [] && !unsent[|unsent| - 1].fin && !fin && unsent[|unsent| - 1].len + queue[0].len <= mss
              && Append(unsent, fin, queue, mss) ==
                 unsent[..|unsent| - 1] + ([Chained(unsent[|unsent| - 1], queue[0])] + queue[1..])
  {
  }

  lemma MergeOk(useg: Segment, first: Segment, a: nat, base: int, written: seq<byte>)
    requires SegOk(useg, a, base, written) && SegOk(first, a + TcpLen(useg), base, written)
    requires !useg.fin && !first.fin && useg.len + first.len <= TCP_MSS
    ensures SegOk(Chained(useg, first), a, base, written)
  {
  }
}
