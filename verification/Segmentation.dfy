/** When tcp_enqueue() (SW_stub/lwtcp/tcp_output.c) succeeds, and into which segments it puts the data. */
module Segmentation {
  import opened SeqNum
  import opened TcpSend
  import opened SendQueue

  /** Into how many segments len bytes are cut: one for no data, otherwise as many as they fill, the last in part. */
  function Cuts(len: nat, mss: u16): (c: nat)
    requires mss > 0 || len == 0
    ensures c >= 1
  {
    if len <= mss then 1 else 1 + Cuts(len - mss, mss)
  }

  lemma {:induction false} CutsMeans(len: nat, mss: u16)
    requires mss > 0
    ensures var c := Cuts(len, mss); len <= c * mss && (c - 1) * mss <= len && (len > 0 ==> (c - 1) * mss < len)
  {
    if len > mss {
      CutsMeans(len - mss, mss);
      var c := Cuts(len - mss, mss);
      assert (1 + c) * mss == mss + c * mss && c * mss == mss + (c - 1) * mss;
    }
  }

  /** The pbufs of c segments: a segment whose data is not copied has a second one for its header. */
  function Pbufs(c: nat, copy: bool): nat {
    if copy then c else c + c
  }

  predicate NoneFails(fails: set<nat>, n: nat, m: nat) {
    forall i :: n <= i < n + m ==> i !in fails
  }

  /** The queue has room for the pbufs, and none of the allocations, one more for each segment, fails. */
  predicate Affordable(len: nat, copy: bool, mss: u16, queueLen: u8, n: nat, fails: set<nat>) {
    && (mss > 0 || len == 0)
    && var c := Cuts(len, mss);
       queueLen + Pbufs(c, copy) <= TCP_SND_QUEUELEN && NoneFails(fails, n, c + Pbufs(c, copy))
  }

  lemma NoneFailsSplit(fails: set<nat>, n: nat, a: nat, b: nat)
    ensures NoneFails(fails, n, a + b) <==> NoneFails(fails, n, a) && NoneFails(fails, n + a, b)
  {
  }

  lemma AffordableStep(len: nat, copy: bool, mss: u16, queueLen: u8, n: nat, fails: set<nat>)
    requires mss > 0 || len == 0
    ensures var pbufs := if copy then 1 else 2;
            Affordable(len, copy, mss, queueLen, n, fails) <==>
            && queueLen + pbufs <= TCP_SND_QUEUELEN && NoneFails(fails, n, 1 + pbufs)
            && (len > mss ==> Affordable(len - mss, copy, mss, queueLen + pbufs, n + 1 + pbufs, fails))
  {
    hide NoneFails;
    if len > mss {
      var c, pbufs := Cuts(len - mss, mss), if copy then 1 else 2;
      NoneFailsSplit(fails, n, 1 + pbufs, c + Pbufs(c, copy));
    }
  }

  /** The segmentation loop succeeds exactly when the segments are affordable; then there are as many as the data fill,
      and all but the last are full. */
  lemma {:induction false} BuildExactly(left: seq<byte>, fin: bool, copy: bool, mss: u16, seqno: u32, queueLen: u8,
                                        n: nat, fails: set<nat>)
    requires queueLen <= TCP_SND_QUEUELEN
    ensures var b := Build(left, fin, copy, mss, seqno, queueLen, n, fails);
            && (b.Built? <==> Affordable(|left|, copy, mss, queueLen, n, fails))
            && (b.Built? ==>
                  && |b.queue| == Cuts(|left|, mss) && b.queueLen == queueLen + Pbufs(|b.queue|, copy)
                  && (forall k :: 0 <= k < |b.queue| ==> b.queue[k].pbufs == if copy then 1 else 2)
                  && (forall k :: 0 <= k < |b.queue| - 1 ==> b.queue[k].len == mss)
                  && b.queue[0].len == if |left| > mss then mss else |left|)
    decreases TCP_SND_QUEUELEN + 1 - queueLen
  {
    hide Affordable, Build, Wrap;
    var pbufs: u8 := if copy then 1 else 2;
    BuildTurn(left, fin, copy, mss, seqno, queueLen, n, fails);
    if mss == 0 && left != [] {
      NothingWithoutMss(left, fin, copy, seqno, queueLen, n, fails);
    } else {
      AffordableStep(|left|, copy, mss, queueLen, n, fails);
      if queueLen + pbufs <= TCP_SND_QUEUELEN && |left| > mss {
        BuildExactly(left[mss..], fin, copy, mss, Wrap(seqno + mss), queueLen + pbufs, n + 1 + pbufs, fails);
      }
    }
  }

  lemma {:induction false} NothingWithoutMss(left: seq<byte>, fin: bool, copy: bool, seqno: u32, queueLen: u8, n: nat,
                                             fails: set<nat>)
    requires queueLen <= TCP_SND_QUEUELEN && left != []
    ensures Build(left, fin, copy, 0, seqno, queueLen, n, fails).NoMemory?
    ensures !Affordable(|left|, copy, 0, queueLen, n, fails)
    decreases TCP_SND_QUEUELEN + 1 - queueLen
  {
    var pbufs := if copy then 1 else 2;
    if queueLen + pbufs <= TCP_SND_QUEUELEN {
      assert left[0..] == left;
      NothingWithoutMss(left, fin, copy, Wrap(seqno + 0), queueLen + pbufs, n + 1 + pbufs, fails);
    }
  }

  /** The data fit into the last unsent segment. */
  predicate Joins(st: State, data: seq<byte>) {
    && st.unsent != []
    && var last := st.unsent[|st.unsent| - 1];
       !last.fin && last.len + |data| <= st.mss
  }

  /** tcp_write(): when it succeeds, and which segments are then unsent.  Data that fit into the last unsent segment go
      there; otherwise that segment stays as it is, and all new segments but the last are full. */
  lemma WriteExactly(st: State, data: seq<byte>, copy: bool, fails: set<nat>)
    requires data != [] && |data| < TWO16 && forall k :: 0 <= k < |st.unsent| ==> TcpLen(st.unsent[k]) > 0
    ensures var (st', ok) := Enqueue(st, data, false, copy, fails);
            && (ok <==> |data| <= st.sndBuf && st.queueLen < TCP_SND_QUEUELEN &&
                        Affordable(|data|, copy, st.mss, st.queueLen, 0, fails))
            && (ok ==>
                  var n := |st.unsent|;
                  if Joins(st, data) then
                    && Cuts(|data|, st.mss) == 1 && |st'.unsent| == n && st'.unsent[..n - 1] == st.unsent[..n - 1]
                    && st'.unsent[n - 1].len == st.unsent[n - 1].len + |data|
                  else
                    && |st'.unsent| == n + Cuts(|data|, st.mss) && st'.unsent[..n] == st.unsent
                    && forall k :: n <= k < |st'.unsent| - 1 ==> st'.unsent[k].len == st.mss)
  {
    hide Build, Append, Merges, Affordable, Chained;
    if |data| <= st.sndBuf && st.queueLen < TCP_SND_QUEUELEN {
      BuildExactly(data, false, copy, st.mss, st.sndLbb, st.queueLen, 0, fails);
      var b := Build(data, false, copy, st.mss, st.sndLbb, st.queueLen, 0, fails);
      if b.Built? {
        AppendsData(st, data, b.queue);
      }
    }
  }

  /** Merging happens exactly when all the data fit: a segment cut off before the end of the data is full. */
  lemma AppendsData(st: State, data: seq<byte>, queue: seq<Segment>)
    requires data != [] && queue != [] && forall k :: 0 <= k < |st.unsent| ==> TcpLen(st.unsent[k]) > 0
    requires st.mss > 0 && |queue| == Cuts(|data|, st.mss)
    requires queue[0].len == if |data| > st.mss then st.mss else |data|
    requires forall k :: 0 <= k < |queue| - 1 ==> queue[k].len == st.mss
    ensures var unsent', n := Append(st.unsent, false, queue, st.mss), |st.unsent|;
            if Joins(st, data) then
              && Cuts(|data|, st.mss) == 1 && |unsent'| == n && unsent'[..n - 1] == st.unsent[..n - 1]
              && unsent'[n - 1].len == st.unsent[n - 1].len + |data|
            else
              && |unsent'| == n + Cuts(|data|, st.mss) && unsent'[..n] == st.unsent
              && forall k :: n <= k < |unsent'| - 1 ==> unsent'[k].len == st.mss
  {
    AppendIs(st.unsent, false, queue, st.mss);
    if Joins(st, data) {
      assert Merges(st.unsent, false, queue[0], st.mss);
    } else if st.unsent != [] {
      var last := st.unsent[|st.unsent| - 1];
      assert last in st.unsent && TcpLen(last) > 0;
      assert !Merges(st.unsent, false, queue[0], st.mss);
    }
  }

  /** A FIN always gets a segment of its own. */
  lemma FinExactly(st: State, copy: bool, fails: set<nat>)
    ensures var (st', ok) := Enqueue(st, [], true, copy, fails);
            && (ok <==> Affordable(0, copy, st.mss, st.queueLen, 0, fails))
            && (ok ==> st'.unsent == st.unsent + [Segment(st.sndLbb, 0, true, [], if copy then 1 else 2)])
  {
    hide Affordable;
    if st.queueLen <= TCP_SND_QUEUELEN {
      BuildExactly([], true, copy, st.mss, st.sndLbb, st.queueLen, 0, fails);
      BuildTurn([], true, copy, st.mss, st.sndLbb, st.queueLen, 0, fails);
    }
    if Affordable(0, copy, st.mss, st.queueLen, 0, fails) {
      TooLong(copy, st.mss, st.queueLen, fails);
    }
  }

  lemma TooLong(copy: bool, mss: u16, queueLen: u8, fails: set<nat>)
    requires Affordable(0, copy, mss, queueLen, 0, fails)
    ensures queueLen < TCP_SND_QUEUELEN
  {
  }

  /** A write changes the unsent list, snd_lbb, snd_buf and snd_queuelen, and nothing else. */
  lemma EnqueueFrame(st: State, data: seq<byte>, fin: bool, copy: bool, fails: set<nat>)
    requires |data| < TWO16
    ensures var st' := Enqueue(st, data, fin, copy, fails).0;
            st' == st.(unsent := st'.unsent, sndLbb := st'.sndLbb, sndBuf := st'.sndBuf, queueLen := st'.queueLen)
  {
    hide Build, Append, Wrap, Wrap16;
  }
}
