/** The heap of SW_stub/lwtcp/mem.c as a list of blocks: what each allocator operation does to the tiling. */
module HeapLayout {
  import opened SeqNum

  const MEM_SIZE := 5120000
  const ALIGNMENT := 4
  /** SIZEOF_STRUCT_MEM: two 32-bit offsets and a flag byte, rounded up. */
  const HEADER := 12
  const MIN_SIZE := 12

  /** A block starts with its header at offset at and extends to the start of the next block. */
  datatype Block = Block(at: nat, used: bool)

  datatype Layout = Layout(blocks: seq<Block>, lfree: nat)

  /** The end of block i, which is what its header stores as next. */
  function End(bs: seq<Block>, i: nat): nat
    requires i < |bs|
  {
    if i + 1 < |bs| then bs[i + 1].at else MEM_SIZE
  }

  /** Blocks tile [0, MEM_SIZE) and each holds at least its header. */
  ghost predicate Sized(bs: seq<Block>) {
    && bs != [] && bs[0].at == 0
    && (forall i :: 0 <= i < |bs| ==> bs[i].at + HEADER <= End(bs, i))
  }

  predicate Separated(bs: seq<Block>, i: nat) {
    i + 1 < |bs| ==> bs[i].used || bs[i + 1].used
  }

  /** ... and no two neighbours are both free. */
  ghost predicate Tiling(bs: seq<Block>) {
    Sized(bs) && forall i :: 0 <= i < |bs| ==> Separated(bs, i)
  }

  /** ... except that block k may have free neighbours. */
  ghost predicate TilingBut(bs: seq<Block>, k: nat) {
    Sized(bs) && forall i :: 0 <= i < |bs| && i != k && i + 1 != k ==> Separated(bs, i)
  }

  /** Index of the block starting at offset at, or |bs|. */
  function Find(bs: seq<Block>, at: nat): (i: nat)
    ensures i <= |bs| && (i < |bs| ==> bs[i].at == at)
    ensures forall j :: 0 <= j < i ==> bs[j].at != at
  {
    if bs == [] || bs[0].at == at then 0 else 1 + Find(bs[1..], at)
  }

  predicate IsFree(bs: seq<Block>, at: nat) {
    var i := Find(bs, at);
    i < |bs| && !bs[i].used
  }

  predicate IsUsed(bs: seq<Block>, at: nat) {
    var i := Find(bs, at);
    i < |bs| && bs[i].used
  }

  ghost predicate Well(l: Layout) {
    Tiling(l.blocks) && IsFree(l.blocks, l.lfree)
  }

  // ----- Operations

  /** The requested size as mem_malloc() rounds it, in 32-bit arithmetic. */
  function Round(request: u32): u32 {
    if request % ALIGNMENT != 0 then Wrap(request + (ALIGNMENT - (request + HEADER) % ALIGNMENT)) else request
  }

  predicate Fits(bs: seq<Block>, i: nat, size: nat)
    requires i < |bs|
  {
    !bs[i].used && End(bs, i) - (bs[i].at + HEADER) >= size + HEADER
  }

  /** First fit from block i on. */
  function FitFrom(bs: seq<Block>, i: nat, size: nat): (j: nat)
    requires i <= |bs|
    ensures i <= j <= |bs| && (j < |bs| ==> Fits(bs, j, size))
    ensures forall k :: i <= k < j ==> !Fits(bs, k, size)
    decreases |bs| - i
  {
    if i == |bs| || Fits(bs, i, size) then i else FitFrom(bs, i + 1, size)
  }

  function Split(bs: seq<Block>, i: nat, at: nat): seq<Block>
    requires i < |bs|
  {
    bs[..i] + [Block(bs[i].at, true), Block(at, false)] + bs[i + 1..]
  }

  function Drop(bs: seq<Block>, i: nat): seq<Block>
    requires i < |bs|
  {
    bs[..i] + bs[i + 1..]
  }

  /** plug_holes() on free block i: merge with a free successor, then with a free predecessor. */
  function PlugForward(l: Layout, i: nat): Layout
    requires i < |l.blocks|
  {
    if i + 1 < |l.blocks| && !l.blocks[i + 1].used then
      Layout(Drop(l.blocks, i + 1), if l.lfree == l.blocks[i + 1].at then l.blocks[i].at else l.lfree)
    else l
  }

  function PlugBackward(l: Layout, i: nat): Layout
    requires i < |l.blocks|
  {
    if i > 0 && !l.blocks[i - 1].used then
      Layout(Drop(l.blocks, i), if l.lfree == l.blocks[i].at then l.blocks[i - 1].at else l.lfree)
    else l
  }

  function PlugHoles(l: Layout, i: nat): Layout
    requires i < |l.blocks|
  {
    PlugBackward(PlugForward(l, i), i)
  }

  datatype Pointer = Null | Pointer(offset: nat)

  /** mem_malloc() */
  function Malloc(l: Layout, request: u32): (Layout, Pointer) {
    var size := Round(request);
    if request == 0 || size > MEM_SIZE then (l, Null)
    else
      var i := FitFrom(l.blocks, Find(l.blocks, l.lfree), size);
      if i == |l.blocks| then (l, Null)
      else
        var at := l.blocks[i].at;
        var rest := at + HEADER + size;
        (Layout(Split(l.blocks, i, rest), if l.lfree == at then rest else l.lfree), Pointer(at + HEADER))
  }

  /** mem_free() of the payload of used block i */
  function Free(l: Layout, i: nat): Layout
    requires i < |l.blocks|
  {
    var at := l.blocks[i].at;
    PlugHoles(Layout(l.blocks[i := Block(at, false)], if at < l.lfree then at else l.lfree), i)
  }

  predicate Splits(bs: seq<Block>, i: nat, newsize: nat)
    requires i < |bs|
  {
    newsize + HEADER + MIN_SIZE < End(bs, i) - bs[i].at - HEADER
  }

  /** mem_realloc() of the payload of used block i */
  function Realloc(l: Layout, i: nat, newsize: nat): Layout
    requires i < |l.blocks|
  {
    if Splits(l.blocks, i, newsize) then
      PlugHoles(l.(blocks := Split(l.blocks, i, l.blocks[i].at + HEADER + newsize)), i + 1)
    else l
  }

  /** In 32 bits the test of mem_realloc() decides as Splits does, but for sizes next to 2^32 that wrap around to less
      than the size of the block: for those the new header would go onto the header of the block or just before it. */
  predicate TestWraps(size: nat, newsize: u32) {
    newsize + HEADER + MIN_SIZE >= TWO32 && Wrap(newsize + HEADER + MIN_SIZE) < size
  }

  lemma ReallocTest(ptr: nat, size: nat, newsize: u32)
    requires size <= MEM_SIZE
    ensures (Wrap(newsize + HEADER + MIN_SIZE) < size <==> newsize + HEADER + MIN_SIZE < size)
            <==> !TestWraps(size, newsize)
    ensures TestWraps(size, newsize) ==> ptr - HEADER <= ptr + HEADER + newsize - TWO32 < ptr + HEADER
  {
  }

  // ----- Tilings

  lemma {:induction false} Sorted(bs: seq<Block>, i: nat, j: nat)
    requires Sized(bs) && i < j < |bs|
    ensures bs[i].at + HEADER <= End(bs, i) <= bs[j].at
    decreases j - i
  {
    assert bs[i].at + HEADER <= End(bs, i);
    if i + 1 < j {
      Sorted(bs, i, j - 1);
      assert bs[j - 1].at + HEADER <= End(bs, j - 1);
    }
  }

  lemma FindIs(bs: seq<Block>, i: nat)
    requires Sized(bs) && i < |bs|
    ensures Find(bs, bs[i].at) == i
  {
    var k := Find(bs, bs[i].at);
    if k < i {
      Sorted(bs, k, i);
    }
  }

  lemma InHeap(bs: seq<Block>, i: nat)
    requires Sized(bs) && i < |bs|
    ensures bs[i].at + HEADER <= End(bs, i) <= MEM_SIZE
  {
    assert bs[i].at + HEADER <= End(bs, i);
    if i + 1 < |bs| {
      var n := |bs| - 1;
      assert bs[n].at + HEADER <= End(bs, n);
      if i + 1 < n {
        Sorted(bs, i + 1, n);
      }
    }
  }

  lemma SplitOk(bs: seq<Block>, i: nat, at: nat)
    requires Sized(bs) && i < |bs| && bs[i].at + HEADER <= at && at + HEADER <= End(bs, i)
    ensures Sized(Split(bs, i, at))
  {
    SplitIs(bs, i, at);
    var s := Split(bs, i, at);
    hide Split;
    forall j | 0 <= j < |s| ensures s[j].at + HEADER <= End(s, j) {
      if j < i {
        assert bs[j].at + HEADER <= End(bs, j);
      } else if j > i + 1 {
        assert bs[j - 1].at + HEADER <= End(bs, j - 1);
      }
    }
  }

  lemma SplitIs(bs: seq<Block>, i: nat, at: nat)
    requires i < |bs|
    ensures var s := Split(bs, i, at);
            && |s| == |bs| + 1 && s[i] == Block(bs[i].at, true) && s[i + 1] == Block(at, false)
            && (forall j :: 0 <= j < i ==> s[j] == bs[j])
            && (forall j :: i + 1 < j < |s| ==> s[j] == bs[j - 1])
  {
  }

  lemma DropIs(bs: seq<Block>, i: nat)
    requires i < |bs|
    ensures var d := Drop(bs, i);
            && |d| == |bs| - 1
            && (forall j :: 0 <= j < i ==> d[j] == bs[j])
            && (forall j :: i <= j < |d| ==> d[j] == bs[j + 1])
  {
  }

  lemma DropOk(bs: seq<Block>, i: nat)
    requires Sized(bs) && 0 < i < |bs|
    ensures Sized(Drop(bs, i))
  {
    hide Drop;
    DropIs(bs, i);
    var d := Drop(bs, i);
    assert bs[i].at + HEADER <= End(bs, i);
    forall j | 0 <= j < |d| ensures d[j].at + HEADER <= End(d, j) {
      assert bs[if j < i then j else j + 1].at + HEADER <= End(bs, if j < i then j else j + 1);
    }
  }

  lemma DropSeparated(bs: seq<Block>, i: nat, j: nat)
    requires 0 < i < |bs| && j < |bs| - 1
    requires j < i - 1 ==> Separated(bs, j)
    requires j >= i - 1 ==> Separated(bs, j + 1)
    requires j == i - 1 ==> !bs[i].used
    ensures Separated(Drop(bs, i), j)
  {
  }

  /** Dropping block i keeps every other free block free. */
  lemma DropFree(bs: seq<Block>, i: nat, at: nat)
    requires Sized(bs) && 0 < i < |bs| && IsFree(bs, at) && at != bs[i].at
    ensures IsFree(Drop(bs, i), at)
  {
    hide Drop, Sized;
    DropOk(bs, i);
    DropIs(bs, i);
    var k := Find(bs, at);
    FindIs(Drop(bs, i), if k < i then k else k - 1);
  }

  /** Merging around a free block leaves no two free neighbours, and lfree on a free block if it was on one. */
  lemma PlugHolesOk(l: Layout, k: nat)
    requires TilingBut(l.blocks, k) && k < |l.blocks| && !l.blocks[k].used && IsFree(l.blocks, l.lfree)
    ensures Well(PlugHoles(l, k))
  {
    hide PlugForward, PlugBackward, TilingBut, IsFree, Well;
    PlugForwardOk(l, k);
    PlugBackwardOk(PlugForward(l, k), k);
  }

  lemma PlugForwardOk(l: Layout, k: nat)
    requires TilingBut(l.blocks, k) && k < |l.blocks| && !l.blocks[k].used && IsFree(l.blocks, l.lfree)
    ensures var l1 := PlugForward(l, k);
            && TilingBut(l1.blocks, k) && k < |l1.blocks| && Separated(l1.blocks, k) && l1.blocks[k] == l.blocks[k]
            && IsFree(l1.blocks, l1.lfree)
  {
    hide Drop, IsFree, Sized;
    var bs := l.blocks;
    if k + 1 < |bs| && !bs[k + 1].used {
      var d := Drop(bs, k + 1);
      DropOk(bs, k + 1);
      DropIs(bs, k + 1);
      forall i | 0 <= i < |d| && i + 1 != k ensures Separated(d, i) {
        DropSeparated(bs, k + 1, i);
      }
      if l.lfree == bs[k + 1].at {
        FreeAt(d, k);
      } else {
        DropFree(bs, k + 1, l.lfree);
      }
    }
  }

  lemma FreeAt(bs: seq<Block>, i: nat)
    requires Sized(bs) && i < |bs| && !bs[i].used
    ensures IsFree(bs, bs[i].at)
  {
    FindIs(bs, i);
  }

  lemma PlugBackwardOk(l: Layout, k: nat)
    requires TilingBut(l.blocks, k) && k < |l.blocks| && Separated(l.blocks, k) && !l.blocks[k].used &&
             IsFree(l.blocks, l.lfree)
    ensures Well(PlugBackward(l, k))
  {
    hide Drop, IsFree, Sized;
    var bs := l.blocks;
    if k > 0 && !bs[k - 1].used {
      var d := Drop(bs, k);
      DropOk(bs, k);
      DropIs(bs, k);
      forall i | 0 <= i < |d| ensures Separated(d, i) {
        DropSeparated(bs, k, i);
      }
      if l.lfree == bs[k].at {
        FreeAt(d, k - 1);
      } else {
        DropFree(bs, k, l.lfree);
      }
    }
  }

  // ----- Live allocations

  /** The block [at, end) is allocated: its payload is [at + HEADER, end). */
  predicate Live(bs: seq<Block>, at: nat, end: nat) {
    var i := Find(bs, at);
    i < |bs| && bs[i].used && End(bs, i) == end
  }

  /** Live blocks never overlap each other, and the header of no block, live or free, lies in a live payload. */
  lemma LiveDisjoint(bs: seq<Block>, at: nat, end: nat, i: nat)
    requires Sized(bs) && Live(bs, at, end) && i < |bs| && bs[i].at != at
    ensures End(bs, i) <= at || end <= bs[i].at
    ensures at + HEADER <= end <= MEM_SIZE
  {
    var k := Find(bs, at);
    InHeap(bs, k);
    if i < k {
      Sorted(bs, i, k);
    } else {
      Sorted(bs, k, i);
    }
  }

  lemma FindAbsent(bs: seq<Block>, at: nat)
    requires forall i :: 0 <= i < |bs| ==> bs[i].at != at
    ensures Find(bs, at) == |bs|
  {
  }

  lemma DropLive(bs: seq<Block>, i: nat, at: nat, end: nat)
    requires Sized(bs) && 0 < i < |bs| && !bs[i].used && !bs[i - 1].used
    ensures Live(Drop(bs, i), at, end) <==> Live(bs, at, end)
  {
    hide Drop, Sized;
    var d, k := Drop(bs, i), Find(bs, at);
    DropOk(bs, i);
    DropIs(bs, i);
    if k < |bs| {
      if k != i {
        FindIs(d, if k < i then k else k - 1);
      } else {
        DropAbsent(bs, i);
      }
    } else {
      FindAbsent(d, at);
    }
  }

  lemma DropAbsent(bs: seq<Block>, i: nat)
    requires Sized(bs) && 0 < i < |bs|
    ensures Find(Drop(bs, i), bs[i].at) == |bs| - 1
  {
    hide Drop;
    DropIs(bs, i);
    forall j | 0 <= j < |bs| && j != i ensures bs[j].at != bs[i].at {
      if j < i {
        Sorted(bs, j, i);
      } else {
        Sorted(bs, i, j);
      }
    }
    FindAbsent(Drop(bs, i), bs[i].at);
  }

  lemma PlugLive(l: Layout, k: nat, at: nat, end: nat)
    requires Sized(l.blocks) && k < |l.blocks| && !l.blocks[k].used
    ensures Live(PlugHoles(l, k).blocks, at, end) <==> Live(l.blocks, at, end)
  {
    hide Drop, Live, Sized;
    var bs := l.blocks;
    if k + 1 < |bs| && !bs[k + 1].used {
      DropOk(bs, k + 1);
      DropIs(bs, k + 1);
      DropLive(bs, k + 1, at, end);
    }
    var l1 := PlugForward(l, k);
    if k > 0 && !l1.blocks[k - 1].used {
      DropLive(l1.blocks, k, at, end);
    }
  }

  lemma SplitLive(bs: seq<Block>, i: nat, cut: nat, at: nat, end: nat)
    requires Sized(bs) && i < |bs| && bs[i].at + HEADER <= cut && cut + HEADER <= End(bs, i)
    ensures Live(Split(bs, i, cut), at, end) <==> if at == bs[i].at then end == cut else Live(bs, at, end)
  {
    hide Split, Sized, Find;
    var s, k := Split(bs, i, cut), Find(bs, at);
    SplitOk(bs, i, cut);
    SplitIs(bs, i, cut);
    FindIs(bs, i);
    FindIs(s, i);
    FindIs(s, i + 1);
    if k < |bs| && k != i {
      FindIs(s, if k < i then k else k + 1);
    } else if k == |bs| && at != cut {
      FindAbsent(s, at);
    }
  }

  // ----- Every operation

  lemma MarkUsed(bs: seq<Block>, i: nat, used: bool)
    requires Sized(bs) && i < |bs|
    ensures Sized(bs[i := Block(bs[i].at, used)])
    ensures forall at: nat, end: nat :: at != bs[i].at ==>
              (Live(bs[i := Block(bs[i].at, used)], at, end) <==> Live(bs, at, end))
    ensures !used ==> !IsUsed(bs[i := Block(bs[i].at, used)], bs[i].at)
  {
    hide Sized, Live;
    var m := bs[i := Block(bs[i].at, used)];
    MarkSized(bs, i, used);
    FindIs(m, i);
    forall at: nat, end: nat | at != bs[i].at ensures Live(m, at, end) <==> Live(bs, at, end) {
      MarkLive(bs, i, used, at, end);
    }
  }

  lemma MarkSized(bs: seq<Block>, i: nat, used: bool)
    requires Sized(bs) && i < |bs|
    ensures Sized(bs[i := Block(bs[i].at, used)])
  {
    var m := bs[i := Block(bs[i].at, used)];
    forall j | 0 <= j < |m| ensures m[j].at + HEADER <= End(m, j) {
      assert bs[j].at + HEADER <= End(bs, j);
    }
  }

  lemma MarkLive(bs: seq<Block>, i: nat, used: bool, at: nat, end: nat)
    requires i < |bs| && at != bs[i].at
    ensures Live(bs[i := Block(bs[i].at, used)], at, end) <==> Live(bs, at, end)
  {
    MarkFind(bs, i, Block(bs[i].at, used), at);
  }

  lemma {:induction false} MarkFind(bs: seq<Block>, i: nat, b: Block, at: nat)
    requires i < |bs| && b.at == bs[i].at
    ensures Find(bs[i := b], at) == Find(bs, at)
    decreases |bs|
  {
    if bs[0].at != at && |bs| > 1 {
      if i > 0 {
        assert bs[i := b][1..] == bs[1..][i - 1 := b];
        MarkFind(bs[1..], i - 1, b, at);
      } else {
        assert bs[i := b][1..] == bs[1..];
      }
    }
  }

  lemma SplitSeparated(bs: seq<Block>, i: nat, cut: nat)
    requires Tiling(bs) && i < |bs| && bs[i].at + HEADER <= cut && cut + HEADER <= End(bs, i)
    ensures TilingBut(Split(bs, i, cut), i + 1)
    ensures !bs[i].used ==> Tiling(Split(bs, i, cut))
  {
    hide Split, Sized;
    var s := Split(bs, i, cut);
    SplitOk(bs, i, cut);
    SplitIs(bs, i, cut);
    assert Separated(bs, i);
    forall j | 0 <= j < |s| && j != i + 1 && j != i ensures Separated(s, j) {
      if j < i {
        assert Separated(bs, j);
      } else {
        assert Separated(bs, j - 1);
      }
    }
  }

  lemma SplitFree(bs: seq<Block>, i: nat, cut: nat, at: nat)
    requires Sized(bs) && i < |bs| && bs[i].at + HEADER <= cut && cut + HEADER <= End(bs, i)
    requires (IsFree(bs, at) && at != bs[i].at) || at == cut
    ensures IsFree(Split(bs, i, cut), at)
  {
    hide Split, Sized;
    var s, k := Split(bs, i, cut), Find(bs, at);
    SplitOk(bs, i, cut);
    SplitIs(bs, i, cut);
    if at == cut {
      FindIs(s, i + 1);
    } else {
      FindIs(s, if k < i then k else k + 1);
    }
  }

  /** A successful allocation adds one live block of the rounded size and disturbs no other; failure changes nothing. */
  lemma MallocKeeps(l: Layout, request: u32)
    requires Well(l)
    ensures var (l', p) := Malloc(l, request);
            && Well(l')
            && (p.Null? ==> l' == l)
            && (p.Pointer? ==>
                  && p.offset >= HEADER
                  && !IsUsed(l.blocks, p.offset - HEADER)
                  && forall at: nat, end: nat :: Live(l'.blocks, at, end) <==>
                       if at == p.offset - HEADER then end == p.offset + Round(request) else Live(l.blocks, at, end))
  {
    hide Split, Sized, Separated, Live, IsFree, Round;
    var (l', p) := Malloc(l, request);
    if p.Pointer? {
      var size := Round(request);
      var i := FitFrom(l.blocks, Find(l.blocks, l.lfree), size);
      var rest := l.blocks[i].at + HEADER + size;
      SplitSeparated(l.blocks, i, rest);
      SplitFree(l.blocks, i, rest, l'.lfree);
      NotLive(l.blocks, i);
      forall at: nat, end: nat
        ensures Live(l'.blocks, at, end) <==> if at == p.offset - HEADER then end == rest else Live(l.blocks, at, end)
      {
        SplitLive(l.blocks, i, rest, at, end);
      }
    }
  }

  lemma NotLive(bs: seq<Block>, i: nat)
    requires Sized(bs) && i < |bs| && !bs[i].used
    ensures !IsUsed(bs, bs[i].at)
  {
    FindIs(bs, i);
  }

  /** Freeing removes exactly that live block. */
  lemma FreeKeeps(l: Layout, i: nat)
    requires Well(l) && i < |l.blocks| && l.blocks[i].used
    ensures Well(Free(l, i))
    ensures forall at: nat, end: nat ::
              Live(Free(l, i).blocks, at, end) <==> at != l.blocks[i].at && Live(l.blocks, at, end)
  {
    hide Live, IsFree, PlugHoles, Sized;
    var at0 := l.blocks[i].at;
    var m := l.blocks[i := Block(at0, false)];
    var l1 := Layout(m, if at0 < l.lfree then at0 else l.lfree);
    MarkUsed(l.blocks, i, false);
    forall j | 0 <= j < |m| && j != i && j + 1 != i ensures Separated(m, j) {
      assert Separated(l.blocks, j);
    }
    MarkFree(l.blocks, i, l.lfree);
    PlugHolesOk(l1, i);
    forall at: nat, end: nat ensures Live(Free(l, i).blocks, at, end) <==> at != at0 && Live(l.blocks, at, end) {
      PlugLive(l1, i, at, end);
      LiveIsUsed(m, at, end);
    }
  }

  lemma LiveIsUsed(bs: seq<Block>, at: nat, end: nat)
    ensures Live(bs, at, end) ==> IsUsed(bs, at)
  {
  }

  lemma MarkFree(bs: seq<Block>, i: nat, at: nat)
    requires Sized(bs) && i < |bs| && IsFree(bs, at)
    ensures IsFree(bs[i := Block(bs[i].at, false)], at) && IsFree(bs[i := Block(bs[i].at, false)], bs[i].at)
  {
    hide Sized;
    FindIs(bs, i);
    MarkFind(bs, i, Block(bs[i].at, false), at);
    MarkFind(bs, i, Block(bs[i].at, false), bs[i].at);
  }

  /** Shrinking moves only the end of that live block, and does so if what is cut off holds a header and more than
      MIN_SIZE bytes. */
  lemma ReallocKeeps(l: Layout, i: nat, newsize: nat)
    requires Well(l) && i < |l.blocks| && l.blocks[i].used
    ensures Well(Realloc(l, i, newsize))
    ensures forall at: nat, end: nat :: Live(Realloc(l, i, newsize).blocks, at, end) <==>
              if at == l.blocks[i].at
              then end == (if End(l.blocks, i) - (at + HEADER + newsize) > HEADER + MIN_SIZE then at + HEADER + newsize
                           else End(l.blocks, i))
              else Live(l.blocks, at, end)
  {
    hide Live, IsFree, PlugHoles, Sized, Split, Separated;
    if Splits(l.blocks, i, newsize) {
      var cut := l.blocks[i].at + HEADER + newsize;
      var l1 := l.(blocks := Split(l.blocks, i, cut));
      SplitIs(l.blocks, i, cut);
      SplitSeparated(l.blocks, i, cut);
      NotFree(l.blocks, i, l.lfree);
      SplitFree(l.blocks, i, cut, l.lfree);
      PlugHolesOk(l1, i + 1);
      forall at: nat, end: nat ensures Live(Realloc(l, i, newsize).blocks, at, end) <==>
                             if at == l.blocks[i].at then end == cut else Live(l.blocks, at, end) {
        PlugLive(l1, i + 1, at, end);
        SplitLive(l.blocks, i, cut, at, end);
      }
    } else {
      LiveAt(l.blocks, i);
    }
  }

  lemma NotFree(bs: seq<Block>, i: nat, at: nat)
    requires Sized(bs) && i < |bs| && bs[i].used && IsFree(bs, at)
    ensures at != bs[i].at
  {
    FindIs(bs, i);
  }

  lemma LiveAt(bs: seq<Block>, i: nat)
    requires Sized(bs) && i < |bs| && bs[i].used
    ensures forall end :: Live(bs, bs[i].at, end) <==> end == End(bs, i)
  {
    FindIs(bs, i);
  }

  /** Once nothing is allocated the heap is one free block again, with lfree at its start. */
  lemma AllFree(l: Layout)
    requires Well(l) && forall i :: 0 <= i < |l.blocks| ==> !l.blocks[i].used
    ensures l == Layout([Block(0, false)], 0)
  {
    assert Separated(l.blocks, 0);
    assert l.blocks == [l.blocks[0]];
  }

  /** The rounded size is the next multiple of the alignment, unless rounding up wraps around 2^32, and then it is 0. */
  lemma RoundCovers(request: u32)
    ensures Round(request) >= request <==> request <= TWO32 - ALIGNMENT
    ensures Round(request) % ALIGNMENT == 0
    ensures if request <= TWO32 - ALIGNMENT then Round(request) < request + ALIGNMENT else Round(request) == 0
  {
  }

  // ----- lfree as the lowest free block

  ghost predicate Lowest(l: Layout) {
    forall i :: 0 <= i < |l.blocks| && !l.blocks[i].used ==> l.lfree <= l.blocks[i].at
  }

  lemma PlugLowest(l: Layout, k: nat)
    requires Sized(l.blocks) && Lowest(l) && k < |l.blocks| && !l.blocks[k].used
    ensures Lowest(PlugHoles(l, k))
  {
    hide Drop, Sized;
    var bs := l.blocks;
    var l1 := PlugForward(l, k);
    if k + 1 < |bs| {
      Sorted(bs, k, k + 1);
      DropIs(bs, k + 1);
    }
    if k > 0 {
      Sorted(bs, k - 1, k);
      DropIs(l1.blocks, k);
    }
  }

  lemma MallocLowest(l: Layout, request: u32)
    requires Well(l) && Lowest(l)
    ensures Lowest(Malloc(l, request).0)
  {
    hide Split, Sized, Round, IsFree;
    var size := Round(request);
    var i := FitFrom(l.blocks, Find(l.blocks, l.lfree), size);
    if Malloc(l, request).1.Pointer? {
      var rest := l.blocks[i].at + HEADER + size;
      SplitIs(l.blocks, i, rest);
      forall j | 0 <= j < |l.blocks| && j != i && !l.blocks[j].used && l.lfree == l.blocks[i].at
        ensures rest <= l.blocks[j].at
      {
        if j < i {
          Sorted(l.blocks, j, i);
        } else {
          Sorted(l.blocks, i, j);
        }
      }
    }
  }

  lemma FreeLowest(l: Layout, i: nat)
    requires Well(l) && Lowest(l) && i < |l.blocks|
    ensures Lowest(Free(l, i))
  {
    hide PlugHoles, Sized;
    MarkUsed(l.blocks, i, false);
    var at := l.blocks[i].at;
    PlugLowest(Layout(l.blocks[i := Block(at, false)], if at < l.lfree then at else l.lfree), i);
  }

  /** mem_realloc() loses the property exactly when it cuts a block below lfree that lfree does not directly follow. */
  lemma ReallocLowest(l: Layout, i: nat, newsize: nat)
    requires Well(l) && Lowest(l) && i < |l.blocks| && l.blocks[i].used
    ensures Lowest(Realloc(l, i, newsize)) <==>
            !(Splits(l.blocks, i, newsize) && l.blocks[i].at < l.lfree && l.lfree != End(l.blocks, i))
  {
    hide Split, Sized, IsFree, Drop;
    var bs := l.blocks;
    if Splits(bs, i, newsize) {
      var cut := bs[i].at + HEADER + newsize;
      var s := Split(bs, i, cut);
      SplitIs(bs, i, cut);
      SplitOk(bs, i, cut);
      InHeap(bs, i);
      NotFree(bs, i, l.lfree);
      FreePlace(bs, i, l.lfree);
      if l.lfree < bs[i].at {
        PlugLowest(l.(blocks := s), i + 1);
      } else if l.lfree == End(bs, i) {
        FreeIndex(bs, l.lfree, i);
        DropIs(s, i + 2);
        assert Realloc(l, i, newsize) == Layout(Drop(s, i + 2), cut);
        NoneBelow(l, i);
      } else {
        assert i + 1 < |bs| ==> bs[i + 1].used;
        assert Realloc(l, i, newsize) == l.(blocks := s);
        assert !s[i + 1].used && s[i + 1].at < l.lfree;
      }
    }
  }

  lemma FreePlace(bs: seq<Block>, i: nat, at: nat)
    requires Sized(bs) && i < |bs| && bs[i].used && IsFree(bs, at)
    ensures at < bs[i].at || (End(bs, i) <= at && i + 1 < |bs|)
  {
    var k := Find(bs, at);
    if k < i {
      Sorted(bs, k, i);
    } else if i < k {
      Sorted(bs, i, k);
    }
  }

  lemma FreeIndex(bs: seq<Block>, at: nat, i: nat)
    requires Sized(bs) && i < |bs| && IsFree(bs, at) && at == End(bs, i) && i + 1 < |bs|
    ensures !bs[i + 1].used
  {
    FindIs(bs, i + 1);
  }

  lemma NoneBelow(l: Layout, i: nat)
    requires Sized(l.blocks) && Lowest(l) && i < |l.blocks| && l.blocks[i].at < l.lfree
    ensures forall j :: 0 <= j < i ==> l.blocks[j].used
  {
    forall j | 0 <= j < i ensures l.blocks[j].used {
      Sorted(l.blocks, j, i);
    }
  }

  /** Block i is free, at lfree or above, and holds the rounded size and two headers, its own and that of the rest. */
  predicate Serves(l: Layout, i: nat, size: nat)
    requires i < |l.blocks|
  {
    var b := l.blocks[i];
    !b.used && l.lfree <= b.at && End(l.blocks, i) - b.at >= HEADER + size + HEADER
  }

  lemma FitServes(l: Layout, i: nat, size: nat)
    requires Well(l) && i < |l.blocks|
    ensures Serves(l, i, size) <==> Find(l.blocks, l.lfree) <= i && Fits(l.blocks, i, size)
  {
    hide Separated;
    var k := Find(l.blocks, l.lfree);
    if i < k {
      Sorted(l.blocks, i, k);
    } else if k < i {
      Sorted(l.blocks, k, i);
    }
  }

  /** What is allocated is the front of the first block that serves; nothing is when none does. */
  lemma MallocFirst(l: Layout, request: u32)
    requires Well(l)
    ensures var size, n := Round(request), |l.blocks|;
            match Malloc(l, request).1
            case Null => request == 0 || size > MEM_SIZE || forall i :: 0 <= i < n ==> !Serves(l, i, size)
            case Pointer(offset) =>
              && request != 0 && size <= MEM_SIZE
              && exists i :: 0 <= i < n && Serves(l, i, size) && l.blocks[i].at == offset - HEADER
                             && forall j :: 0 <= j < i ==> !Serves(l, j, size)
  {
    hide Round, Split, Fits, Serves, Well;
    var size := Round(request);
    forall j | 0 <= j < |l.blocks|
      ensures Serves(l, j, size) <==> Find(l.blocks, l.lfree) <= j && Fits(l.blocks, j, size)
    {
      FitServes(l, j, size);
    }
    if Malloc(l, request).1.Pointer? {
      var i := FitFrom(l.blocks, Find(l.blocks, l.lfree), size);
      assert Serves(l, i, size);
    }
  }

  /** With lfree lowest, mem_malloc() finds a block whenever the heap holds one. */
  lemma MallocComplete(l: Layout, request: u32)
    requires Well(l) && Lowest(l) && request != 0 && Round(request) <= MEM_SIZE
    ensures Malloc(l, request).1.Null? <==>
            forall i :: 0 <= i < |l.blocks| && !l.blocks[i].used ==>
                          End(l.blocks, i) - l.blocks[i].at < HEADER + Round(request) + HEADER
  {
    hide Round, Split, Well, Malloc;
    MallocFirst(l, request);
    forall i | 0 <= i < |l.blocks| && !l.blocks[i].used
      ensures Serves(l, i, Round(request)) <==>
              End(l.blocks, i) - l.blocks[i].at >= HEADER + Round(request) + HEADER
    {
    }
  }

  // ----- Alignment

  ghost predicate Aligned(bs: seq<Block>) {
    forall i :: 0 <= i < |bs| ==> bs[i].at % ALIGNMENT == 0
  }

  lemma MallocAligned(l: Layout, request: u32)
    requires Well(l) && Aligned(l.blocks)
    ensures var (l', p) := Malloc(l, request);
            Aligned(l'.blocks) && (p.Pointer? ==> p.offset % ALIGNMENT == 0)
  {
    hide Split, Sized, Round, IsFree, Fits;
    var size := Round(request);
    RoundCovers(request);
    var i := FitFrom(l.blocks, Find(l.blocks, l.lfree), size);
    if Malloc(l, request).1.Pointer? {
      SplitIs(l.blocks, i, l.blocks[i].at + HEADER + size);
    }
  }

  lemma PlugAligned(l: Layout, k: nat)
    requires k < |l.blocks| && !l.blocks[k].used
    ensures Aligned(l.blocks) ==> Aligned(PlugHoles(l, k).blocks)
  {
    hide Drop;
    var l1 := PlugForward(l, k);
    if k + 1 < |l.blocks| {
      DropIs(l.blocks, k + 1);
    }
    DropIs(l1.blocks, k);
  }

  lemma FreeAligned(l: Layout, i: nat)
    requires Aligned(l.blocks) && i < |l.blocks|
    ensures Aligned(Free(l, i).blocks)
  {
    hide PlugHoles;
    var at := l.blocks[i].at;
    PlugAligned(Layout(l.blocks[i := Block(at, false)], if at < l.lfree then at else l.lfree), i);
  }

  /** mem_realloc() does not round: it breaks the alignment exactly when it splits at an unaligned size. */
  lemma ReallocAligned(l: Layout, i: nat, newsize: nat)
    requires Well(l) && Aligned(l.blocks) && i < |l.blocks| && l.blocks[i].used
    ensures Aligned(Realloc(l, i, newsize).blocks) <==> !(Splits(l.blocks, i, newsize) && newsize % ALIGNMENT != 0)
  {
    hide Split, Well, PlugHoles, Aligned;
    if Splits(l.blocks, i, newsize) {
      var cut := l.blocks[i].at + HEADER + newsize;
      var l1 := l.(blocks := Split(l.blocks, i, cut));
      SplitAligned(l.blocks, i, newsize);
      SplitIs(l.blocks, i, cut);
      if newsize % ALIGNMENT == 0 {
        PlugAligned(l1, i + 1);
      } else {
        PlugStays(l1, i + 1);
        NotAligned(PlugHoles(l1, i + 1).blocks, i + 1);
      }
    }
  }

  lemma SplitAligned(bs: seq<Block>, i: nat, newsize: nat)
    requires Aligned(bs) && i < |bs|
    ensures var cut := bs[i].at + HEADER + newsize;
            && (cut % ALIGNMENT == 0 <==> newsize % ALIGNMENT == 0)
            && (cut % ALIGNMENT == 0 ==> Aligned(Split(bs, i, cut)))
  {
    hide Split;
    SplitIs(bs, i, bs[i].at + HEADER + newsize);
  }

  lemma NotAligned(bs: seq<Block>, i: nat)
    requires i < |bs| && bs[i].at % ALIGNMENT != 0
    ensures !Aligned(bs)
  {
  }

  /** A block behind one in use stays where it is. */
  lemma PlugStays(l: Layout, k: nat)
    requires 0 < k < |l.blocks| && l.blocks[k - 1].used
    ensures var bs := PlugHoles(l, k).blocks; k < |bs| && bs[k].at == l.blocks[k].at
  {
    hide Drop;
    if k + 1 < |l.blocks| {
      DropIs(l.blocks, k + 1);
    }
  }

  // ----- Runs

  datatype Op = MallocOp(request: u32) | FreeOp(offset: nat) | ReallocOp(offset: nat, newsize: nat)

  /** Pointers passed back to the allocator are payload addresses of live blocks. */
  predicate Legal(l: Layout, op: Op) {
    !op.MallocOp? ==> op.offset >= HEADER && IsUsed(l.blocks, op.offset - HEADER)
  }

  function Step(l: Layout, op: Op): Layout
    requires Legal(l, op)
  {
    match op
    case MallocOp(request) => Malloc(l, request).0
    case FreeOp(offset) => Free(l, Find(l.blocks, offset - HEADER))
    case ReallocOp(offset, newsize) => Realloc(l, Find(l.blocks, offset - HEADER), newsize)
  }

  predicate LegalRun(l: Layout, ops: seq<Op>)
    decreases |ops|
  {
    ops == [] || (Legal(l, ops[0]) && LegalRun(Step(l, ops[0]), ops[1..]))
  }

  function Run(l: Layout, ops: seq<Op>): Layout
    requires LegalRun(l, ops)
    decreases |ops|
  {
    if ops == [] then l else Run(Step(l, ops[0]), ops[1..])
  }

  const INITIAL := Layout([Block(0, false)], 0)

  predicate Names(op: Op, at: nat) {
    !op.MallocOp? && op.offset == at + HEADER
  }

  lemma StepKeeps(l: Layout, op: Op)
    requires Well(l) && Legal(l, op)
    ensures Well(Step(l, op))
    ensures forall at: nat, end: nat :: Live(l.blocks, at, end) && !Names(op, at) ==> Live(Step(l, op).blocks, at, end)
  {
    hide Malloc, Free, Realloc, Well, Live;
    match op {
      case MallocOp(request) => MallocKeeps(l, request); LiveImplies(l.blocks);
      case FreeOp(offset) => FreeKeeps(l, Find(l.blocks, offset - HEADER));
      case ReallocOp(offset, newsize) => ReallocKeeps(l, Find(l.blocks, offset - HEADER), newsize);
    }
  }

  lemma LiveImplies(bs: seq<Block>)
    ensures forall at: nat, end: nat :: Live(bs, at, end) ==> IsUsed(bs, at)
  {
  }

  /** From a valid heap, any run leaves a valid heap, and an allocation that no free or realloc of the run names is
      still there, at the same place and with the same extent. */
  lemma {:induction false} RunKeeps(l: Layout, ops: seq<Op>)
    requires Well(l) && LegalRun(l, ops)
    ensures Well(Run(l, ops))
    ensures forall at: nat, end: nat ::
              Live(l.blocks, at, end) && (forall i :: 0 <= i < |ops| ==> !Names(ops[i], at)) ==>
                Live(Run(l, ops).blocks, at, end)
    decreases |ops|
  {
    hide Well, Live, Step, Legal, Names;
    if ops != [] {
      StepKeeps(l, ops[0]);
      var l1 := Step(l, ops[0]);
      RunKeeps(l1, ops[1..]);
      forall at: nat, end: nat | Live(l.blocks, at, end) && (forall i :: 0 <= i < |ops| ==> !Names(ops[i], at))
        ensures Live(Run(l, ops).blocks, at, end)
      {
        assert !Names(ops[0], at);
        assert forall i :: 0 <= i < |ops[1..]| ==> ops[1..][i] == ops[i + 1];
      }
    }
  }

  lemma InitialOk()
    ensures Well(INITIAL) && Lowest(INITIAL) && Aligned(INITIAL.blocks)
  {
  }

  // ----- Two runs that shrink a block

  lemma RunThree(l: Layout, a: Op, b: Op, c: Op)
    requires Legal(l, a) && Legal(Step(l, a), b) && Legal(Step(Step(l, a), b), c)
    ensures LegalRun(l, [a, b, c]) && Run(l, [a, b, c]) == Step(Step(Step(l, a), b), c)
  {
    hide Legal, Step;
    assert [a, b, c][1..] == [b, c] && [b, c][1..] == [c] && [c][1..] == [];
    var l2 := Step(Step(l, a), b);
    assert LegalRun(Step(l2, c), []) && Run(Step(l2, c), []) == Step(l2, c);
    assert LegalRun(l2, [c]) && Run(l2, [c]) == Step(l2, c);
    assert LegalRun(Step(l, a), [b, c]) && Run(Step(l, a), [b, c]) == Step(l2, c);
  }

  lemma TwoMallocs()
    ensures Legal(INITIAL, MallocOp(100)) && Legal(Step(INITIAL, MallocOp(100)), MallocOp(4))
    ensures Step(Step(INITIAL, MallocOp(100)), MallocOp(4))
              == Layout([Block(0, true), Block(112, true), Block(128, false)], 128)
  {
    var l1 := Layout([Block(0, true), Block(112, false)], 112);
    assert Step(INITIAL, MallocOp(100)) == l1;
    assert Find(l1.blocks, 112) == 1;
    assert FitFrom(l1.blocks, 1, 4) == 1;
  }

  /** Two blocks, and the first shrunk to 24 or to 25 bytes: the free block that splits off lies below lfree, and with
      25 bytes it is not aligned either. */
  lemma ShrinkBelowFree(newsize: nat)
    requires newsize == 24 || newsize == 25
    ensures var ops := [MallocOp(100), MallocOp(4), ReallocOp(HEADER, newsize)];
            && LegalRun(INITIAL, ops)
            && Run(INITIAL, ops).lfree == 128
            && !Lowest(Run(INITIAL, ops))
            && (Aligned(Run(INITIAL, ops).blocks) <==> newsize == 24)
  {
    hide LegalRun, Run, Malloc, Step, Legal;
    TwoMallocs();
    ShrinkFirst(newsize);
    RunThree(INITIAL, MallocOp(100), MallocOp(4), ReallocOp(HEADER, newsize));
    var l3 := Layout([Block(0, true), Block(HEADER + newsize, false), Block(112, true), Block(128, false)], 128);
    assert !l3.blocks[1].used && l3.blocks[1].at < l3.lfree;
  }

  lemma ShrinkFirst(newsize: nat)
    requires newsize == 24 || newsize == 25
    ensures var l2 := Layout([Block(0, true), Block(112, true), Block(128, false)], 128);
            && Legal(l2, ReallocOp(HEADER, newsize))
            && Step(l2, ReallocOp(HEADER, newsize))
                 == Layout([Block(0, true), Block(HEADER + newsize, false), Block(112, true), Block(128, false)], 128)
  {
    var l2 := Layout([Block(0, true), Block(112, true), Block(128, false)], 128);
    assert Find(l2.blocks, 0) == 0;
    SplitIs(l2.blocks, 0, HEADER + newsize);
  }
}
