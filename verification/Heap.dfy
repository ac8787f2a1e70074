/** SW_stub/lwtcp/mem.c: the allocator over the static array ram, whose headers link the blocks by offset. */
module Heap {
  import opened SeqNum
  import opened HeapLayout

  /** struct mem */
  datatype Mem = Mem(next: nat, prev: nat, used: bool)

  // A memory image m is the array ram: m[p] is the struct mem stored at byte offset p, m[MEM_SIZE] is *ram_end.

  /** The header of block i: next and prev are mutually inverse. */
  ghost predicate HeaderOk(m: seq<Mem>, bs: seq<Block>, i: nat)
    requires |m| == MEM_SIZE + 1 && i < |bs|
  {
    bs[i].at < MEM_SIZE && m[bs[i].at] == Mem(End(bs, i), if i == 0 then 0 else bs[i - 1].at, bs[i].used)
  }

  ghost predicate Links(m: seq<Mem>, bs: seq<Block>) {
    && |m| == MEM_SIZE + 1
    && (forall i :: 0 <= i < |bs| ==> HeaderOk(m, bs, i))
    && m[MEM_SIZE].used && m[MEM_SIZE].next == MEM_SIZE
  }

  lemma NextStart(bs: seq<Block>, i: nat)
    requires Sized(bs) && i < |bs|
    ensures End(bs, i) == MEM_SIZE <==> i + 1 == |bs|
    ensures forall k :: 0 <= k < |bs| ==> bs[k].at < MEM_SIZE && (bs[k].at == End(bs, i) <==> k == i + 1)
  {
    InHeap(bs, i);
    if i + 1 < |bs| {
      InHeap(bs, i + 1);
    }
    forall k | 0 <= k < |bs| ensures bs[k].at < MEM_SIZE && (bs[k].at == End(bs, i) <==> k == i + 1) {
      InHeap(bs, k);
      if k < i {
        Sorted(bs, k, i);
      } else if k > i + 1 {
        Sorted(bs, i + 1, k);
      }
    }
  }

  lemma Distinct(bs: seq<Block>, i: nat)
    requires Sized(bs) && i < |bs|
    ensures forall k :: 0 <= k < |bs| && k != i ==> bs[k].at != bs[i].at
    ensures forall k :: 0 <= k < |bs| && k != i ==> bs[k].at < bs[i].at || bs[k].at >= End(bs, i)
  {
    forall k | 0 <= k < |bs| && k != i ensures bs[k].at != bs[i].at && (bs[k].at < bs[i].at || bs[k].at >= End(bs, i)) {
      if k < i {
        Sorted(bs, k, i);
      } else {
        Sorted(bs, i, k);
        InHeap(bs, i);
      }
    }
  }

  // ----- The writes of each operation, as functions of the memory image

  function SplitWrites(m: seq<Mem>, ptr: nat, cut: nat): seq<Mem>
    requires ptr < |m| && cut < |m| && ptr != cut && m[ptr].next < |m|
  {
    var next := m[ptr].next;
    var m1 := m[cut := Mem(next, ptr, false)][ptr := m[ptr].(next := cut, used := true)];
    if next != MEM_SIZE then m1[next := m1[next].(prev := cut)] else m1
  }

  lemma LinksAt(m: seq<Mem>, bs: seq<Block>, i: nat)
    requires Links(m, bs) && i < |bs|
    ensures HeaderOk(m, bs, i)
  {
  }

  lemma SplitHeader(m: seq<Mem>, bs: seq<Block>, i: nat, cut: nat, k: nat)
    requires Links(m, bs) && Sized(bs) && i < |bs| && bs[i].at + HEADER <= cut && cut + HEADER <= End(bs, i) <= MEM_SIZE
    requires HeaderOk(m, bs, i) && k <= |bs| && |m| == MEM_SIZE + 1
    ensures HeaderOk(SplitWrites(m, bs[i].at, cut), Split(bs, i, cut), k)
  {
    hide Split, Sized, Links;
    SplitIs(bs, i, cut);
    NextStart(bs, i);
    Distinct(bs, i);
    if k < i {
      LinksAt(m, bs, k);
      assert bs[k].at != cut && bs[k].at != bs[i].at && bs[k].at != End(bs, i);
    } else if k > i + 1 {
      LinksAt(m, bs, k - 1);
    }
  }

  lemma SplitLinks(m: seq<Mem>, bs: seq<Block>, i: nat, cut: nat)
    requires Links(m, bs) && Sized(bs) && i < |bs| && bs[i].at + HEADER <= cut && cut + HEADER <= End(bs, i)
    ensures bs[i].at < MEM_SIZE && cut < MEM_SIZE && m[bs[i].at].next == End(bs, i) <= MEM_SIZE
    ensures Links(SplitWrites(m, bs[i].at, cut), Split(bs, i, cut))
  {
    hide Split, Sized, HeaderOk;
    InHeap(bs, i);
    HeaderMeans(m, bs, i);
    SplitIs(bs, i, cut);
    var m', s := SplitWrites(m, bs[i].at, cut), Split(bs, i, cut);
    forall k | 0 <= k < |s| ensures HeaderOk(m', s, k) {
      SplitHeader(m, bs, i, cut, k);
    }
  }

  lemma HeaderMeans(m: seq<Mem>, bs: seq<Block>, i: nat)
    requires Links(m, bs) && i < |bs|
    ensures |m| == MEM_SIZE + 1 && HeaderOk(m, bs, i) && bs[i].at < MEM_SIZE && m[bs[i].at].next == End(bs, i)
    ensures m[bs[i].at].used == bs[i].used && m[bs[i].at].prev == if i == 0 then 0 else bs[i - 1].at
  {
    assert HeaderOk(m, bs, i);
  }

  /** The header of block i takes over the extent of block i + 1. */
  function MergeWrites(m: seq<Mem>, ptr: nat): seq<Mem>
    requires ptr < |m| && m[ptr].next < |m| && m[m[ptr].next].next < |m|
  {
    var next := m[m[ptr].next].next;
    var m1 := m[ptr := m[ptr].(next := next)];
    m1[next := m1[next].(prev := ptr)]
  }

  lemma MergeHeader(m: seq<Mem>, bs: seq<Block>, i: nat, k: nat)
    requires Links(m, bs) && Sized(bs) && i + 1 < |bs| && k < |bs| - 1
    requires |m| == MEM_SIZE + 1 && HeaderOk(m, bs, i) && HeaderOk(m, bs, i + 1) && End(bs, i + 1) <= MEM_SIZE
    ensures HeaderOk(MergeWrites(m, bs[i].at), Drop(bs, i + 1), k)
  {
    hide Drop, Sized, Links;
    DropIs(bs, i + 1);
    NextStart(bs, i + 1);
    Distinct(bs, i);
    if k <= i {
      LinksAt(m, bs, k);
      assert bs[k].at != End(bs, i + 1);
    } else {
      LinksAt(m, bs, k + 1);
    }
  }

  lemma MergeLinks(m: seq<Mem>, bs: seq<Block>, i: nat)
    requires Links(m, bs) && Sized(bs) && i + 1 < |bs|
    ensures bs[i].at < MEM_SIZE && m[bs[i].at].next == bs[i + 1].at < MEM_SIZE &&
            m[bs[i + 1].at].next == End(bs, i + 1) <= MEM_SIZE
    ensures Links(MergeWrites(m, bs[i].at), Drop(bs, i + 1))
  {
    hide Drop, Sized, HeaderOk;
    HeaderMeans(m, bs, i);
    HeaderMeans(m, bs, i + 1);
    InHeap(bs, i + 1);
    DropIs(bs, i + 1);
    var m', d := MergeWrites(m, bs[i].at), Drop(bs, i + 1);
    forall k | 0 <= k < |d| ensures HeaderOk(m', d, k) {
      MergeHeader(m, bs, i, k);
    }
  }

  lemma MarkLinks(m: seq<Mem>, bs: seq<Block>, i: nat)
    requires Links(m, bs) && Sized(bs) && i < |bs|
    ensures bs[i].at < MEM_SIZE
    ensures Links(m[bs[i].at := m[bs[i].at].(used := false)], bs[i := Block(bs[i].at, false)])
  {
    assert HeaderOk(m, bs, i);
    var m', b := m[bs[i].at := m[bs[i].at].(used := false)], bs[i := Block(bs[i].at, false)];
    Distinct(bs, i);
    hide Sized;
    forall k | 0 <= k < |b| ensures HeaderOk(m', b, k) {
      assert HeaderOk(m, bs, k);
    }
  }

  predicate IsStart(bs: seq<Block>, p: nat) {
    Find(bs, p) < |bs|
  }

  /** Below ram_end, only cells that are block headers before or after differ: no payload byte is written. */
  ghost predicate OnlyHeaders(m: seq<Mem>, m': seq<Mem>, bs: seq<Block>, bs': seq<Block>) {
    |m| == |m'| == MEM_SIZE + 1 && forall p :: 0 <= p < MEM_SIZE && m[p] != m'[p] ==> IsStart(bs, p) || IsStart(bs', p)
  }

  lemma StartAt(bs: seq<Block>, i: nat)
    requires Sized(bs) && i < |bs|
    ensures IsStart(bs, bs[i].at) && (End(bs, i) == MEM_SIZE || IsStart(bs, End(bs, i)))
  {
    FindIs(bs, i);
    if i + 1 < |bs| {
      FindIs(bs, i + 1);
    }
  }

  lemma SplitTouches(m: seq<Mem>, bs: seq<Block>, i: nat, cut: nat)
    requires Links(m, bs) && Sized(bs) && i < |bs| && bs[i].at + HEADER <= cut && cut + HEADER <= End(bs, i) <= MEM_SIZE
    requires bs[i].at < MEM_SIZE && m[bs[i].at].next == End(bs, i)
    ensures OnlyHeaders(m, SplitWrites(m, bs[i].at, cut), bs, Split(bs, i, cut))
  {
    hide Sized, Split;
    StartAt(bs, i);
    SplitOk(bs, i, cut);
    SplitIs(bs, i, cut);
    StartAt(Split(bs, i, cut), i + 1);
    hide HeaderOk;
  }

  lemma MergeTouches(m: seq<Mem>, bs: seq<Block>, i: nat, bs': seq<Block>)
    requires Links(m, bs) && Sized(bs) && i + 1 < |bs| && bs[i].at < MEM_SIZE
    requires m[bs[i].at].next == bs[i + 1].at < MEM_SIZE && m[bs[i + 1].at].next == End(bs, i + 1) <= MEM_SIZE
    ensures OnlyHeaders(m, MergeWrites(m, bs[i].at), bs, bs')
  {
    hide Sized, HeaderOk;
    StartAt(bs, i);
    StartAt(bs, i + 1);
  }

  lemma StartsAfterDrop(bs: seq<Block>, i: nat)
    requires Sized(bs) && 0 < i < |bs|
    ensures forall p :: IsStart(Drop(bs, i), p) ==> IsStart(bs, p)
  {
    hide Sized, Drop;
    var d := Drop(bs, i);
    DropIs(bs, i);
    forall p | IsStart(d, p) ensures IsStart(bs, p) {
      var k := Find(d, p);
      FindIs(bs, if k < i then k else k + 1);
    }
  }

  lemma TouchesChain(m: seq<Mem>, m1: seq<Mem>, m2: seq<Mem>, a: seq<Block>, b: seq<Block>, c: seq<Block>)
    requires OnlyHeaders(m, m1, a, b) && OnlyHeaders(m1, m2, b, c)
    requires forall p :: IsStart(b, p) ==> IsStart(a, p) || IsStart(c, p)
    ensures OnlyHeaders(m, m2, a, c)
  {
    hide IsStart;
    forall p | 0 <= p < MEM_SIZE && m[p] != m2[p] ensures IsStart(a, p) || IsStart(c, p) {
      assert m[p] != m1[p] || m1[p] != m2[p];
    }
  }

  lemma ReallocStarts(bs: seq<Block>, i: nat, cut: nat, l: Layout, end: seq<Block>)
    requires Sized(bs) && i < |bs| && bs[i].at + HEADER <= cut && cut + HEADER <= End(bs, i)
    requires l.blocks == Split(bs, i, cut) && end == PlugHoles(l, i + 1).blocks && Sized(end)
    ensures forall p :: IsStart(l.blocks, p) ==> IsStart(bs, p) || IsStart(end, p)
  {
    hide Sized, Split, Drop;
    var s := l.blocks;
    SplitIs(bs, i, cut);
    if i + 2 < |s| {
      DropIs(s, i + 2);
    }
    assert end[i + 1].at == cut;
    FindIs(end, i + 1);
    forall p | IsStart(s, p) ensures IsStart(bs, p) || IsStart(end, p) {
      var k := Find(s, p);
      if k != i + 1 {
        FindIs(bs, if k <= i then k else k - 1);
      }
    }
  }

  lemma NothingTouched(m: seq<Mem>, bs: seq<Block>)
    requires Links(m, bs)
    ensures |m| == MEM_SIZE + 1
    ensures OnlyHeaders(m, m, bs, bs)
  {
  }

  lemma MarkTouches(m: seq<Mem>, bs: seq<Block>, i: nat)
    requires Links(m, bs) && Sized(bs) && i < |bs| && bs[i].at < MEM_SIZE
    ensures var bs' := bs[i := Block(bs[i].at, false)];
            && OnlyHeaders(m, m[bs[i].at := m[bs[i].at].(used := false)], bs, bs')
            && forall p :: IsStart(bs', p) ==> IsStart(bs, p)
  {
    hide Sized;
    StartAt(bs, i);
    var bs' := bs[i := Block(bs[i].at, false)];
    forall p: nat | IsStart(bs', p) ensures IsStart(bs, p) {
      MarkFind(bs, i, Block(bs[i].at, false), p);
    }
  }

  lemma FitIndex(bs: seq<Block>, i: nat, k: nat, size: nat)
    requires k <= |bs| && i == FitFrom(bs, k, size) && i < |bs|
    ensures Fits(bs, i, size)
  {
  }

  lemma NoFitIndex(bs: seq<Block>, i: nat)
    requires Sized(bs) && i <= |bs| && MEM_SIZE <= if i < |bs| then bs[i].at else MEM_SIZE
    ensures i == |bs|
  {
    if i < |bs| {
      InHeap(bs, i);
    }
  }

  class Allocator {
    /** The static array ram; its cells are the headers, payload bytes are not represented. */
    const ram: array<Mem>
    /** The offset lfree points to. */
    var lfree: nat
    /** The blocks that the headers describe. */
    ghost var blocks: seq<Block>

    ghost function Abs(): Layout
      reads this
    {
      Layout(blocks, lfree)
    }

    ghost predicate Linked()
      reads this, ram
    {
      Sized(blocks) && Links(ram[..], blocks)
    }

    ghost predicate Valid()
      reads this, ram
    {
      Linked() && Well(Abs())
    }

    /** mem_init() */
    constructor ()
      ensures Valid() && Abs() == INITIAL
    {
      ram := new Mem[MEM_SIZE + 1](_ => Mem(0, 0, false));
      lfree := 0;
      blocks := [Block(0, false)];
      new;
      ram[0] := Mem(MEM_SIZE, 0, false);
      ram[MEM_SIZE] := Mem(MEM_SIZE, MEM_SIZE, true);
      InitialOk();
    }

    method SplitBlock(ghost i: nat, ptr: nat, cut: nat)
      requires Linked() && i < |blocks| && blocks[i].at == ptr
      requires ptr + HEADER <= cut && cut + HEADER <= End(blocks, i)
      modifies this`blocks, ram
      ensures blocks == Split(old(blocks), i, cut) && Linked()
      ensures OnlyHeaders(old(ram[..]), ram[..], old(blocks), blocks)
    {
      ghost var m, bs := ram[..], blocks;
      SplitLinks(m, bs, i, cut);
      SplitTouches(m, bs, i, cut);
      SplitOk(bs, i, cut);
      var next := ram[ptr].next;
      ram[cut] := Mem(next, ptr, false);
      ram[ptr] := ram[ptr].(next := cut, used := true);
      if next != MEM_SIZE {
        ram[next] := ram[next].(prev := cut);
      }
      blocks := Split(blocks, i, cut);
      assert ram[..] == SplitWrites(m, ptr, cut);
    }

    /** Both halves of plug_holes(): block i takes over block i + 1. */
    method Merge(ghost i: nat, ptr: nat)
      requires Linked() && i + 1 < |blocks| && blocks[i].at == ptr
      modifies this`blocks, ram
      ensures blocks == Drop(old(blocks), i + 1) && Linked()
      ensures OnlyHeaders(old(ram[..]), ram[..], old(blocks), blocks)
    {
      ghost var m, bs := ram[..], blocks;
      MergeLinks(m, bs, i);
      MergeTouches(m, bs, i, Drop(bs, i + 1));
      DropOk(bs, i + 1);
      var nmem := ram[ptr].next;
      var next := ram[nmem].next;
      ram[ptr] := ram[ptr].(next := next);
      ram[next] := ram[next].(prev := ptr);
      blocks := Drop(blocks, i + 1);
      assert ram[..] == MergeWrites(m, ptr);
    }

    /** plug_holes() on the free block at offset mem */
    method PlugForwardHole(ghost k: nat, mem: nat)
      requires Linked() && k < |blocks| && blocks[k].at == mem && !blocks[k].used
      modifies this, ram
      ensures Abs() == PlugForward(old(Abs()), k) && Linked()
      ensures OnlyHeaders(old(ram[..]), ram[..], old(blocks), blocks)
    {
      HeaderMeans(ram[..], blocks, k);
      InHeap(blocks, k);
      NextStart(blocks, k);
      var nmem := ram[mem].next;
      if k + 1 < |blocks| {
        HeaderMeans(ram[..], blocks, k + 1);
      }
      if mem != nmem && !ram[nmem].used && nmem != MEM_SIZE {
        if lfree == nmem {
          lfree := mem;
        }
        Merge(k, mem);
      }
    }

    method PlugBackwardHole(ghost k: nat, mem: nat)
      requires Linked() && k < |blocks| && blocks[k].at == mem && !blocks[k].used
      modifies this, ram
      ensures Abs() == PlugBackward(old(Abs()), k) && Linked()
      ensures OnlyHeaders(old(ram[..]), ram[..], old(blocks), blocks)
    {
      HeaderMeans(ram[..], blocks, k);
      var pmem := ram[mem].prev;
      if k > 0 {
        HeaderMeans(ram[..], blocks, k - 1);
        Distinct(blocks, k);
      }
      if pmem != mem && !ram[pmem].used {
        if lfree == mem {
          lfree := pmem;
        }
        Merge(k - 1, pmem);
      }
    }

    method PlugHolesAt(ghost k: nat, mem: nat)
      requires Linked() && k < |blocks| && blocks[k].at == mem && !blocks[k].used
      modifies this, ram
      ensures Abs() == PlugHoles(old(Abs()), k) && Linked()
      ensures OnlyHeaders(old(ram[..]), ram[..], old(blocks), blocks)
    {
      ghost var m, bs := ram[..], blocks;
      PlugForwardHole(k, mem);
      ghost var m1, bs1 := ram[..], blocks;
      if k + 1 < |bs| {
        StartsAfterDrop(bs, k + 1);
        DropIs(bs, k + 1);
      }
      PlugBackwardHole(k, mem);
      TouchesChain(m, m1, ram[..], bs, bs1, blocks);
    }

    /** The search loop of mem_malloc(). */
    method FirstFit(size: u32) returns (ptr: nat, ghost i: nat)
      requires Valid()
      ensures i == FitFrom(blocks, Find(blocks, lfree), size)
      ensures var j := FitFrom(blocks, Find(blocks, lfree), size);
              ptr == if j < |blocks| then blocks[j].at else MEM_SIZE
    {
      hide Sized, Links, HeaderOk, Separated;
      ptr, i := lfree, Find(blocks, lfree);
      while ptr < MEM_SIZE
        invariant i <= |blocks| && ptr == if i < |blocks| then blocks[i].at else MEM_SIZE
        invariant FitFrom(blocks, i, size) == FitFrom(blocks, Find(blocks, lfree), size)
        decreases MEM_SIZE - ptr
      {
        HeaderMeans(ram[..], blocks, i);
        InHeap(blocks, i);
        if !ram[ptr].used && ram[ptr].next - (ptr + HEADER) >= size + HEADER {
          return;
        }
        NextStart(blocks, i);
        ptr := ram[ptr].next;
        i := i + 1;
      }
      if i < |blocks| {
        InHeap(blocks, i);
      }
    }

    /** mem_malloc(); the result is the offset of the payload. */
    method MemMalloc(request: u32) returns (p: Pointer)
      requires Valid()
      modifies this, ram
      ensures Valid() && (Abs(), p) == Malloc(old(Abs()), request)
      ensures OnlyHeaders(old(ram[..]), ram[..], old(blocks), blocks)
    {
      hide Sized, Links, OnlyHeaders, HeaderOk, IsStart, Split, Live, Round, Separated, IsFree, Find;
      MallocKeeps(Abs(), request);
      NothingTouched(ram[..], blocks);
      if request == 0 {
        return Null;
      }
      var size := Round(request);
      if size > MEM_SIZE {
        return Null;
      }
      var ptr, i := FirstFit(size);
      if ptr < MEM_SIZE {
        FitIndex(blocks, i, Find(blocks, lfree), size);
        var ptr2 := ptr + HEADER + size;
        SplitIs(blocks, i, ptr2);
        SplitBlock(i, ptr, ptr2);
        if ptr == lfree {
          NextFree(i);
        }
        p := Pointer(ptr + HEADER);
      } else {
        NoFitIndex(blocks, i);
        p := Null;
      }
    }

    /** Moves lfree forward to the next free block. */
    method NextFree(ghost i: nat)
      requires Linked() && i + 1 < |blocks| && blocks[i].at == lfree && blocks[i].used && !blocks[i + 1].used
      modifies this`lfree
      ensures lfree == blocks[i + 1].at
    {
      HeaderMeans(ram[..], blocks, i);
      HeaderMeans(ram[..], blocks, i + 1);
      InHeap(blocks, i);
      while ram[lfree].used && lfree != MEM_SIZE
        invariant lfree == blocks[i].at || lfree == blocks[i + 1].at
        decreases MEM_SIZE - lfree
      {
        lfree := ram[lfree].next;
      }
    }

    /** mem_free() of the payload at offset rmem */
    method MemFree(rmem: nat)
      requires Valid() && rmem >= HEADER && IsUsed(blocks, rmem - HEADER)
      modifies this, ram
      ensures Valid() && Abs() == Free(old(Abs()), Find(old(blocks), rmem - HEADER))
      ensures OnlyHeaders(old(ram[..]), ram[..], old(blocks), blocks)
    {
      hide Sized, Links, OnlyHeaders, HeaderOk, IsStart, Live, IsFree, PlugHoles, Tiling;
      var mem := rmem - HEADER;
      ghost var i, m, bs := Find(blocks, mem), ram[..], blocks;
      FreeKeeps(Abs(), i);
      NothingTouched(m, bs);
      MarkLinks(m, bs, i);
      MarkUsed(bs, i, false);
      StartAt(bs, i);
      ram[mem] := ram[mem].(used := false);
      blocks := blocks[i := Block(mem, false)];
      assert ram[..] == m[mem := m[mem].(used := false)];
      if mem < lfree {
        lfree := mem;
      }
      ghost var m1, bs1 := ram[..], blocks;
      MarkTouches(m, bs, i);
      PlugHolesAt(i, mem);
      TouchesChain(m, m1, ram[..], bs, bs1, blocks);
    }

    /** mem_realloc() of the payload at offset rmem, for sizes that do not wrap when the two headers are added. */
    method MemRealloc(rmem: nat, newsize: u32)
      requires Valid() && rmem >= HEADER && IsUsed(blocks, rmem - HEADER)
      requires var i := Find(blocks, rmem - HEADER); !TestWraps(End(blocks, i) - blocks[i].at - HEADER, newsize)
      modifies this, ram
      ensures Valid() && Abs() == Realloc(old(Abs()), Find(old(blocks), rmem - HEADER), newsize)
      ensures OnlyHeaders(old(ram[..]), ram[..], old(blocks), blocks)
    {
      hide Sized, Links, OnlyHeaders, HeaderOk, IsStart, Live, IsFree, PlugHoles, Tiling, Split;
      var ptr := rmem - HEADER;
      ghost var i, m, bs := Find(blocks, ptr), ram[..], blocks;
      ReallocKeeps(Abs(), i, newsize);
      NothingTouched(m, bs);
      HeaderMeans(m, bs, i);
      InHeap(bs, i);
      var size := ram[ptr].next - ptr - HEADER;
      ReallocTest(ptr, size, newsize);
      if Wrap(newsize + HEADER + MIN_SIZE) < size {
        var ptr2 := Wrap(ptr + HEADER + newsize);
        SplitIs(bs, i, ptr2);
        SplitBlock(i, ptr, ptr2);
        ghost var m1, l1 := ram[..], Abs();
        PlugHolesAt(i + 1, ptr2);
        ReallocStarts(bs, i, ptr2, l1, blocks);
        TouchesChain(m, m1, ram[..], bs, l1.blocks, blocks);
      }
    }
  }
}
