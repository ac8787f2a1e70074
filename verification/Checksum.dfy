/** SW_stub/lwtcp/inet.c on a little-endian host, against the one's-complement sum of RFC 1071. */
module Checksum {
  import opened Bytes
  import opened SeqNum

  // ----- Specification: RFC 1071 section 1 on bytes in network order

  /** One's-complement addition of 16-bit words: the carry comes back in at the low end. */
  function OnesAdd(a: u16, b: u16): u16 {
    if a + b < TWO16 then a + b else a + b - 0xffff
  }

  function Word(hi: byte, lo: byte): u16 {
    var h: int := hi;
    256 * h + lo
  }

  /** The one's-complement sum of the big-endian words of b, an odd last byte being padded with zero. */
  function OnesSum(b: seq<byte>): u16 {
    if b == [] then 0
    else if |b| == 1 then Word(b[0], 0)
    else OnesAdd(Word(b[0], b[1]), OnesSum(b[2..]))
  }

  /** The Internet checksum in network order. */
  function Rfc1071(b: seq<byte>): u16 {
    0xffff - OnesSum(b)
  }

  /** The four bytes in memory of a struct ip_addr whose field addr a little-endian host reads as addr. */
  function AddrBytes(addr: u32): seq<byte> {
    [addr % 256, addr / 256 % 256, addr / 65536 % 256, addr / 0x100_0000]
  }

  /** RFC 793 section 3.1: source, destination, zero, protocol, length. */
  function PseudoHeader(src: u32, dest: u32, proto: byte, len: u16): seq<byte> {
    AddrBytes(src) + AddrBytes(dest) + [0, proto, len / 256, len % 256]
  }

  // ----- Arithmetic of the implementation

  /** htons() */
  function Swap(x: u16): u16 {
    x % 256 * 256 + x / 256
  }

  /** Little-endian word sum as a plain number. */
  function WordSum(b: seq<byte>): nat {
    if b == [] then 0
    else if |b| == 1 then b[0]
    else b[0] + 256 * b[1] + WordSum(b[2..])
  }

  /** The number in 0..0xffff that folding carries leaves: congruent modulo 0xffff, and zero only for zero. */
  function Canon(x: nat): u16 {
    if x == 0 then 0 else (x - 1) % 0xffff + 1
  }

  /** Two sums that fold to the same value. */
  predicate Same(x: nat, y: nat) {
    x % 0xffff == y % 0xffff && (x == 0 <==> y == 0)
  }

  lemma CanonSame(x: nat, y: nat)
    ensures Same(x, y) <==> Canon(x) == Canon(y)
    ensures Same(Canon(x), x)
    ensures x <= 0xffff ==> Canon(x) == x
  {
    CanonMod(x);
    CanonMod(y);
  }

  lemma CanonMod(x: nat)
    ensures Canon(x) % 0xffff == x % 0xffff
    ensures x > 0 ==> Canon(x) == if x % 0xffff == 0 then 0xffff else x % 0xffff
  {
  }

  lemma FoldStep(x: nat)
    ensures Same(x % TWO16 + x / TWO16, x)
    ensures x >= TWO16 ==> x % TWO16 + x / TWO16 < x
  {
    var h, l := x / TWO16, x % TWO16;
    assert x == 0xffff * h + (h + l);
    AddMultiple(h + l, h);
  }

  lemma {:induction false} AddMultiple(x: nat, k: nat)
    ensures (x + 0xffff * k) % 0xffff == x % 0xffff
    decreases k
  {
    if k > 0 {
      AddMultiple(x, k - 1);
      assert x + 0xffff * k == x + 0xffff * (k - 1) + 0xffff;
    }
  }

  lemma SameAdd(x: nat, y: nat, z: nat)
    requires Same(x, y)
    ensures Same(x + z, y + z) && Same(z + x, z + y)
  {
    assert (x + z) % 0xffff == (x % 0xffff + z % 0xffff) % 0xffff;
    assert (y + z) % 0xffff == (y % 0xffff + z % 0xffff) % 0xffff;
  }

  lemma SameTimes256(x: nat, y: nat)
    requires Same(x, y)
    ensures Same(256 * x, 256 * y)
  {
    AddMultiple(256 * (x % 0xffff), 256 * (x / 0xffff));
    AddMultiple(256 * (y % 0xffff), 256 * (y / 0xffff));
    assert x == x % 0xffff + 0xffff * (x / 0xffff) && y == y % 0xffff + 0xffff * (y / 0xffff);
  }

  lemma Times65536(x: nat)
    ensures Same(256 * (256 * x), x)
  {
    AddMultiple(x, x);
    assert 256 * (256 * x) == x + 0xffff * x;
  }

  /** Swapping the bytes of a folded sum multiplies it by 256. */
  lemma SwapIs(x: u16)
    ensures Same(Swap(x), 256 * x)
  {
    var h, l := x / 256, x % 256;
    SwapParts(h, l);
    AddMultiple(256 * l + h, h);
  }

  lemma SwapParts(h: nat, l: nat)
    requires h < 256 && l < 256
    ensures Swap(256 * h + l) == 256 * l + h && 256 * (256 * h + l) == 256 * l + h + 0xffff * h
  {
  }

  lemma SwapSwap(x: u16)
    ensures Swap(Swap(x)) == x && Swap(0xffff - x) == 0xffff - Swap(x)
  {
    SwapParts(x / 256, x % 256);
    SwapParts(x % 256, x / 256);
    SwapParts(255 - x / 256, 255 - x % 256);
    assert 0xffff - x == 256 * (255 - x / 256) + (255 - x % 256);
    hide Swap;
  }

  // ----- Byte sums

  /** Bytes at even positions weigh 1 and those at odd positions 256; with odd set, the other way round. */
  function ByteSum(b: seq<byte>, odd: bool): nat {
    if b == [] then 0 else (if odd then 256 * b[0] else b[0]) + ByteSum(b[1..], !odd)
  }

  predicate Odd(b: seq<byte>) {
    |b| % 2 == 1
  }

  lemma {:induction false} WordSumIs(b: seq<byte>)
    ensures WordSum(b) == ByteSum(b, false)
    decreases |b|
  {
    if |b| > 1 {
      WordSumIs(b[2..]);
      assert b[1..][1..] == b[2..];
    }
  }

  lemma {:induction false} ByteSumConcat(a: seq<byte>, b: seq<byte>, odd: bool)
    ensures ByteSum(a + b, odd) == ByteSum(a, odd) + ByteSum(b, if Odd(a) then !odd else odd)
    decreases |a|
  {
    if a == [] {
      assert a + b == b;
    } else {
      assert (a + b)[1..] == a[1..] + b;
      ByteSumConcat(a[1..], b, !odd);
    }
  }

  /** Shifting the parity multiplies a byte sum by 256. */
  lemma {:induction false} ByteSumParity(b: seq<byte>)
    ensures Same(ByteSum(b, true), 256 * ByteSum(b, false))
    ensures Same(256 * ByteSum(b, true), ByteSum(b, false))
    decreases |b|
  {
    hide Same;
    if b == [] {
      SameTwice(0);
    } else {
      ByteSumParity(b[1..]);
      ParityStep(b[0], ByteSum(b[1..], true), ByteSum(b[1..], false));
    }
  }

  lemma ParityStep(b0: nat, odd: nat, even: nat)
    requires Same(odd, 256 * even) && Same(256 * odd, even)
    ensures Same(256 * b0 + even, 256 * (b0 + odd)) && Same(256 * (256 * b0 + even), b0 + odd)
  {
    hide Same;
    SameSym(256 * odd, even);
    SameAdd(even, 256 * odd, 256 * b0);
    Times65536(b0);
    SameAdd(256 * (256 * b0), b0, 256 * even);
    SameSym(odd, 256 * even);
    SameAdd(256 * even, odd, b0);
    SameTrans(256 * (256 * b0 + even), b0 + 256 * even, b0 + odd);
  }

  lemma SameTwice(x: nat)
    ensures Same(x, x)
  {
  }

  lemma SameSym(x: nat, y: nat)
    ensures Same(x, y) ==> Same(y, x)
  {
  }

  lemma SameTrans(x: nat, y: nat, z: nat)
    requires Same(x, y) && Same(y, z)
    ensures Same(x, z)
  {
  }

  lemma OnesAddIs(w: u16, y: nat)
    ensures OnesAdd(w, Canon(y)) == Canon(w + y)
  {
    var a: nat, c: nat := w, Canon(y);
    CanonSame(y, y);
    SameAdd(c, y, a);
    if a + c >= TWO16 {
      AddMultiple(a + c - 0xffff, 1);
    }
    assert Same(OnesAdd(a, c), a + c);
    SameTrans(OnesAdd(a, c), a + c, a + y);
    CanonSame(OnesAdd(a, c), a + y);
  }

  lemma {:induction false} OnesSumIs(b: seq<byte>)
    ensures OnesSum(b) == Canon(ByteSum(b, true))
    decreases |b|
  {
    if |b| == 1 {
      CanonSame(ByteSum(b, true), 0);
      assert b[1..] == [];
    } else if |b| > 1 {
      OnesSumIs(b[2..]);
      assert b[1..][1..] == b[2..];
      OnesAddIs(Word(b[0], b[1]), ByteSum(b[2..], true));
    }
  }

  /** The folded little-endian sum is the RFC 1071 sum with its bytes swapped: byte order independence. */
  lemma ByteOrder(b: seq<byte>)
    ensures Swap(Canon(ByteSum(b, false))) == OnesSum(b)
    ensures Swap(0xffff - Canon(ByteSum(b, false))) == Rfc1071(b)
  {
    hide Same, Canon, Swap, ByteSum, OnesSum;
    var s: nat, c: nat := ByteSum(b, false), Canon(ByteSum(b, false));
    OnesSumIs(b);
    CanonSame(s, s);
    SwapIs(c);
    SameTimes256(c, s);
    SameTrans(Swap(c), 256 * c, 256 * s);
    ByteSumParity(b);
    SameSym(ByteSum(b, true), 256 * s);
    SameTrans(Swap(c), 256 * s, ByteSum(b, true));
    CanonSame(Swap(c), ByteSum(b, true));
    CanonSame(Swap(c), 0);
    SwapSwap(c);
  }

  // ----- The code

  /** chksum(): adds up 16-bit words of a buffer whose length fits into 16 bits. */
  method Chksum(data: seq<byte>) returns (acc: u32)
    requires |data| <= 0xffff
    ensures acc == WordSum(data) <= 0x8000 * 0xffff
  {
    acc := 0;
    var p, len := 0, |data|;
    WordSumBound(data);
    while len > 1
      invariant p + len == |data| && 0 <= len
      invariant acc + WordSum(data[p..]) == WordSum(data)
    {
      assert data[p..][2..] == data[p + 2..];
      acc := acc + Word(data[p + 1], data[p]);
      p, len := p + 2, len - 2;
    }
    if len == 1 {
      assert data[p..] == [data[p]];
      acc := acc + data[p];
    } else {
      assert data[p..] == [];
    }
  }

  lemma {:induction false} WordSumBound(b: seq<byte>)
    ensures WordSum(b) <= (|b| + 1) / 2 * 0xffff
    decreases |b|
  {
    if |b| > 1 {
      var n, m := (|b| + 1) / 2, (|b| - 2 + 1) / 2;
      WordSumBound(b[2..]);
      assert n == m + 1;
      assert WordSum(b[2..]) <= m * 0xffff;
    }
  }

  /** while(acc >> 16) acc = (acc & 0xffff) + (acc >> 16); */
  method FoldCarries(x: u32) returns (acc: u16)
    ensures acc == Canon(x)
  {
    var a: u32 := x;
    SameTwice(x);
    while a / TWO16 != 0
      invariant Same(a, x)
      decreases a
    {
      FoldStep(a);
      SameTrans(a % TWO16 + a / TWO16, a, x);
      a := a % TWO16 + a / TWO16;
    }
    CanonSame(a, x);
    acc := a;
  }

  /** acc stands for the bytes summed so far; after an odd number of them it is kept byte-swapped. */
  predicate Carries(acc: u16, swapped: bool, done: seq<byte>) {
    swapped == Odd(done) && Same(acc, if swapped then 256 * ByteSum(done, false) else ByteSum(done, false))
  }

  /** A word sum added at an odd place: d is what came before, w the new words, and w' the same shifted by a byte. */
  lemma OddPlace(a: nat, acc1: u16, d: nat, w: nat, w': nat)
    requires Same(a, 256 * d) && acc1 == Canon(a + w) && Same(w, 256 * w')
    ensures Same(acc1, 256 * (d + w')) && Same(Swap(acc1), d + w')
  {
    hide Same, Canon, Swap;
    CanonSame(a + w, 0);
    SwapIs(acc1);
    SameAdd(a, 256 * d, w);
    SameTrans(acc1, a + w, 256 * d + w);
    SameAdd(w, 256 * w', 256 * d);
    SameTrans(acc1, 256 * d + w, 256 * (d + w'));
    SameTimes256(acc1, 256 * (d + w'));
    Times65536(d + w');
    SameTrans(256 * acc1, 256 * (256 * (d + w')), d + w');
    SameTrans(Swap(acc1), 256 * acc1, d + w');
  }

  lemma EvenPlace(a: nat, acc1: u16, d: nat, w: nat)
    requires Same(a, d) && acc1 == Canon(a + w)
    ensures Same(acc1, d + w) && Same(Swap(acc1), 256 * (d + w))
  {
    hide Same, Canon, Swap;
    CanonSame(a + w, 0);
    SwapIs(acc1);
    SameAdd(a, d, w);
    SameTrans(acc1, a + w, d + w);
    SameTimes256(acc1, d + w);
    SameTrans(Swap(acc1), 256 * acc1, 256 * (d + w));
  }

  /** Adding the next buffer at even alignment, whatever the parity of what came before. */
  lemma CarryAdd(acc: u16, swapped: bool, done: seq<byte>, q: seq<byte>)
    requires Carries(acc, swapped, done)
    ensures var acc1 := Canon(acc + WordSum(q));
            Carries(if Odd(q) then Swap(acc1) else acc1, if Odd(q) then !swapped else swapped, done + q)
  {
    hide Same, Canon, Swap, ByteSum, WordSum, Odd;
    WordSumIs(q);
    ByteSumConcat(done, q, false);
    ByteSumParity(q);
    OddConcat(done, q);
    var a: nat, d, w, w' := acc, ByteSum(done, false), ByteSum(q, false), ByteSum(q, true);
    var acc1: u16 := Canon(a + w);
    if swapped {
      SameSym(256 * w', w);
      OddPlace(a, acc1, d, w, w');
    } else {
      EvenPlace(a, acc1, d, w);
    }
  }

  lemma OddConcat(a: seq<byte>, b: seq<byte>)
    ensures Odd(a + b) == if Odd(b) then !Odd(a) else Odd(a)
    ensures Odd(a) == (|a| % 2 == 1)
  {
  }

  lemma CarryEnd(acc: u16, swapped: bool, done: seq<byte>)
    requires Carries(acc, swapped, done)
    ensures Same(if swapped then Swap(acc) else acc, ByteSum(done, false))
  {
    hide Same, Swap, ByteSum;
    var a: nat, d := acc, ByteSum(done, false);
    SwapIs(acc);
    if swapped {
      SameTimes256(a, 256 * d);
      Times65536(d);
      SameTrans(256 * a, 256 * (256 * d), d);
      SameTrans(Swap(acc), 256 * a, d);
    }
  }

  lemma PseudoSum(src: u32, dest: u32, proto: byte, len: u16, b: seq<byte>)
    ensures ByteSum(PseudoHeader(src, dest, proto, len) + b, false) ==
            src % TWO16 + src / TWO16 + dest % TWO16 + dest / TWO16 + Swap(proto) + Swap(len) + ByteSum(b, false)
  {
    hide ByteSum, Swap;
    var h := PseudoHeader(src, dest, proto, len);
    ByteSumConcat(h, b, false);
    ByteSumConcat(AddrBytes(src) + AddrBytes(dest), [0, proto, len / 256, len % 256], false);
    ByteSumConcat(AddrBytes(src), AddrBytes(dest), false);
    AddrSum(src);
    AddrSum(dest);
    FourSum(0, proto, len / 256, len % 256);
    SwapParts(0, proto);
    SwapParts(len / 256, len % 256);
  }

  lemma FourSum(a: byte, b: byte, c: byte, d: byte)
    ensures ByteSum([a, b, c, d], false) == a + 256 * b + c + 256 * d
  {
    assert [a, b, c, d][1..] == [b, c, d] && [b, c, d][1..] == [c, d] && [c, d][1..] == [d] && [d][1..] == [];
    assert ByteSum([d], true) == 256 * d;
    assert ByteSum([c, d], false) == c + 256 * d;
    assert ByteSum([b, c, d], true) == 256 * b + c + 256 * d;
  }

  lemma AddrSum(addr: u32)
    ensures ByteSum(AddrBytes(addr), false) == addr % TWO16 + addr / TWO16
  {
    hide ByteSum;
    var a, b, c, d := addr % 256, addr / 256 % 256, addr / 65536 % 256, addr / 0x100_0000;
    FourSum(a, b, c, d);
    FourDigits(addr, a, b, c, d);
    LowDigits(a, b, c + 256 * d);
  }

  lemma FourDigits(x: nat, a: nat, b: nat, c: nat, d: nat)
    requires a == x % 256 && b == x / 256 % 256 && c == x / 65536 % 256 && d == x / 0x100_0000
    ensures x == a + 256 * b + TWO16 * (c + 256 * d)
  {
    assert x / 256 / 256 == x / 65536;
    assert x / 65536 / 256 == x / 0x100_0000;
  }

  /** The low two base-256 digits of a number. */
  lemma LowDigits(a: nat, b: nat, high: nat)
    requires a < 256 && b < 256
    ensures (a + 256 * b + TWO16 * high) / TWO16 == high && (a + 256 * b + TWO16 * high) % TWO16 == a + 256 * b
  {
  }

  /**
   inet_chksum_pseudo() over a chain of pbufs, cut up in any way, odd and empty pieces included.  Read in network
   order the result is the RFC 1071 checksum of the pseudo header followed by the flat data.
   */
  method InetChksumPseudo(chain: seq<seq<byte>>, src: u32, dest: u32, proto: byte, protoLen: u16) returns (r: u16)
    requires forall q :: q in chain ==> |q| <= 0xffff
    ensures r == 0xffff - Canon(ByteSum(PseudoHeader(src, dest, proto, protoLen) + Flatten(chain), false))
    ensures Swap(r) == Rfc1071(PseudoHeader(src, dest, proto, protoLen) + Flatten(chain))
  {
    hide Same, Canon, Swap, ByteSum, WordSum, PseudoHeader;
    var acc: u16, swapped := SumChain(chain);
    ghost var all, flat := PseudoHeader(src, dest, proto, protoLen) + Flatten(chain), Flatten(chain);
    CarryEnd(acc, swapped, flat);
    if swapped {
      acc := Swap(acc);
    }
    var total: u32 := acc + src % TWO16 + src / TWO16 + dest % TWO16 + dest / TWO16 + Swap(proto) + Swap(protoLen);
    PseudoSum(src, dest, proto, protoLen, flat);
    SameAdd(acc, ByteSum(flat, false), total - acc);
    CanonSame(total, ByteSum(all, false));
    acc := FoldCarries(total);
    ByteOrder(all);
    r := 0xffff - acc;
  }

  /** The loop over the chain. */
  method SumChain(chain: seq<seq<byte>>) returns (acc: u16, swapped: bool)
    requires forall q :: q in chain ==> |q| <= 0xffff
    ensures Carries(acc, swapped, Flatten(chain))
  {
    hide Same, Canon, Swap, ByteSum, WordSum, Carries;
    acc, swapped := 0, false;
    var i := 0;
    ghost var done: seq<byte> := [];
    NothingSummed();
    while i < |chain|
      invariant 0 <= i <= |chain|
      invariant done + Flatten(chain[i..]) == Flatten(chain)
      invariant Carries(acc, swapped, done)
    {
      var q := chain[i];
      var sum := Chksum(q);
      CarryAdd(acc, swapped, done, q);
      acc := FoldCarries(acc + sum);
      if |q| % 2 != 0 {
        swapped := !swapped;
        acc := Swap(acc);
      }
      FlattenNext(done, chain, i);
      done := done + q;
      i := i + 1;
    }
    FlattenEnd(done, chain);
  }

  lemma FlattenNext(done: seq<byte>, chain: seq<seq<byte>>, i: nat)
    requires i < |chain|
    ensures done + Flatten(chain[i..]) == done + chain[i] + Flatten(chain[i + 1..])
  {
    assert chain[i..][1..] == chain[i + 1..];
  }

  lemma FlattenEnd(done: seq<byte>, chain: seq<seq<byte>>)
    ensures done + Flatten(chain[|chain|..]) == done
  {
  }

  lemma NothingSummed()
    ensures Carries(0, false, [])
  {
  }

  /** inet_chksum() over one buffer. */
  method InetChksum(data: seq<byte>) returns (r: u16)
    requires |data| <= 0xffff
    ensures r == 0xffff - Canon(ByteSum(data, false)) && Swap(r) == Rfc1071(data)
  {
    var acc := Chksum(data);
    WordSumIs(data);
    ByteOrder(data);
    var f := FoldCarries(acc);
    r := 0xffff - f;
  }
}
