/** Sealing a packet with its checksum, accepting it, and the incremental update when forwarding. */
module ChecksumUse {
  import opened Bytes
  import opened SeqNum
  import opened Checksum

  /** Stores a uint16_t at offset k of a packet on the little-endian host. */
  function SetField(b: seq<byte>, k: nat, v: u16): seq<byte>
    requires k + 1 < |b|
  {
    b[k := v % 256][k + 1 := v / 256]
  }

  function GetField(b: seq<byte>, k: nat): u16
    requires k + 1 < |b|
  {
    Word(b[k + 1], b[k])
  }

  lemma TwoSum(x: byte, y: byte)
    ensures ByteSum([x, y], false) == Word(y, x)
  {
    assert [x, y][1..] == [y] && [y][1..] == [];
    assert ByteSum([y], true) == Word(y, 0);
  }

  lemma FieldSum(b: seq<byte>, k: nat, v: u16)
    requires k + 1 < |b| && k % 2 == 0
    ensures ByteSum(SetField(b, k, v), false) == ByteSum(b[..k], false) + v + ByteSum(b[k + 2..], false)
  {
    hide ByteSum;
    var mid: seq<byte> := [v % 256, v / 256];
    assert SetField(b, k, v) == b[..k] + mid + b[k + 2..];
    ByteSumConcat(b[..k] + mid, b[k + 2..], false);
    ByteSumConcat(b[..k], mid, false);
    TwoSum(v % 256, v / 256);
  }

  lemma FieldIs(b: seq<byte>, k: nat)
    requires k + 1 < |b|
    ensures SetField(b, k, GetField(b, k)) == b
  {
  }

  /** What tcp_output() stores: the field is zeroed, the checksum computed and written into it. */
  function Seal(pseudo: seq<byte>, b: seq<byte>, k: nat): seq<byte>
    requires k + 1 < |b|
  {
    SetField(b, k, 0xffff - Canon(ByteSum(pseudo + SetField(b, k, 0), false)))
  }

  /** tcp_input() discards the packet when inet_chksum_pseudo() over it is not zero. */
  predicate Accepts(pseudo: seq<byte>, b: seq<byte>) {
    0xffff - Canon(ByteSum(pseudo + b, false)) == 0
  }

  /** Whatever the field at offset k holds, the packet is accepted exactly when it holds the sealed value, in either
      representation of zero. */
  lemma AcceptsExactly(pseudo: seq<byte>, b: seq<byte>, k: nat, v: u16)
    requires k + 1 < |b| && k % 2 == 0 && |pseudo| % 2 == 0
    ensures var c := 0xffff - Canon(ByteSum(pseudo + SetField(b, k, 0), false));
            Accepts(pseudo, SetField(b, k, v)) <==> v == c || (c == 0 && v == 0xffff)
  {
    hide ByteSum, Canon, SetField;
    FieldSum(b, k, v);
    FieldSum(b, k, 0);
    SetFieldLength(b, k, 0);
    ByteSumConcat(pseudo, SetField(b, k, 0), false);
    ByteSumConcat(pseudo, SetField(b, k, v), false);
    var s := ByteSum(pseudo + SetField(b, k, 0), false);
    CompleteTo(s, v);
  }

  lemma SetFieldLength(b: seq<byte>, k: nat, v: u16)
    requires k + 1 < |b|
    ensures |SetField(b, k, v)| == |b|
  {
  }

  lemma CompleteTo(s: nat, v: u16)
    ensures Canon(s + v) == 0xffff <==> v == 0xffff - Canon(s) || (Canon(s) == 0xffff && v == 0xffff)
  {
    CanonMod(s);
    CanonMod(s + v);
    var q, r := s / 0xffff, s % 0xffff;
    AddMultiple(r + v, q);
    assert s + v == r + v + 0xffff * q;
    hide Canon;
    assert s > 0 || r == 0;
  }

  /** A sealed packet passes the receiver's test, however sender and receiver cut it into buffers. */
  lemma SealedIsAccepted(pseudo: seq<byte>, b: seq<byte>, k: nat)
    requires k + 1 < |b| && k % 2 == 0 && |pseudo| % 2 == 0
    ensures Accepts(pseudo, Seal(pseudo, b, k))
  {
    AcceptsExactly(pseudo, b, k, 0xffff - Canon(ByteSum(pseudo + SetField(b, k, 0), false)));
    hide ByteSum, Canon;
  }

  // ----- ip_forward()

  const TTL := 8
  const CHKSUM := 10
  const IP_HLEN := 20

  function Decrement(ttl: byte): byte {
    var t: int := ttl;
    (t - 1) % 256
  }

  /** The checksum field after its end-around update. */
  function Raised(c: u16): u16 {
    Wrap16(c + (if c >= Swap(0xffff - 0x100) then Swap(0x100) + 1 else Swap(0x100)))
  }

  /** The header after the TTL and checksum updates, and whether the packet is sent on. */
  function Forward(h: seq<byte>): (seq<byte>, bool)
    requires |h| >= IP_HLEN
  {
    var ttl: byte := Decrement(h[TTL]);
    var h1 := h[TTL := ttl];
    if ttl == 0 then (h1, false)
    else
      (SetField(h1, CHKSUM, Raised(GetField(h1, CHKSUM))), true)
  }

  /** A header whose inet_chksum() is zero. */
  predicate ValidHeader(h: seq<byte>) {
    0xffff - Canon(ByteSum(h, false)) == 0
  }

  method IpForward(hdr: array<byte>) returns (sent: bool)
    requires hdr.Length >= IP_HLEN
    modifies hdr
    ensures (hdr[..], sent) == Forward(old(hdr[..]))
  {
    hdr[TTL] := Decrement(hdr[TTL]);
    if hdr[TTL] == 0 {
      return false;
    }
    var c: u16 := Word(hdr[CHKSUM + 1], hdr[CHKSUM]);
    if c >= Swap(0xffff - 0x100) {
      c := Wrap16(c + Swap(0x100) + 1);
    } else {
      c := Wrap16(c + Swap(0x100));
    }
    hdr[CHKSUM] := c % 256;
    hdr[CHKSUM + 1] := c / 256;
    sent := true;
  }

  lemma TtlSum(h: seq<byte>, ttl: byte)
    requires |h| >= IP_HLEN
    ensures ByteSum(h[TTL := ttl][..CHKSUM], false) == ByteSum(h[..TTL], false) + Word(h[TTL + 1], ttl)
    ensures h[TTL := ttl][CHKSUM + 2..] == h[CHKSUM + 2..]
  {
    hide ByteSum;
    assert h[TTL := ttl][..CHKSUM] == h[..TTL] + [ttl, h[TTL + 1]];
    ByteSumConcat(h[..TTL], [ttl, h[TTL + 1]], false);
    TwoSum(ttl, h[TTL + 1]);
  }

  lemma RaisedIs(c: u16)
    ensures Raised(c) == if c >= 0xfffe then c + 2 - 0x10000 else c + 1
  {
    SwapParts(0xfe, 0xff);
    SwapParts(1, 0);
  }

  /** The end-around update of the checksum for a TTL lowered by one. */
  lemma Update(rest: nat, low: byte, c: u16)
    requires var ttl: nat := low; Canon(rest + ttl + c) == 0xffff && ttl != 1
    ensures var ttl': nat := Decrement(low);
            Canon(rest + ttl' + Raised(c)) == 0xffff <==> low != 0
  {
    hide Canon, Raised;
    var ttl: nat := low;
    var ttl': nat := Decrement(low);
    var s, s', step: nat := rest + ttl + c, rest + ttl' + Raised(c), if ttl == 0 then 256 else 0;
    RaisedIs(c);
    AllOnes(s);
    AllOnes(s');
    assert s' == s + step || s' + 0xffff == s + step;
    AddMultiple(s', 1);
    StepOff(s, step);
  }

  lemma AllOnes(s: nat)
    ensures Canon(s) == 0xffff <==> s > 0 && s % 0xffff == 0
  {
    CanonMod(s);
  }

  lemma StepOff(s: nat, step: nat)
    requires s % 0xffff == 0 && step < 0xffff
    ensures (s + step) % 0xffff == step
  {
    AddMultiple(step, s / 0xffff);
    assert s == 0xffff * (s / 0xffff);
  }

  /** Forwarding keeps a valid header valid for every checksum value, exactly when the TTL was not already zero. */
  lemma ForwardValid(h: seq<byte>)
    requires |h| >= IP_HLEN && ValidHeader(h)
    ensures var (h', sent) := Forward(h);
            && (sent <==> h[TTL] != 1)
            && (sent ==> (ValidHeader(h') <==> h[TTL] != 0))
            && |h'| == |h| && h'[TTL] == (if h[TTL] == 0 then 255 else h[TTL] - 1)
            && forall i :: 0 <= i < |h| && i != TTL && i != CHKSUM && i != CHKSUM + 1 ==> h'[i] == h[i]
  {
    hide ByteSum, Canon, Raised, Decrement, GetField, SetField;
    DecrementIs(h[TTL]);
    if h[TTL] != 1 {
      var ttl, c := Decrement(h[TTL]), GetField(h, CHKSUM);
      var rest := Rest(h);
      FieldIs(h, CHKSUM);
      HeaderSum(h, h[TTL], c);
      assert h[TTL := h[TTL]] == h;
      HeaderSum(h, ttl, Raised(c));
      SameField(h, ttl);
      Update(rest, h[TTL], c);
    }
    OthersKept(h);
  }

  lemma DecrementIs(ttl: byte)
    ensures Decrement(ttl) == if ttl == 0 then 255 else ttl - 1
  {
  }

  /** What the TTL and the checksum do not contribute to the sum over the header. */
  function Rest(h: seq<byte>): nat
    requires |h| >= IP_HLEN
  {
    ByteSum(h[..TTL], false) + Word(h[TTL + 1], 0) + ByteSum(h[CHKSUM + 2..], false)
  }

  lemma HeaderSum(h: seq<byte>, ttl: byte, c: u16)
    requires |h| >= IP_HLEN
    ensures var t: nat := ttl; ByteSum(SetField(h[TTL := ttl], CHKSUM, c), false) == Rest(h) + t + c
  {
    hide ByteSum, SetField;
    TtlSum(h, ttl);
    FieldSum(h[TTL := ttl], CHKSUM, c);
  }

  lemma SameField(h: seq<byte>, ttl: byte)
    requires |h| >= IP_HLEN
    ensures GetField(h[TTL := ttl], CHKSUM) == GetField(h, CHKSUM)
  {
  }

  lemma OthersKept(h: seq<byte>)
    requires |h| >= IP_HLEN
    ensures var h' := Forward(h).0;
            && |h'| == |h| && h'[TTL] == Decrement(h[TTL])
            && forall i :: 0 <= i < |h| && i != TTL && i != CHKSUM && i != CHKSUM + 1 ==> h'[i] == h[i]
  {
    hide Raised, Decrement, GetField;
  }
}
