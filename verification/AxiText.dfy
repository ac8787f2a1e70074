/** The AXI stream text format: axis_dump() and axis_load() in HW_stub/NetFPGA-10G-live/tools/scripts/axitools.py.
    Text is a list of lines without their newlines. */
module AxiText {
  import opened SeqNum

  // ----- Strings

  datatype Option<T> = None | Some(value: T)

  predicate IsSpace(c: char) {
    c == ' ' || c == '\t' || c == '\r' || c == '\n'
  }

  function StripLeft(s: string): string {
    if s != [] && IsSpace(s[0]) then StripLeft(s[1..]) else s
  }

  function StripRight(s: string): string {
    if s != [] && IsSpace(s[|s| - 1]) then StripRight(s[..|s| - 1]) else s
  }

  /** str.strip() */
  function Strip(s: string): string {
    StripRight(StripLeft(s))
  }

  /** The text before the first c, or all of it. */
  function Before(s: string, c: char): (r: string)
    ensures |r| <= |s|
  {
    if s == [] || s[0] == c then [] else [s[0]] + Before(s[1..], c)
  }

  /** str.split(c) */
  function Split(s: string, c: char): seq<string>
    decreases |s|
  {
    var head := Before(s, c);
    if |head| == |s| then [head] else [head] + Split(s[|head| + 1..], c)
  }

  /** str.zfill(w) */
  function Zfill(s: string, w: nat): (r: string)
    ensures |r| == if |s| < w then w else |s|
  {
    if |s| < w then seq(w - |s|, _ => '0') + s else s
  }

  // ----- Numbers

  const DIGITS: string := "0123456789abcdef"

  function Digit(d: nat): char
    requires d < 16
  {
    DIGITS[d]
  }

  /** '%x' % n */
  function Hex(n: nat): (s: string)
    ensures |s| > 0
  {
    if n < 16 then [Digit(n)] else Hex(n / 16) + [Digit(n % 16)]
  }

  /** '%d' % n */
  function Dec(n: nat): (s: string)
    ensures |s| > 0
  {
    if n < 10 then [Digit(n)] else Dec(n / 10) + [Digit(n % 10)]
  }

  function DigitValue(c: char): Option<nat> {
    if '0' <= c <= '9' then Some(c as nat - '0' as nat)
    else if 'a' <= c <= 'f' then Some(c as nat - 'a' as nat + 10)
    else if 'A' <= c <= 'F' then Some(c as nat - 'A' as nat + 10)
    else None
  }

  /** int(s, 16) of a string of digits; None where it raises ValueError. */
  function ParseHex(s: string): Option<nat> {
    if s == [] then None
    else
      var low := DigitValue(s[|s| - 1]);
      if |s| == 1 then low
      else
        var high := ParseHex(s[..|s| - 1]);
        if high.Some? && low.Some? then Some(16 * high.value + low.value) else None
  }

  /** int(s) of a string without surrounding spaces: decimal digits after an optional sign; None for ValueError. */
  function ParseInt(s: string): Option<int> {
    if s != [] && s[0] == '-' then
      var n := ParseDec(s[1..]);
      if n.None? then None
      else
        var size: int := n.value;
        Some(-size)
    else
      var n := ParseDec(if s != [] && s[0] == '+' then s[1..] else s);
      if n.Some? then Some(n.value) else None
  }

  function ParseDec(s: string): Option<nat> {
    if s == [] then None
    else
      var c := s[|s| - 1];
      var low: Option<nat> := if '0' <= c <= '9' then Some(c as nat - '0' as nat) else None;
      if |s| == 1 then low
      else
        var high := ParseDec(s[..|s| - 1]);
        if high.Some? && low.Some? then Some(10 * high.value + low.value) else None
  }

  function Pow2(n: nat): (p: nat)
    ensures p > 0
  {
    if n == 0 then 1 else 2 * Pow2(n - 1)
  }

  /** int(math.log(n, 2)), taken as exact. */
  function Log2(n: nat): nat
    requires n > 0
  {
    if n == 1 then 0 else 1 + Log2(n / 2)
  }

  /** a | b */
  function Or(a: nat, b: nat): nat
    decreases a + b
  {
    if a == 0 then b
    else if b == 0 then a
    else 2 * Or(a / 2, b / 2) + if a % 2 == 1 || b % 2 == 1 then 1 else 0
  }

  const TWO128: nat := 0x1_0000_0000_0000_0000_0000_0000_0000_0000

  lemma ModSmall(m: nat, hi: nat)
    requires hi > 0
    ensures m % hi <= m
  {
    assert m == m / hi * hi + m % hi;
  }

  /** a & tuser_mask(...): clears the bits from lo up to hi, both powers of two, and all from bit 128 on. */
  function Clear(a: nat, lo: nat, hi: nat): nat
    requires 0 < lo <= hi
  {
    var m := a % TWO128;
    ModSmall(m, hi);
    m - m % hi + m % lo
  }

  // ----- Dumping

  /** A packet with its optional attributes; time is the timestamp in nanoseconds. */
  datatype Packet = Packet(bytes: seq<byte>, time: nat, tuser: seq<nat>, sport: Option<byte>, dport: Option<byte>)

  type TuserList = t: seq<nat> | |t| > 0 witness [0]

  /** TUSER before the packet is written; a packet without the attribute has [0]. */
  function Metadata(p: Packet): (t: TuserList) {
    var t := if p.tuser == [] then [0] else p.tuser;
    var t0 := Or(Clear(t[0], 1, 65536), |p.bytes|);
    var t1 := if p.sport.None? then t0 else Or(Clear(t0, 65536, 0x100_0000), p.sport.value * 65536);
    var t2 := if p.dport.None? then t1 else Or(Clear(t1, 0x100_0000, 0x1_0000_0000), p.dport.value * 0x100_0000);
    t[0 := t2]
  }

  function ByteHex(b: byte): (s: string)
    ensures |s| == 2
  {
    [Digit(b / 16), Digit(b % 16)]
  }

  /** ''.join( '%02x' % x for x in reversed word ) */
  function WordHex(word: seq<byte>): (s: string)
    ensures |s| == 2 * |word|
  {
    if word == [] then [] else WordHex(word[1..]) + ByteHex(word[0])
  }

  /** One data line: a word of w bytes of which valid are the packet's, one TUSER value and the terminal. */
  function DataLine(word: seq<byte>, w: nat, valid: nat, tuser: nat, last: bool): string {
    WordHex(word) + ", " + Zfill(Hex(Pow2(valid) - 1), w / 4) + ", " + Zfill(Hex(tuser), 32) + if last then "." else ","
  }

  function Zeros(n: nat): (z: seq<byte>)
    ensures |z| == n
  {
    seq(n, _ => 0)
  }

  /** The words of a packet; a TUSER list that runs out goes on with zeros. */
  function Words(bytes: seq<byte>, tuser: TuserList, w: nat): seq<string>
    requires w > 0
    decreases |bytes|
  {
    if bytes == [] then []
    else if |bytes| <= w then [DataLine(bytes + Zeros(w - |bytes|), w, |bytes|, tuser[0], true)]
    else [DataLine(bytes[..w], w, w, tuser[0], false)] + Words(bytes[w..], (tuser + [0])[1..], w)
  }

  /** The delay line before a packet: an absolute time before the first, the distance to the last clock tick after. */
  function DelayLine(last: Option<int>, time: nat): seq<string> {
    if last.None? then ["@ " + Dec(time)]
    else if time > last.value then ["+ " + Dec(time - last.value)]
    else []
  }

  function WordCount(n: nat, w: nat): (k: nat)
    requires w > 0
    ensures n > 0 ==> k > 0
  {
    RoundedUp(n, w);
    (n + w - 1) / w
  }

  lemma RoundedUp(n: nat, w: nat)
    requires w > 0
    ensures n > 0 ==> (n + w - 1) / w > 0
  {
    if n > 0 {
      var q, r := (n + w - 1) / w, (n + w - 1) % w;
      assert n + w - 1 == w * q + r;
      Factor(w, q);
    }
  }

  lemma Factor(w: nat, q: int)
    requires w * q > 0
    ensures q > 0
  {
  }

  /** The clock of axis_dump() after a packet: one period for each word. */
  function EndOf(p: Packet, w: nat, period: nat): int
    requires w > 0
  {
    p.time + WordCount(|p.bytes|, w) * period
  }

  /** axis_dump() from the given clock on. */
  function Dump(ps: seq<Packet>, w: nat, last: Option<int>, period: nat): seq<string>
    requires w > 0
    decreases |ps|
  {
    if ps == [] then []
    else
      DelayLine(last, ps[0].time) + Words(ps[0].bytes, Metadata(ps[0]), w) + [""]
        + Dump(ps[1..], w, Some(EndOf(ps[0], w, period)), period)
  }

  lemma CountStep(n: nat, w: nat)
    requires w > 0
    ensures 0 < n <= w ==> WordCount(n, w) == 1
    ensures n > w ==> WordCount(n, w) == 1 + WordCount(n - w, w)
  {
    if 0 < n <= w {
      Quotient(n + w - 1, w, 1);
    } else if n > w {
      var q := (n - w + w - 1) / w;
      Remainder(n - 1, w);
      Quotient(n + w - 1, w, q + 1);
    }
  }

  lemma Remainder(n: nat, w: nat)
    requires w > 0
    ensures n / w * w <= n < (n / w + 1) * w
  {
  }

  lemma MulMono(a: nat, b: nat, w: nat)
    ensures a <= b ==> a * w <= b * w
  {
  }

  lemma Quotient(n: nat, w: nat, q: nat)
    requires w > 0 && q * w <= n < (q + 1) * w
    ensures n / w == q
  {
    Remainder(n, w);
    MulMono(n / w + 1, q, w);
    MulMono(q + 1, n / w, w);
  }

  // ----- Loading

  /** A packet that was read; time, in seconds, is that of its first data line. */
  datatype Loaded = Loaded(bytes: seq<byte>, time: real, tuser: seq<nat>, len: nat, sport: nat, dport: nat)

  /** The variables of axis_load(): the width of the first data line in hex digits, the clock, when the packet under way
      started, that packet, and the packets finished; or an exception. */
  datatype LoadState =
    | Reading(digits: Option<nat>, time: real, start: real, data: seq<byte>, tuser: seq<nat>, pkts: seq<Loaded>)
    | Raised

  /** Nanoseconds in a second. */
  const NANO := 1000000000.0

  /** as_bytes() and reversed(): the bytes of a hex string, last pair first. */
  function WordBytes(s: string): Option<seq<byte>>
    decreases |s|
  {
    if s == [] then Some([])
    else
      var head := ParseHex(if |s| == 1 then s else s[..2]);
      var tail := WordBytes(if |s| == 1 then [] else s[2..]);
      if head.Some? && tail.Some? && head.value < 256 then Some(tail.value + [head.value]) else None
  }

  /** del data[-n:], or nothing. */
  function Trim(data: seq<byte>, n: int): seq<byte> {
    if n <= 0 then data else if n >= |data| then [] else data[..|data| - n]
  }

  /** The end of a packet: the length TUSER gives must be the one found. */
  function Deliver(st: LoadState, bytes: seq<byte>, tuser: seq<nat>): LoadState
    requires st.Reading? && |tuser| > 0
  {
    var t := tuser[0];
    var pkt := Loaded(bytes, st.start, tuser, t % 65536, t / 65536 % 256, t / 0x100_0000 % 256);
    if pkt.len != |bytes| then Raised else st.(data := [], tuser := [], pkts := st.pkts + [pkt])
  }

  /** The last word of a packet: the strobe tells how many of its bytes are padding. */
  function Finish(st: LoadState, strb: nat): LoadState
    requires st.Reading? && st.digits.Some? && |st.tuser| > 0
  {
    Deliver(st, Trim(st.data, st.digits.value / 2 - Log2(strb + 1)), st.tuser)
  }

  /** A data line with its terminal; it takes one period. */
  function LoadData(st: LoadState, line: string, period: real): LoadState
    requires st.Reading? && line != []
  {
    var terminal := line[|line| - 1];
    var fields := Split(line[..|line| - 1], ',');
    if terminal != ',' && terminal != '.' then Raised
    else if |fields| != 3 then Raised
    else
      var f0, f1, f2 := Strip(fields[0]), Strip(fields[1]), Strip(fields[2]);
      var digits := if st.digits.Some? then st.digits.value else |f0|;
      var word, tuser := WordBytes(Zfill(f0, digits)), ParseHex(f2);
      if word.None? || tuser.None? then Raised
      else
        var next := Reading(Some(digits), st.time + period, if st.data == [] then st.time else st.start,
                            st.data + word.value, st.tuser + [tuser.value], st.pkts);
        if terminal == ',' then next
        else
          var strb := ParseHex(f1);
          if strb.None? then Raised else Finish(next, strb.value)
  }

  function WithoutLeading(s: string, c: char): string {
    if s != [] && s[0] == c then WithoutLeading(s[1..], c) else s
  }

  /** A line that sets the clock, or moves it on by nanoseconds or by periods. */
  function LoadDelay(st: LoadState, s: string, period: real): LoadState
    requires st.Reading? && s != []
  {
    var n := ParseInt(Strip(if s[0] == '@' then WithoutLeading(s, '@') else s[1..]));
    if n.None? then Raised
    else if s[0] == '@' then st.(time := n.value as real)
    else if s[0] == '+' then st.(time := st.time + n.value as real / NANO)
    else st.(time := st.time + period * n.value as real)
  }

  /** One line, without its comment. */
  function LoadLine(st: LoadState, line: string, period: real): LoadState {
    var s := Strip(Before(line, '#'));
    if st.Raised? || s == [] then st
    else if s[0] == '@' || s[0] == '+' || s[0] == '*' then LoadDelay(st, s, period)
    else LoadData(st, s, period)
  }

  function LoadLines(st: LoadState, lines: seq<string>, period: real): LoadState
    decreases |lines|
  {
    if lines == [] then st else LoadLines(LoadLine(st, lines[0], period), lines[1..], period)
  }

  /** axis_load() */
  function Load(lines: seq<string>, period: real): LoadState {
    LoadLines(Reading(None, 0.0, 0.0, [], [], []), lines, period)
  }

  // ----- The loops

  /** The loop over the words of one packet; i is the offset of the word, and pop(0) takes TUSER values off the list. */
  method DumpWords(bytes: seq<byte>, tuser: TuserList, w: nat, clock: int, period: nat)
    returns (lines: seq<string>, last: int)
    requires w > 0
    ensures lines == Words(bytes, tuser, w) && last == clock + |lines| * period
  {
    hide DataLine, Words, Zeros, Left, Later;
    lines, last := [], clock;
    LeftIs(bytes, tuser, w, 0);
    LaterIs(clock, 0, period);
    var i, t := 0, tuser;
    while i < |bytes|
      invariant last == Later(clock, |lines|, period)
      invariant lines + Left(bytes, t, w, i) == Words(bytes, tuser, w)
      decreases |bytes| - i
    {
      var padding := 0;
      var word := [];
      if |bytes| - i < w {
        padding := w - (|bytes| - i);
        word := bytes[i..] + Zeros(padding);
      } else {
        word := bytes[i..i + w];
      }
      var line := DataLine(word, w, w - padding, t[0], i + w >= |bytes|);
      WordTurn(bytes, t, w, i);
      LaterIs(clock, |lines|, period);
      lines := lines + [line];
      t := (t + [0])[1..];
      last := last + period;
      i := i + w;
    }
    LeftIs(bytes, t, w, i);
    LaterIs(clock, |lines|, period);
  }

  /** The words from offset i on, if there are any. */
  ghost function Left(bytes: seq<byte>, t: TuserList, w: nat, i: nat): seq<string>
    requires w > 0
  {
    if i < |bytes| then Words(bytes[i..], t, w) else []
  }

  lemma LeftIs(bytes: seq<byte>, t: TuserList, w: nat, i: nat)
    requires w > 0
    ensures i == 0 ==> [] + Left(bytes, t, w, i) == Words(bytes, t, w)
    ensures forall lines: seq<string> :: i >= |bytes| ==> lines + Left(bytes, t, w, i) == lines
  {
    assert bytes[0..] == bytes;
  }

  /** The time n periods after clock. */
  ghost function Later(clock: int, n: nat, period: nat): int {
    clock + n * period
  }

  lemma LaterIs(clock: int, n: nat, period: nat)
    ensures Later(clock, n, period) == clock + n * period
    ensures Later(clock, n + 1, period) == Later(clock, n, period) + period
    ensures Later(clock, 0, period) == clock
  {
  }

  /** One turn of the loop, at offset i. */
  lemma WordTurn(bytes: seq<byte>, t: TuserList, w: nat, i: nat)
    requires w > 0 && i < |bytes|
    ensures var left := |bytes| - i;
            var word := if left < w then bytes[i..] + Zeros(w - left) else bytes[i..i + w];
            forall lines: seq<string> ::
              lines + Left(bytes, t, w, i)
                == lines + [DataLine(word, w, if left < w then left else w, t[0], i + w >= |bytes|)]
                   + Left(bytes, (t + [0])[1..], w, i + w)
  {
    hide DataLine, Words;
    WordsStep(bytes[i..], t, w);
    if |bytes| - i >= w {
      assert bytes[i..][..w] == bytes[i..i + w] && bytes[i..][w..] == bytes[i + w..];
      assert Zeros(0) == [];
      assert |bytes| - i == w ==> bytes[i..] == bytes[i..i + w] && bytes[i..] + Zeros(0) == bytes[i..];
    }
  }

  lemma WordsStep(bytes: seq<byte>, t: TuserList, w: nat)
    requires w > 0 && bytes != []
    ensures |bytes| <= w ==> Words(bytes, t, w) == [DataLine(bytes + Zeros(w - |bytes|), w, |bytes|, t[0], true)]
    ensures |bytes| > w ==>
              Words(bytes, t, w) == [DataLine(bytes[..w], w, w, t[0], false)] + Words(bytes[w..], (t + [0])[1..], w)
  {
  }

  lemma {:induction false} WordsCount(bytes: seq<byte>, t: TuserList, w: nat)
    requires w > 0
    ensures |Words(bytes, t, w)| == WordCount(|bytes|, w)
    decreases |bytes|
  {
    hide DataLine, WordCount;
    if bytes == [] {
      NoWordCount(w);
    } else {
      CountStep(|bytes|, w);
      if |bytes| > w {
        WordsCount(bytes[w..], (t + [0])[1..], w);
      }
    }
  }

  lemma NoWordCount(w: nat)
    requires w > 0
    ensures WordCount(0, w) == 0
  {
  }

  lemma DumpStep(ps: seq<Packet>, w: nat, last: Option<int>, period: nat)
    requires w > 0 && ps != []
    ensures Dump(ps, w, last, period)
              == DelayLine(last, ps[0].time) + Words(ps[0].bytes, Metadata(ps[0]), w) + [""]
                   + Dump(ps[1..], w, Some(EndOf(ps[0], w, period)), period)
  {
  }

  /** axis_dump() for a bus of w bytes. */
  method AxisDump(ps: seq<Packet>, w: nat, period: nat) returns (lines: seq<string>)
    requires w > 0
    ensures lines == Dump(ps, w, None, period)
  {
    hide Words, Metadata, WordCount, Dump, Dec;
    lines := [];
    var last: Option<int> := None;
    var i := 0;
    while i < |ps|
      invariant i <= |ps| && lines + Dump(ps[i..], w, last, period) == Dump(ps, w, None, period)
    {
      var p := ps[i];
      DumpStep(ps[i..], w, last, period);
      assert ps[i..][1..] == ps[i + 1..];
      if last.Some? {
        if p.time > last.value {
          lines := lines + ["+ " + Dec(p.time - last.value)];
        }
      } else {
        lines := lines + ["@ " + Dec(p.time)];
      }
      var words, clock := DumpWords(p.bytes, Metadata(p), w, p.time, period);
      WordsCount(p.bytes, Metadata(p), w);
      last := Some(clock);
      lines := lines + words + [""];
      i := i + 1;
    }
    assert ps[i..] == [];
    NothingLeft(w, last, period);
  }

  lemma NothingLeft(w: nat, last: Option<int>, period: nat)
    requires w > 0
    ensures Dump([], w, last, period) == []
  {
  }

  /** axis_load(). */
  method AxisLoad(lines: seq<string>, period: real) returns (st: LoadState)
    ensures st == Load(lines, period)
  {
    hide LoadLine;
    st := Reading(None, 0.0, 0.0, [], [], []);
    var i := 0;
    while i < |lines|
      invariant i <= |lines| && LoadLines(st, lines[i..], period) == Load(lines, period)
    {
      assert lines[i..][1..] == lines[i + 1..];
      st := LoadLine(st, lines[i], period);
      i := i + 1;
    }
  }
}
