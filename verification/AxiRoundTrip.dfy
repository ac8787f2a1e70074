/** Loading what was dumped: the text format of HW_stub/NetFPGA-10G-live/tools/scripts/axitools.py loses nothing. */
module AxiRoundTrip {
  import opened SeqNum
  import opened AxiText

  // ----- Characters

  predicate HexChar(c: char) {
    '0' <= c <= '9' || 'a' <= c <= 'f'
  }

  predicate Hexadecimal(s: string) {
    forall k :: 0 <= k < |s| ==> HexChar(s[k])
  }

  lemma DigitIs(d: nat)
    requires d < 16
    ensures HexChar(Digit(d)) && DigitValue(Digit(d)) == Some(d)
  {
  }

  lemma {:induction false} BeforeNone(s: string, c: char)
    requires forall k :: 0 <= k < |s| ==> s[k] != c
    ensures Before(s, c) == s
  {
    if s != [] {
      BeforeNone(s[1..], c);
    }
  }

  lemma {:induction false} BeforeFirst(a: string, c: char, b: string)
    requires forall k :: 0 <= k < |a| ==> a[k] != c
    ensures Before(a + [c] + b, c) == a
  {
    var s := a + [c] + b;
    if a != [] {
      assert s[1..] == a[1..] + [c] + b;
      BeforeFirst(a[1..], c, b);
    }
  }

  lemma SplitFirst(a: string, c: char, b: string)
    requires forall k :: 0 <= k < |a| ==> a[k] != c
    ensures Split(a + [c] + b, c) == [a] + Split(b, c)
  {
    BeforeFirst(a, c, b);
    assert (a + [c] + b)[|a| + 1..] == b;
  }

  lemma SplitLast(a: string, c: char)
    requires forall k :: 0 <= k < |a| ==> a[k] != c
    ensures Split(a, c) == [a]
  {
    BeforeNone(a, c);
  }

  lemma StripTight(s: string)
    requires s != [] && !IsSpace(s[0]) && !IsSpace(s[|s| - 1])
    ensures Strip(s) == s && Strip(" " + s) == s
  {
    assert (" " + s)[1..] == s;
  }

  // ----- Numbers

  lemma {:induction false} ParseHexOf(n: nat)
    ensures ParseHex(Hex(n)) == Some(n) && Hexadecimal(Hex(n))
  {
    hide Hex, ParseHex;
    HexIs(n);
    if n < 16 {
      DigitIs(n);
      ParseOne(Digit(n));
    } else {
      ParseHexOf(n / 16);
      DigitIs(n % 16);
      ParseMore(Hex(n / 16), Digit(n % 16));
      Division16(n);
    }
  }

  lemma HexIs(n: nat)
    ensures Hex(n) == if n < 16 then [Digit(n)] else Hex(n / 16) + [Digit(n % 16)]
  {
  }

  lemma Division16(n: nat)
    ensures n == 16 * (n / 16) + n % 16
  {
  }

  lemma ParseOne(c: char)
    ensures ParseHex([c]) == DigitValue(c)
  {
  }

  lemma ParseMore(s: string, c: char)
    requires s != [] && ParseHex(s).Some? && DigitValue(c).Some?
    ensures ParseHex(s + [c]) == Some(16 * ParseHex(s).value + DigitValue(c).value)
  {
    assert (s + [c])[..|s|] == s;
  }

  predicate DecChar(c: char) {
    '0' <= c <= '9'
  }

  predicate Decimal(s: string) {
    forall k :: 0 <= k < |s| ==> DecChar(s[k])
  }

  lemma DecIs(n: nat)
    ensures Dec(n) == if n < 10 then [Digit(n)] else Dec(n / 10) + [Digit(n % 10)]
  {
  }

  lemma ParseDecMore(s: string, d: nat)
    requires d < 10
    ensures ParseDec([Digit(d)]) == Some(d) && DecChar(Digit(d))
    ensures s != [] && ParseDec(s).Some? ==> ParseDec(s + [Digit(d)]) == Some(10 * ParseDec(s).value + d)
  {
    assert (s + [Digit(d)])[..|s|] == s;
  }

  /** A number written in decimal reads back. */
  lemma {:induction false} ParseDecOf(n: nat)
    ensures ParseDec(Dec(n)) == Some(n) && Decimal(Dec(n))
  {
    hide Dec, ParseDec, Digit;
    DecIs(n);
    if n < 10 {
      ParseDecMore([], n);
    } else {
      ParseDecOf(n / 10);
      ParseDecMore(Dec(n / 10), n % 10);
      assert n == 10 * (n / 10) + n % 10;
    }
  }

  lemma ParseIntOf(n: nat)
    ensures ParseInt(Dec(n)) == Some(n)
  {
    hide Dec, ParseDec;
    ParseDecOf(n);
    assert DecChar(Dec(n)[0]);
  }

  lemma {:induction false} ParseZeros(k: nat)
    requires k > 0
    ensures ParseHex(seq(k, _ => '0')) == Some(0)
  {
    var z: string := seq(k, _ => '0');
    if k > 1 {
      assert z[..k - 1] == seq(k - 1, _ => '0');
      ParseZeros(k - 1);
    }
  }

  lemma {:induction false} ParsePadded(k: nat, s: string)
    requires ParseHex(s).Some?
    ensures ParseHex(seq(k, _ => '0') + s) == ParseHex(s)
    decreases |s|
  {
    var z: string := seq(k, _ => '0');
    if k == 0 {
      assert z + s == s;
    } else if |s| == 1 {
      assert (z + s)[..|z + s| - 1] == z;
      ParseZeros(k);
    } else {
      assert (z + s)[..|z + s| - 1] == z + s[..|s| - 1];
      ParsePadded(k, s[..|s| - 1]);
    }
  }

  lemma ZfillDigits(s: string, w: nat)
    requires Hexadecimal(s) && s != []
    ensures Hexadecimal(Zfill(s, w)) && Zfill(s, w) != []
  {
  }

  lemma ParseZfill(n: nat, w: nat)
    ensures ParseHex(Zfill(Hex(n), w)) == Some(n) && Hexadecimal(Zfill(Hex(n), w)) && Zfill(Hex(n), w) != []
  {
    hide ParseHex, Hex, Hexadecimal;
    ParseHexOf(n);
    var s := Hex(n);
    HexNonempty(n);
    ZfillDigits(s, w);
    if |s| < w {
      ParsePadded(w - |s|, s);
    }
  }

  lemma HexNonempty(n: nat)
    ensures Hex(n) != []
  {
  }

  lemma {:induction false} Log2Pow2(k: nat)
    ensures Log2(Pow2(k)) == k
  {
    if k > 0 {
      Log2Pow2(k - 1);
    }
  }

  // ----- Words

  lemma {:induction false} WordHexLast(word: seq<byte>, b: byte)
    ensures WordHex(word + [b]) == ByteHex(b) + WordHex(word)
  {
    if word == [] {
      assert [] + [b] == [b] && [b][1..] == [];
    } else {
      assert (word + [b])[1..] == word[1..] + [b];
      WordHexLast(word[1..], b);
    }
  }

  lemma {:induction false} WordHexDigits(word: seq<byte>)
    ensures Hexadecimal(WordHex(word))
  {
    if word != [] {
      WordHexDigits(word[1..]);
      DigitIs(word[0] / 16);
      DigitIs(word[0] % 16);
    }
  }

  lemma ByteHexIs(b: byte)
    ensures ParseHex(ByteHex(b)) == Some(b)
  {
    DigitIs(b / 16);
    DigitIs(b % 16);
    assert ByteHex(b)[..1] == [Digit(b / 16)];
  }

  /** The reversed bytes of a word read back reversed. */
  lemma {:induction false} WordBytesOf(word: seq<byte>)
    ensures WordBytes(WordHex(word)) == Some(word)
    decreases |word|
  {
    if word != [] {
      var n := |word| - 1;
      WordBytesOf(word[..n]);
      assert word == word[..n] + [word[n]];
      WordHexLast(word[..n], word[n]);
      ByteHexIs(word[n]);
      var s := WordHex(word);
      assert s[..2] == ByteHex(word[n]) && s[2..] == WordHex(word[..n]);
    }
  }

  // ----- Lines

  /** The state after a word of the packet. */
  function AddWord(st: LoadState, word: seq<byte>, tuser: nat, digits: nat, period: real): LoadState
    requires st.Reading?
  {
    Reading(Some(digits), st.time + period, StartOf(st), st.data + word, st.tuser + [tuser], st.pkts)
  }

  /** When the packet starts that the next word belongs to. */
  function StartOf(st: LoadState): real
    requires st.Reading?
  {
    if st.data == [] then st.time else st.start
  }

  /** The three fields of a data line. */
  lemma Fields(a: string, b: string, c: string)
    requires Hexadecimal(a) && Hexadecimal(b) && Hexadecimal(c) && a != [] && b != [] && c != []
    ensures Split(a + ", " + b + ", " + c, ',') == [a, " " + b, " " + c]
    ensures Strip(a) == a && Strip(" " + b) == b && Strip(" " + c) == c
  {
    hide Split, Strip, Before;
    assert a + ", " + b + ", " + c == a + [','] + ((" " + b) + [','] + (" " + c));
    SplitFirst(a, ',', (" " + b) + [','] + (" " + c));
    SplitFirst(" " + b, ',', " " + c);
    SplitLast(" " + c, ',');
    StripTight(a);
    StripTight(b);
    StripTight(c);
  }

  /** A data line has no comment and nothing to strip. */
  lemma LineIsData(a: string, b: string, c: string, t: char)
    requires Hexadecimal(a) && Hexadecimal(b) && Hexadecimal(c) && a != [] && (t == ',' || t == '.')
    ensures var line := a + ", " + b + ", " + c + [t];
            && Strip(Before(line, '#')) == line && HexChar(line[0])
            && line[|line| - 1] == t && line[..|line| - 1] == a + ", " + b + ", " + c
  {
    hide Strip, Before;
    var line := a + ", " + b + ", " + c + [t];
    forall k | 0 <= k < |line| ensures line[k] != '#' {
      CharOf(a, b, c, t, k);
    }
    BeforeNone(line, '#');
    StripTight(line);
  }

  lemma CharOf(a: string, b: string, c: string, t: char, k: nat)
    requires Hexadecimal(a) && Hexadecimal(b) && Hexadecimal(c) && (t == ',' || t == '.')
    requires k < |a + ", " + b + ", " + c + [t]|
    ensures var x := (a + ", " + b + ", " + c + [t])[k]; HexChar(x) || x == ',' || x == ' ' || x == '.'
  {
    var s1 := a + ", ";
    var s2 := s1 + b;
    var s3 := s2 + ", ";
    var s4 := s3 + c;
    if k < |a| {
      assert HexChar(a[k]);
    } else if k < |s1| {
    } else if k < |s2| {
      assert HexChar(b[k - |s1|]);
    } else if k < |s3| {
    } else if k < |s4| {
      assert HexChar(c[k - |s3|]);
    }
  }

  lemma LoadDataLine(st: LoadState, word: seq<byte>, w: nat, valid: nat, tuser: nat, last: bool, period: real)
    requires st.Reading? && |word| == w > 0 && valid <= w && (st.digits.None? || st.digits == Some(2 * w))
    ensures LoadLine(st, DataLine(word, w, valid, tuser, last), period)
              == var next := AddWord(st, word, tuser, 2 * w, period);
                 if last then Finish(next, Pow2(valid) - 1) else next
  {
    hide Split, Strip, Before, WordHex, Hex, ParseHex, WordBytes, Finish, Zfill;
    var a, b, c := WordHex(word), Zfill(Hex(Pow2(valid) - 1), w / 4), Zfill(Hex(tuser), 32);
    var t := if last then '.' else ',';
    WordHexDigits(word);
    WordBytesOf(word);
    ParseZfill(Pow2(valid) - 1, w / 4);
    ParseZfill(tuser, 32);
    assert DataLine(word, w, valid, tuser, last) == a + ", " + b + ", " + c + [t];
    LineIsData(a, b, c, t);
    Fields(a, b, c);
    FullWidth(a, 2 * w);
  }

  /** A number below 16 ^ d has at most d hexadecimal digits. */
  lemma {:induction false} HexWidth(n: nat, d: nat)
    requires d > 0 && n < Pow2(4 * d)
    ensures |Hex(n)| <= d
    decreases d
  {
    if n >= 16 {
      assert Pow2(4 * d) == 16 * Pow2(4 * (d - 1)) by {
        assert Pow2(4 * d - 1) == 2 * Pow2(4 * d - 2) && Pow2(4 * d - 3) == 2 * Pow2(4 * d - 4);
      }
      if d > 1 {
        HexWidth(n / 16, d - 1);
      }
    }
  }

  lemma {:induction false} Pow2Grows(a: nat, b: nat)
    requires a <= b
    ensures Pow2(a) <= Pow2(b)
    decreases b - a
  {
    if a < b {
      Pow2Grows(a, b - 1);
    }
  }

  /** On a bus of a multiple of 4 bytes all data lines have the same width. */
  lemma LineWidth(word: seq<byte>, w: nat, valid: nat, tuser: nat, last: bool)
    requires |word| == w > 0 && w % 4 == 0 && valid <= w && tuser < Pow2(128)
    ensures |DataLine(word, w, valid, tuser, last)| == 2 * w + w / 4 + 32 + 5
  {
    hide WordHex, Hex, Pow2;
    Pow2Grows(valid, w);
    assert w == 4 * (w / 4) && 128 == 4 * 32;
    HexWidth(Pow2(valid) - 1, w / 4);
    HexWidth(tuser, 32);
  }

  lemma FullWidth(s: string, w: nat)
    requires |s| == w
    ensures Zfill(s, w) == s
  {
  }

  // ----- Packets

  /** The first n of a list that goes on with zeros. */
  function Spread(t: seq<nat>, n: nat): (r: seq<nat>)
    ensures |r| == n
  {
    seq(n, k requires 0 <= k < n => if k < |t| then t[k] else 0)
  }

  lemma SpreadStep(t: TuserList, n: nat)
    requires n > 0
    ensures Spread(t, n) == [t[0]] + Spread((t + [0])[1..], n - 1)
  {
  }

  lemma TrimPadding(data: seq<byte>, bytes: seq<byte>, w: nat)
    requires |bytes| <= w
    ensures Trim(data + (bytes + Zeros(w - |bytes|)), w - |bytes|) == data + bytes
  {
    var pad := Zeros(w - |bytes|);
    assert data + (bytes + pad) == (data + bytes) + pad;
    if |bytes| < w {
      var all := (data + bytes) + pad;
      assert all[..|all| - |pad|] == data + bytes;
    }
  }

  lemma LastWord(st: LoadState, bytes: seq<byte>, tuser: nat, w: nat, period: real)
    requires st.Reading? && 0 < |bytes| <= w
    ensures Finish(AddWord(st, bytes + Zeros(w - |bytes|), tuser, 2 * w, period), Pow2(|bytes|) - 1)
              == Deliver(Timed(st, 1, period, w), st.data + bytes, st.tuser + [tuser])
  {
    hide Finish, Trim, Zeros, Pow2, Deliver, After;
    var next := AddWord(st, bytes + Zeros(w - |bytes|), tuser, 2 * w, period);
    TrimPadding(st.data, bytes, w);
    FinishIs(next, |bytes|, w, st.data + bytes);
    OneAfter(st.time, period);
    DeliverSame(next, Timed(st, 1, period, w), st.data + bytes, st.tuser + [tuser]);
  }

  /** Only the width, the clock, the start and the packets of a state matter at the end of a packet. */
  lemma DeliverSame(a: LoadState, b: LoadState, bytes: seq<byte>, tuser: TuserList)
    requires a.Reading? && b.Reading? && a.digits == b.digits && a.time == b.time && a.start == b.start
    requires a.pkts == b.pkts
    ensures Deliver(a, bytes, tuser) == Deliver(b, bytes, tuser)
  {
  }

  lemma FinishIs(next: LoadState, n: nat, w: nat, bytes: seq<byte>)
    requires next.Reading? && next.digits == Some(2 * w) && |next.tuser| > 0 && Trim(next.data, w - n) == bytes
    ensures Finish(next, Pow2(n) - 1) == Deliver(next, bytes, next.tuser)
  {
    hide Trim, Deliver, Log2, Pow2;
    Log2Pow2(n);
    var k: nat := Pow2(n) - 1;
    assert k + 1 == Pow2(n);
    assert next.digits.value / 2 - Log2(k + 1) == w - n;
  }

  /** The clock n data lines later. */
  function After(time: real, n: nat, period: real): real
    decreases n
  {
    if n == 0 then time else After(time + period, n - 1, period)
  }

  lemma OneAfter(time: real, period: real)
    ensures After(time, 1, period) == time + period
  {
  }

  /** The state with the clock after the n data lines of a packet, or of what is left of one. */
  function Timed(st: LoadState, n: nat, period: real, w: nat): LoadState
    requires st.Reading?
  {
    st.(digits := Some(2 * w), time := After(st.time, n, period), start := StartOf(st))
  }

  /** A packet, or what is left of one, that fits in one word. */
  lemma LoadLastWord(st: LoadState, bytes: seq<byte>, tuser: TuserList, w: nat, period: real)
    requires 0 < |bytes| <= w && st.Reading? && (st.digits.None? || st.digits == Some(2 * w))
    ensures LoadLines(st, Words(bytes, tuser, w), period)
              == Deliver(Timed(st, WordCount(|bytes|, w), period, w), st.data + bytes,
                         st.tuser + Spread(tuser, WordCount(|bytes|, w)))
  {
    hide LoadLine, LoadLines, DataLine, Finish, Deliver, Spread, WordCount, Pow2, Words, Timed, AddWord;
    WordsStep(bytes, tuser, w);
    CountStep(|bytes|, w);
    SpreadStep(tuser, 1);
    assert Spread((tuser + [0])[1..], 0) == [];
    LoadDataLine(st, bytes + Zeros(w - |bytes|), w, |bytes|, tuser[0], true, period);
    LastWord(st, bytes, tuser[0], w, period);
    assert [tuser[0]] + [] == [tuser[0]];
    OneLine(st, DataLine(bytes + Zeros(w - |bytes|), w, |bytes|, tuser[0], true), period);
  }

  /** The lists after the first word and the rest. */
  lemma Onward(st: LoadState, bytes: seq<byte>, tuser: TuserList, w: nat)
    requires |bytes| > w > 0 && st.Reading?
    ensures st.data + bytes[..w] + bytes[w..] == st.data + bytes
    ensures st.tuser + [tuser[0]] + Spread((tuser + [0])[1..], WordCount(|bytes| - w, w))
              == st.tuser + Spread(tuser, WordCount(|bytes|, w))
  {
    hide Spread, WordCount;
    var n := WordCount(|bytes|, w);
    CountStep(|bytes|, w);
    SpreadStep(tuser, n);
    assert st.tuser + [tuser[0]] + Spread((tuser + [0])[1..], n - 1) == st.tuser + Spread(tuser, n);
  }

  /** The clock after the first word and the rest. */
  lemma TimedOnward(st: LoadState, word: seq<byte>, tuser: nat, n: nat, w: nat, period: real, data: seq<byte>,
                    ts: TuserList)
    requires st.Reading? && word != []
    ensures Deliver(Timed(AddWord(st, word, tuser, 2 * w, period), n, period, w), data, ts)
              == Deliver(Timed(st, n + 1, period, w), data, ts)
  {
    hide Deliver;
    DeliverSame(Timed(AddWord(st, word, tuser, 2 * w, period), n, period, w), Timed(st, n + 1, period, w), data, ts);
  }

  /** Loading the words of a packet, or of what is left of one. */
  lemma {:induction false} LoadWords(st: LoadState, bytes: seq<byte>, tuser: TuserList, w: nat, period: real)
    requires w > 0 && bytes != [] && st.Reading? && (st.digits.None? || st.digits == Some(2 * w))
    ensures LoadLines(st, Words(bytes, tuser, w), period)
              == Deliver(Timed(st, WordCount(|bytes|, w), period, w), st.data + bytes,
                         st.tuser + Spread(tuser, WordCount(|bytes|, w)))
    decreases |bytes|
  {
    hide LoadLine, LoadLines, DataLine, Finish, Deliver, Spread, WordCount, Pow2, Words, Timed;
    if |bytes| <= w {
      LoadLastWord(st, bytes, tuser, w, period);
    } else {
      WordsStep(bytes, tuser, w);
      LoadDataLine(st, bytes[..w], w, w, tuser[0], false, period);
      var next := AddWord(st, bytes[..w], tuser[0], 2 * w, period);
      var rest: TuserList := (tuser + [0])[1..];
      LoadWords(next, bytes[w..], rest, w, period);
      MoreLines(st, DataLine(bytes[..w], w, w, tuser[0], false), Words(bytes[w..], rest, w), period);
      Onward(st, bytes, tuser, w);
      CountStep(|bytes|, w);
      TimedOnward(st, bytes[..w], tuser[0], WordCount(|bytes| - w, w), w, period, st.data + bytes,
                  st.tuser + Spread(tuser, WordCount(|bytes|, w)));
    }
  }

  lemma OneLine(st: LoadState, line: string, period: real)
    ensures LoadLines(st, [line], period) == LoadLine(st, line, period)
  {
    hide LoadLine;
    assert [line][1..] == [];
  }

  lemma MoreLines(st: LoadState, line: string, lines: seq<string>, period: real)
    ensures LoadLines(st, [line] + lines, period) == LoadLines(LoadLine(st, line, period), lines, period)
  {
    hide LoadLine;
    assert ([line] + lines)[1..] == lines;
  }

  lemma {:induction false} LinesConcat(st: LoadState, a: seq<string>, b: seq<string>, period: real)
    ensures LoadLines(st, a + b, period) == LoadLines(LoadLines(st, a, period), b, period)
    decreases |a|
  {
    hide LoadLine;
    if a == [] {
      assert a + b == b;
    } else {
      assert (a + b)[1..] == a[1..] + b;
      LinesConcat(LoadLine(st, a[0], period), a[1..], b, period);
    }
  }

  lemma {:induction false} RaisedStays(lines: seq<string>, period: real)
    ensures LoadLines(Raised, lines, period) == Raised
    decreases |lines|
  {
    hide Strip, Before;
    if lines != [] {
      RaisedStays(lines[1..], period);
    }
  }

  // ----- Delays, comments and blank lines

  /** What comes after a # does not matter. */
  lemma CommentsIgnored(st: LoadState, s: string, t: string, period: real)
    ensures LoadLine(st, s + "#" + t, period) == LoadLine(st, s, period)
  {
    hide Strip, LoadDelay, LoadData;
    BeforeComment(s, t);
  }

  lemma {:induction false} BeforeComment(s: string, t: string)
    ensures Before(s + "#" + t, '#') == Before(s, '#')
    decreases |s|
  {
    if s != [] {
      assert (s + "#" + t)[1..] == s[1..] + "#" + t;
      BeforeComment(s[1..], t);
    }
  }

  lemma BlankLine(st: LoadState, period: real)
    ensures LoadLine(st, "", period) == st
  {
  }

  /** The text of a delay line, trimmed. */
  lemma DelayText(c: char, n: nat)
    requires c == '@' || c == '+' || c == '*'
    ensures Strip(Before([c, ' '] + Dec(n), '#')) == [c, ' '] + Dec(n)
    ensures var s := [c, ' '] + Dec(n); ParseInt(Strip(if c == '@' then WithoutLeading(s, '@') else s[1..])) == Some(n)
  {
    hide Strip, Before, Dec, ParseInt, ParseDec;
    var s := [c, ' '] + Dec(n);
    ParseDecOf(n);
    ParseIntOf(n);
    assert DecChar(Dec(n)[0]) && DecChar(Dec(n)[|Dec(n)| - 1]);
    forall k | 0 <= k < |s| ensures s[k] != '#' {
      if k >= 2 {
        assert DecChar(Dec(n)[k - 2]);
      }
    }
    BeforeNone(s, '#');
    StripTight(s);
    StripTight(Dec(n));
    assert s[1..] == " " + Dec(n);
    assert s[1..][0] == ' ';
  }

  /** A line with @ sets the clock, to seconds; one with + moves it on by nanoseconds, and one with * by periods. */
  lemma DelayLineRead(st: LoadState, c: char, n: nat, period: real)
    requires st.Reading? && (c == '@' || c == '+' || c == '*')
    ensures LoadLine(st, [c, ' '] + Dec(n), period)
              == st.(time := if c == '@' then n as real else if c == '+' then st.time + n as real / NANO
                             else st.time + period * n as real)
  {
    hide Strip, Before, Dec, ParseInt, WithoutLeading, LoadData;
    DelayText(c, n);
  }

  /** The clock of axis_load() after the delay line of a packet. */
  function Delayed(time: real, last: Option<int>, due: nat): real {
    if last.None? then due as real else if due > last.value then time + (due - last.value) as real / NANO else time
  }

  lemma DelayRead(st: LoadState, last: Option<int>, due: nat, period: real)
    requires st.Reading?
    ensures LoadLines(st, DelayLine(last, due), period) == st.(time := Delayed(st.time, last, due))
  {
    hide LoadLine, Dec;
    if last.None? {
      DelayLineRead(st, '@', due, period);
      assert "@ " == ['@', ' '];
      OneLine(st, "@ " + Dec(due), period);
    } else if due > last.value {
      DelayLineRead(st, '+', due - last.value, period);
      assert "+ " == ['+', ' '];
      OneLine(st, "+ " + Dec(due - last.value), period);
    }
  }

  /** A packet as it comes back. */
  function Expected(p: Packet, w: nat, start: real): Loaded
    requires w > 0
  {
    var t := Metadata(p);
    Loaded(p.bytes, start, Spread(t, WordCount(|p.bytes|, w)), t[0] % 65536, t[0] / 65536 % 256,
           t[0] / 0x100_0000 % 256)
  }

  /** The clock of axis_dump() and that of axis_load() before packet i. */
  function DumpClock(ps: seq<Packet>, w: nat, ns: nat, i: nat): Option<int>
    requires w > 0 && i <= |ps|
  {
    if i == 0 then None else Some(EndOf(ps[i - 1], w, ns))
  }

  function LoadClock(ps: seq<Packet>, w: nat, ns: nat, period: real, i: nat): real
    requires w > 0 && i <= |ps|
    decreases i, 0
  {
    if i == 0 then 0.0 else After(StartAt(ps, w, ns, period, i - 1), WordCount(|ps[i - 1].bytes|, w), period)
  }

  /** When packet i starts, as axis_load() reads it. */
  function StartAt(ps: seq<Packet>, w: nat, ns: nat, period: real, i: nat): real
    requires w > 0 && i < |ps|
    decreases i, 1
  {
    Delayed(LoadClock(ps, w, ns, period, i), DumpClock(ps, w, ns, i), ps[i].time)
  }

  /** The packets from number i on, as they come back. */
  function AllExpected(ps: seq<Packet>, w: nat, ns: nat, period: real, i: nat): seq<Loaded>
    requires w > 0 && i <= |ps|
    decreases |ps| - i
  {
    if i == |ps| then []
    else
      (if ps[i].bytes == [] then [] else [Expected(ps[i], w, StartAt(ps, w, ns, period, i))])
        + AllExpected(ps, w, ns, period, i + 1)
  }

  predicate Short(ps: seq<Packet>) {
    forall p :: p in ps ==> |p.bytes| < 65536
  }

  // ----- TUSER

  lemma Halves(a: nat, k: nat)
    requires k > 0
    ensures a / 2 / Pow2(k - 1) == a / Pow2(k) && a / 2 % Pow2(k - 1) == a % Pow2(k) / 2 && a % Pow2(k) % 2 == a % 2
  {
    var p := Pow2(k - 1);
    var q, r := a / 2 / p, a / 2 % p;
    Exact(a / 2, p);
    assert a == (2 * p) * q + (2 * r + a % 2);
    Unique(a, 2 * p, q, 2 * r + a % 2);
  }

  lemma Exact(a: nat, d: nat)
    requires d > 0
    ensures a == d * (a / d) + a % d && 0 <= a % d < d
  {
  }

  lemma Multiple(d: int, e: int)
    requires d > 0
    ensures (e > 0 ==> d * e >= d) && (e < 0 ==> d * e <= -d)
  {
  }

  lemma Unique(a: nat, d: nat, q: nat, r: nat)
    requires d > 0 && a == d * q + r && r < d
    ensures a / d == q && a % d == r
  {
    Exact(a, d);
    var e: int := a / d - q;
    Multiple(d, e);
    assert d * e == d * (a / d) - d * q;
  }

  lemma OrHalf(a: nat, b: nat)
    ensures Or(a, b) == 2 * Or(a / 2, b / 2) + if a % 2 == 1 || b % 2 == 1 then 1 else 0
  {
    if a == 0 || b == 0 {
      assert Or(a / 2, b / 2) == a / 2 + b / 2;
    }
  }

  lemma PowStep(k: nat)
    requires k > 0
    ensures Pow2(k) == 2 * Pow2(k - 1) && Pow2(k) > 0 && Pow2(k - 1) > 0
  {
  }

  lemma Doubled(h: nat, p: nat)
    ensures h * (2 * p) == 2 * (h * p)
  {
  }

  lemma QuotientNat(a: nat, p: nat)
    requires p > 0
    ensures a / p >= 0
  {
  }

  function Hi(a: nat, k: nat): nat {
    var p := Pow2(k);
    QuotientNat(a, p);
    a / p
  }

  function Lo(a: nat, k: nat): nat {
    a % Pow2(k)
  }

  /** A bitwise or works on the parts above and below bit k alone. */
  lemma {:induction false} OrSplit(a: nat, b: nat, k: nat)
    ensures Or(a, b) == Or(Hi(a, k), Hi(b, k)) * Pow2(k) + Or(Lo(a, k), Lo(b, k))
    decreases k
  {
    hide Or;
    if k == 0 {
      OrZero();
    } else {
      OrSplit(a / 2, b / 2, k - 1);
      OrUp(a, b, k);
    }
  }

  lemma OrZero()
    ensures Or(0, 0) == 0
  {
  }

  lemma OrUp(a: nat, b: nat, k: nat)
    requires k > 0
    requires Or(a / 2, b / 2) == Or(Hi(a / 2, k - 1), Hi(b / 2, k - 1)) * Pow2(k - 1) +
             Or(Lo(a / 2, k - 1), Lo(b / 2, k - 1))
    ensures Or(a, b) == Or(Hi(a, k), Hi(b, k)) * Pow2(k) + Or(Lo(a, k), Lo(b, k))
  {
    hide Or, Pow2, Hi, Lo;
    PowStep(k);
    HalfParts(a, k);
    HalfParts(b, k);
    OrHalf(a, b);
    OrHalf(Lo(a, k), Lo(b, k));
    Doubled(Or(Hi(a, k), Hi(b, k)), Pow2(k - 1));
  }

  lemma HalfParts(a: nat, k: nat)
    requires k > 0
    ensures Hi(a / 2, k - 1) == Hi(a, k) && Lo(a / 2, k - 1) == Lo(a, k) / 2 && Lo(a, k) % 2 == a % 2
  {
    Halves(a, k);
  }

  lemma Powers()
    ensures Pow2(8) == 256 && Pow2(16) == 65536 && Pow2(24) == 0x100_0000
  {
    assert Pow2(4) == 16;
    assert Pow2(8) == 256;
    assert Pow2(12) == 4096;
    assert Pow2(16) == 65536;
    assert Pow2(20) == 0x10_0000;
    assert Pow2(24) == 0x100_0000;
  }

  lemma OrNone(a: nat)
    ensures Or(a, 0) == a && Or(0, a) == a
  {
  }

  lemma PartsOf(h: nat, l: nat, k: nat)
    requires l < Pow2(k)
    ensures Hi(h * Pow2(k) + l, k) == h && Lo(h * Pow2(k) + l, k) == l
  {
    Unique(h * Pow2(k) + l, Pow2(k), h, l);
  }

  /** Or of a byte into a cleared byte field at bit k. */
  lemma OrField(h: nat, l: nat, v: byte, k: nat)
    requires l < Pow2(k)
    ensures Or(h * 256 * Pow2(k) + l, v * Pow2(k)) == (h * 256 + v) * Pow2(k) + l
  {
    hide Or, Pow2, Hi, Lo;
    var n: nat := v;
    PowerPositive(k);
    Powers();
    OrSplit(h * 256 * Pow2(k) + l, n * Pow2(k), k);
    PartsOf(h * 256, l, k);
    PartsOf(n, 0, k);
    OrSplit(h * 256, n, 8);
    PartsOf(h, 0, 8);
    PartsOf(0, n, 8);
    OrNone(l);
    OrNone(h);
    OrNone(n);
  }

  lemma PowerPositive(k: nat)
    ensures Pow2(k) > 0
  {
  }

  /** Or of any number into cleared low bits: those bits come from the number. */
  lemma OrLength(h: nat, n: nat)
    ensures Or(h * 65536, n) % 65536 == n % 65536
    ensures n < 65536 ==> Or(h * 65536, n) == h * 65536 + n
  {
    hide Or, Pow2, Hi, Lo;
    Powers();
    OrSplit(h * 65536, n, 16);
    PartsOf(h, 0, 16);
    Exact(n, 65536);
    PartsOf(n / 65536, n % 65536, 16);
    OrNone(n % 65536);
    OrNone(h);
    var g := Or(h, n / 65536);
    Unique(g * 65536 + n % 65536, 65536, g, n % 65536);
  }

  /** The cleared number: its high and low parts. */
  lemma ClearIs(a: nat, lo: nat, hi: nat) returns (m: nat)
    requires 0 < lo <= hi
    ensures m == a % TWO128 && Clear(a, lo, hi) == m / hi * hi + m % lo
  {
    m := a % TWO128;
    Exact(m, hi);
  }

  /** The fields of TUSER after the length went in. */
  lemma LengthField(a: nat, n: nat)
    ensures var t := Or(Clear(a, 1, 65536), n);
            && t % 65536 == n % 65536
            && (n < 65536 ==> t / 65536 % 256 == a / 65536 % 256 && t / 0x100_0000 % 256 == a / 0x100_0000 % 256)
  {
    hide Or, Clear;
    var m := ClearIs(a, 1, 65536);
    var h := m / 65536;
    OrLength(h, n);
    if n < 65536 {
      Unique(h * 65536 + n, 65536, h, n);
      Shifts(a, m, h * 65536 + n);
    }
  }

  /** Bits from 128 on do not show in the low 32. */
  lemma LowWord(a: nat) returns (g: nat)
    ensures a == g * 0x1_0000_0000 + a % TWO128
  {
    Exact(a, TWO128);
    g := a / TWO128 * 0x1_0000_0000_0000_0000_0000_0000;
  }

  lemma LowWordFields(a: nat, m: nat, g: nat)
    requires a == g * 0x1_0000_0000 + m
    ensures m % 65536 == a % 65536 && m % 0x100_0000 == a % 0x100_0000
    ensures m / 65536 % 256 == a / 65536 % 256 && m / 0x100_0000 % 256 == a / 0x100_0000 % 256
  {
    assert a / 65536 == g * 65536 + m / 65536;
    assert a / 0x100_0000 == g * 256 + m / 0x100_0000;
  }

  lemma Shifts(a: nat, m: nat, t: nat)
    requires m == a % TWO128 && t / 65536 == m / 65536
    ensures t / 65536 % 256 == a / 65536 % 256 && t / 0x100_0000 % 256 == a / 0x100_0000 % 256
  {
    assert t / 0x100_0000 == t / 65536 / 256;
    assert m / 0x100_0000 == m / 65536 / 256;
    ModLow(a, m);
  }

  /** The fields after the source port went in: the others stay. */
  lemma SourceField(a: nat, v: byte)
    ensures var t := Or(Clear(a, 65536, 0x100_0000), v * 65536);
            t % 65536 == a % 65536 && t / 65536 % 256 == v && t / 0x100_0000 % 256 == a / 0x100_0000 % 256
  {
    hide Or, Clear;
    var m := ClearIs(a, 65536, 0x100_0000);
    Powers();
    var h, l := m / 0x100_0000, m % 65536;
    OrField(h, l, v, 16);
    var t: nat := (h * 256 + v) * 65536 + l;
    Unique(t, 65536, h * 256 + v, l);
    Unique(h * 256 + v, 256, h, v);
    assert t / 0x100_0000 == t / 65536 / 256;
    ModLow(a, m);
  }

  lemma ModLow(a: nat, m: nat)
    requires m == a % TWO128
    ensures m % 65536 == a % 65536 && m % 0x100_0000 == a % 0x100_0000
    ensures m / 65536 % 256 == a / 65536 % 256 && m / 0x100_0000 % 256 == a / 0x100_0000 % 256
  {
    var g := LowWord(a);
    LowWordFields(a, m, g);
  }

  /** The fields after the destination port went in. */
  lemma DestField(a: nat, v: byte)
    ensures var t := Or(Clear(a, 0x100_0000, 0x1_0000_0000), v * 0x100_0000);
            t % 65536 == a % 65536 && t / 65536 % 256 == a / 65536 % 256 && t / 0x100_0000 % 256 == v
  {
    hide Or, Clear;
    var m := ClearIs(a, 0x100_0000, 0x1_0000_0000);
    Powers();
    var h, l := m / 0x1_0000_0000, m % 0x100_0000;
    OrField(h, l, v, 24);
    var t: nat := (h * 256 + v) * 0x100_0000 + l;
    Unique(t, 0x100_0000, h * 256 + v, l);
    Unique(h * 256 + v, 256, h, v);
    ModLow(a, m);
    LowFields(t, a);
  }

  lemma LowFields(t: nat, a: nat)
    requires t % 0x100_0000 == a % 0x100_0000
    ensures t % 65536 == a % 65536 && t / 65536 % 256 == a / 65536 % 256
  {
    Exact(t, 0x100_0000);
    Exact(a, 0x100_0000);
    LowBits(t, t / 0x100_0000, t % 0x100_0000);
    LowBits(a, a / 0x100_0000, a % 0x100_0000);
  }

  lemma LowBits(a: nat, g: nat, m: nat)
    requires a == 0x100_0000 * g + m && m < 0x100_0000
    ensures a % 65536 == m % 65536 && a / 65536 % 256 == m / 65536
  {
    assert a / 65536 == 256 * g + m / 65536;
  }

  /** What the loader finds in TUSER: the length modulo 2^16 and, for a packet shorter than that, the ports that were
      set, or the bits the caller's TUSER had in their places. */
  lemma MetadataIs(p: Packet)
    ensures var t := Metadata(p)[0];
            var t' := if p.tuser == [] then 0 else p.tuser[0];
            && t % 65536 == |p.bytes| % 65536
            && (|p.bytes| < 65536 ==>
                  && t / 65536 % 256 == (if p.sport.Some? then p.sport.value else t' / 65536 % 256)
                  && t / 0x100_0000 % 256 == (if p.dport.Some? then p.dport.value else t' / 0x100_0000 % 256))
  {
    hide Or, Clear;
    var t' := if p.tuser == [] then 0 else p.tuser[0];
    LengthField(t', |p.bytes|);
    var t0 := Or(Clear(t', 1, 65536), |p.bytes|);
    var t1 := if p.sport.None? then t0 else Or(Clear(t0, 65536, 0x100_0000), p.sport.value * 65536);
    if p.sport.Some? {
      SourceField(t0, p.sport.value);
    }
    if p.dport.Some? {
      DestField(t1, p.dport.value);
    }
  }

  // ----- Round trip

  lemma LoadPacket(st: LoadState, p: Packet, w: nat, period: real)
    requires w > 0 && p.bytes != [] && st.Reading? && st.data == [] && st.tuser == []
    requires st.digits.None? || st.digits == Some(2 * w)
    ensures LoadLines(st, Words(p.bytes, Metadata(p), w), period)
              == if |p.bytes| < 65536
                 then Reading(Some(2 * w), After(st.time, WordCount(|p.bytes|, w), period), st.time, [], [],
                              st.pkts + [Expected(p, w, st.time)])
                 else Raised
  {
    hide Words, LoadLines, Metadata, Spread, WordCount, After;
    var t := Metadata(p);
    LoadWords(st, p.bytes, t, w, period);
    CountStep(|p.bytes|, w);
    SpreadStep(t, WordCount(|p.bytes|, w));
    MetadataIs(p);
    assert [] + p.bytes == p.bytes;
    assert [] + Spread(t, WordCount(|p.bytes|, w)) == Spread(t, WordCount(|p.bytes|, w));
  }

  /** The delay, the words and the blank line of the first packet, then the rest. */
  lemma LoadFirst(st: LoadState, ps: seq<Packet>, w: nat, last: Option<int>, ns: nat, period: real)
    requires w > 0 && ps != [] && st.Reading?
    ensures LoadLines(st, Dump(ps, w, last, ns), period)
              == LoadLines(LoadLines(st.(time := Delayed(st.time, last, ps[0].time)),
                                     Words(ps[0].bytes, Metadata(ps[0]), w), period),
                           Dump(ps[1..], w, Some(EndOf(ps[0], w, ns)), ns), period)
  {
    hide LoadLine, Words, Metadata, DelayLine, LoadLines, EndOf, Delayed;
    var delay, words := DelayLine(last, ps[0].time), Words(ps[0].bytes, Metadata(ps[0]), w);
    var rest := Dump(ps[1..], w, Some(EndOf(ps[0], w, ns)), ns);
    assert Dump(ps, w, last, ns) == delay + (words + ([""] + rest));
    LinesConcat(st, delay, words + ([""] + rest), period);
    DelayRead(st, last, ps[0].time, period);
    var at := st.(time := Delayed(st.time, last, ps[0].time));
    LinesConcat(at, words, [""] + rest, period);
    var mid := LoadLines(at, words, period);
    MoreLines(mid, "", rest, period);
    BlankLine(mid, period);
  }

  /** Between packets: nothing of the next one has been read, and the clock stands where packet i finds it. */
  predicate Between(st: LoadState, ps: seq<Packet>, w: nat, ns: nat, period: real, i: nat)
    requires w > 0 && i <= |ps|
  {
    && st.Reading? && st.data == [] && st.tuser == [] && (st.digits.None? || st.digits == Some(2 * w))
    && (i > 0 ==> st.time == LoadClock(ps, w, ns, period, i))
  }

  /** Reading one packet. */
  lemma LoadOne(st: LoadState, ps: seq<Packet>, w: nat, ns: nat, period: real, i: nat) returns (next: LoadState)
    requires w > 0 && i < |ps| && Between(st, ps, w, ns, period, i)
    ensures LoadLines(st, Dump(ps[i..], w, DumpClock(ps, w, ns, i), ns), period)
              == LoadLines(next, Dump(ps[i + 1..], w, DumpClock(ps, w, ns, i + 1), ns), period)
    ensures |ps[i].bytes| >= 65536 ==> next == Raised
    ensures |ps[i].bytes| < 65536 ==>
              && Between(next, ps, w, ns, period, i + 1)
              && next.pkts == if ps[i].bytes == [] then st.pkts
                              else st.pkts + [Expected(ps[i], w, StartAt(ps, w, ns, period, i))]
  {
    hide LoadLines, Words, Metadata, Dump, Expected, WordCount, EndOf, After, Delayed, StartAt, LoadClock, DumpClock;
    var p := ps[i];
    assert ps[i..][0] == p && ps[i..][1..] == ps[i + 1..];
    LoadFirst(st, ps[i..], w, DumpClock(ps, w, ns, i), ns, period);
    var at := st.(time := StartAt(ps, w, ns, period, i));
    next := LoadLines(at, Words(p.bytes, Metadata(p), w), period);
    ClocksAfter(ps, w, ns, period, i);
    StartIs(st, ps, w, ns, period, i);
    if p.bytes == [] {
      NoWords(at, Metadata(p), w, period);
      NoTime(at.time, w, period);
    } else {
      LoadPacket(at, p, w, period);
    }
  }

  lemma ClocksAfter(ps: seq<Packet>, w: nat, ns: nat, period: real, i: nat)
    requires w > 0 && i < |ps|
    ensures DumpClock(ps, w, ns, i + 1) == Some(EndOf(ps[i], w, ns))
    ensures LoadClock(ps, w, ns, period, i + 1)
              == After(StartAt(ps, w, ns, period, i), WordCount(|ps[i].bytes|, w), period)
  {
  }

  lemma StartIs(st: LoadState, ps: seq<Packet>, w: nat, ns: nat, period: real, i: nat)
    requires w > 0 && i < |ps| && Between(st, ps, w, ns, period, i)
    ensures Delayed(st.time, DumpClock(ps, w, ns, i), ps[i].time) == StartAt(ps, w, ns, period, i)
  {
  }

  lemma NoTime(time: real, w: nat, period: real)
    requires w > 0
    ensures After(time, WordCount(0, w), period) == time
  {
    NoWordCount(w);
  }

  lemma {:induction false} LoadDump(st: LoadState, ps: seq<Packet>, w: nat, ns: nat, period: real, i: nat)
    requires w > 0 && i <= |ps| && Between(st, ps, w, ns, period, i)
    ensures var r := LoadLines(st, Dump(ps[i..], w, DumpClock(ps, w, ns, i), ns), period);
            if Short(ps[i..]) then r.Reading? && r.pkts == st.pkts + AllExpected(ps, w, ns, period, i) else r == Raised
    decreases |ps| - i
  {
    hide LoadLine, LoadLines, Dump, Expected, AllExpected, Short, Between, DumpClock, StartAt;
    if i == |ps| {
      assert ps[i..] == [];
      NothingDumped(st, w, DumpClock(ps, w, ns, i), ns, period);
      NothingExpected(ps, w, ns, period);
      BetweenReads(st, ps, w, ns, period, i);
    } else {
      var next := LoadOne(st, ps, w, ns, period, i);
      ShortSplit(ps, i);
      BetweenReads(st, ps, w, ns, period, i);
      ExpectedFirst(st.pkts, ps, w, ns, period, i);
      if |ps[i].bytes| < 65536 {
        LoadDump(next, ps, w, ns, period, i + 1);
      } else {
        RaisedStays(Dump(ps[i + 1..], w, DumpClock(ps, w, ns, i + 1), ns), period);
      }
    }
  }

  lemma BetweenReads(st: LoadState, ps: seq<Packet>, w: nat, ns: nat, period: real, i: nat)
    requires w > 0 && i <= |ps| && Between(st, ps, w, ns, period, i)
    ensures st.Reading?
  {
  }

  lemma NothingExpected(ps: seq<Packet>, w: nat, ns: nat, period: real)
    requires w > 0
    ensures Short(ps[|ps|..]) && AllExpected(ps, w, ns, period, |ps|) == []
  {
  }

  lemma ExpectedFirst(pkts: seq<Loaded>, ps: seq<Packet>, w: nat, ns: nat, period: real, i: nat)
    requires w > 0 && i < |ps|
    ensures pkts + AllExpected(ps, w, ns, period, i)
              == (if ps[i].bytes == [] then pkts else pkts + [Expected(ps[i], w, StartAt(ps, w, ns, period, i))])
                 + AllExpected(ps, w, ns, period, i + 1)
  {
    hide Expected, StartAt;
  }

  lemma NothingDumped(st: LoadState, w: nat, last: Option<int>, ns: nat, period: real)
    requires w > 0
    ensures LoadLines(st, Dump([], w, last, ns), period) == st
  {
  }

  lemma NoWords(st: LoadState, t: TuserList, w: nat, period: real)
    requires w > 0
    ensures LoadLines(st, Words([], t, w), period) == st
  {
  }

  lemma ShortSplit(ps: seq<Packet>, i: nat)
    requires i < |ps|
    ensures Short(ps[i..]) <==> |ps[i].bytes| < 65536 && Short(ps[i + 1..])
  {
    assert ps[i..] == [ps[i]] + ps[i + 1..];
  }

  /** For every list of packets, every bus width of whole bytes and all timing: when all packets are shorter than 65536
      bytes, loading the dumped text gives back every nonempty packet byte for byte, in order, with its TUSER and the
      time of StartAt; otherwise the loader raises an exception. Empty packets leave no trace. */
  lemma RoundTrip(ps: seq<Packet>, w: nat, ns: nat, period: real)
    requires w > 0
    ensures var r := Load(Dump(ps, w, None, ns), period);
            if Short(ps) then r.Reading? && r.pkts == AllExpected(ps, w, ns, period, 0) else r == Raised
  {
    hide LoadLines, Dump, AllExpected, Short;
    assert ps[0..] == ps;
    LoadDump(Reading(None, 0.0, 0.0, [], [], []), ps, w, ns, period, 0);
    assert [] + AllExpected(ps, w, ns, period, 0) == AllExpected(ps, w, ns, period, 0);
  }

  function Blanks(lines: seq<string>): nat {
    if lines == [] then 0 else (if lines[0] == "" then 1 else 0) + Blanks(lines[1..])
  }

  lemma {:induction false} BlanksConcat(a: seq<string>, b: seq<string>)
    ensures Blanks(a + b) == Blanks(a) + Blanks(b)
    decreases |a|
  {
    if a == [] {
      assert a + b == b;
    } else {
      assert (a + b)[1..] == a[1..] + b;
      BlanksConcat(a[1..], b);
    }
  }

  lemma {:induction false} NoBlanks(lines: seq<string>)
    requires "" !in lines
    ensures Blanks(lines) == 0
    decreases |lines|
  {
    if lines != [] {
      NoBlanks(lines[1..]);
    }
  }

  lemma {:induction false} WordsNotBlank(bytes: seq<byte>, tuser: TuserList, w: nat)
    requires w > 0
    ensures "" !in Words(bytes, tuser, w)
    decreases |bytes|
  {
    hide WordHex, Zfill, Hex, Pow2;
    if |bytes| > w {
      WordsNotBlank(bytes[w..], (tuser + [0])[1..], w);
    }
  }

  /** Each packet, an empty one too, ends with a blank line, and there are no others. */
  lemma {:induction false} BlankAfterEach(ps: seq<Packet>, w: nat, last: Option<int>, ns: nat)
    requires w > 0
    ensures Blanks(Dump(ps, w, last, ns)) == |ps|
    ensures ps != [] ==> Dump(ps, w, last, ns) != [] && Dump(ps, w, last, ns)[|Dump(ps, w, last, ns)| - 1] == ""
    decreases |ps|
  {
    hide Words, Metadata, EndOf, Blanks, Dec, Dump;
    if ps == [] {
      NothingLeft(w, last, ns);
      NoBlanks([]);
    } else {
      var delay, words := DelayLine(last, ps[0].time), Words(ps[0].bytes, Metadata(ps[0]), w);
      var rest := Dump(ps[1..], w, Some(EndOf(ps[0], w, ns)), ns);
      DumpStep(ps, w, last, ns);
      BlankAfterEach(ps[1..], w, Some(EndOf(ps[0], w, ns)), ns);
      WordsNotBlank(ps[0].bytes, Metadata(ps[0]), w);
      NoBlanks(delay);
      NoBlanks(words);
      BlanksConcat(delay, words);
      BlanksConcat(delay + words, [""]);
      BlanksConcat(delay + words + [""], rest);
      OneBlank();
      if ps[1..] == [] {
        NothingLeft(w, Some(EndOf(ps[0], w, ns)), ns);
      }
    }
  }

  lemma OneBlank()
    ensures Blanks([""]) == 1
  {
  }

  /** The length and port fields of a packet that came back. */
  lemma ExpectedFields(p: Packet, w: nat, start: real)
    requires w > 0 && |p.bytes| < 65536
    ensures var e := Expected(p, w, start);
            && e.bytes == p.bytes && e.len == |p.bytes|
            && (p.sport.Some? ==> e.sport == p.sport.value) && (p.dport.Some? ==> e.dport == p.dport.value)
  {
    hide Metadata;
    MetadataIs(p);
  }
}
