/** Searching a byte stream for a needle while it arrives: SW_stub/cli/socket_helper.c and search_state.c. */
module ReadSearch {
  import opened SeqNum

  /** What one read() does: delivers some of the bytes on the way, at most n of them; is interrupted by a signal; fails;
      or meets the end of the stream. */
  datatype Outcome = Chunk(n: nat) | Interrupted | Failed | Eof

  /** The return values 0, 1, -1, -2 and -3; Blocked stands for a read() that does not return. */
  datatype Result = Success | AtEof | Error | Full | MoreReads | Blocked

  /** What a caller of read_search() sees of the state: the bytes received, and the two offsets. */
  datatype View = View(buf: seq<byte>, offset: nat, needleOffset: nat)

  predicate MatchAt(buf: seq<byte>, needle: seq<byte>, k: nat) {
    k + |needle| <= |buf| && buf[k..k + |needle|] == needle
  }

  /** Every occurrence of the needle that starts before limit, in order. */
  function Matches(buf: seq<byte>, needle: seq<byte>, limit: nat): (r: seq<int>)
    ensures forall k :: k in r <==> 0 <= k < limit && MatchAt(buf, needle, k)
  {
    if limit == 0 then []
    else Matches(buf, needle, limit - 1) + if MatchAt(buf, needle, limit - 1) then [limit - 1] else []
  }

  /** The search has not gone past bytes it has not seen. */
  predicate Caught(v: View, needle: seq<byte>) {
    v.offset > 0 ==> v.offset - 1 + |needle| <= |v.buf|
  }

  /** What one call of read_search() promises. */
  ghost predicate Called(v: View, v': View, needle: seq<byte>, r: Result) {
    && v.buf <= v'.buf && v.offset <= v'.offset && (v.offset < v'.offset ==> Caught(v', needle))
    && (forall k :: v.offset <= k < v'.offset && !(r == Success && k == v'.needleOffset) ==>
          !MatchAt(v'.buf, needle, k))
    && (r == Success ==>
          v.offset <= v'.needleOffset && v'.offset == v'.needleOffset + 1 && MatchAt(v'.buf, needle, v'.needleOffset))
    && (r != Success ==>
          v'.needleOffset == v.needleOffset && forall k :: v'.offset <= k ==> !MatchAt(v'.buf, needle, k))
  }

  // ----- Runs

  /** One call in a series: its result, and the state it left. */
  datatype Call = Call(r: Result, v: View)

  ghost predicate Series(v: View, needle: seq<byte>, calls: seq<Call>)
    decreases |calls|
  {
    calls != [] ==> Called(v, calls[0].v, needle, calls[0].r) && Series(calls[0].v, needle, calls[1..])
  }

  /** The offsets the successful calls reported. */
  function Reported(calls: seq<Call>): seq<int>
    decreases |calls|
  {
    if calls == [] then []
    else (if calls[0].r == Success then [calls[0].v.needleOffset] else []) + Reported(calls[1..])
  }

  function Final(v: View, calls: seq<Call>): View {
    if calls == [] then v else calls[|calls| - 1].v
  }

  /** Bytes that arrive later change no occurrence that was complete before. */
  lemma {:induction false} MatchesGrow(buf: seq<byte>, buf': seq<byte>, needle: seq<byte>, limit: nat)
    requires buf <= buf' && (limit > 0 ==> limit - 1 + |needle| <= |buf|)
    ensures Matches(buf', needle, limit) == Matches(buf, needle, limit)
  {
    if limit > 0 {
      MatchesGrow(buf, buf', needle, limit - 1);
      assert buf'[limit - 1..limit - 1 + |needle|] == buf[limit - 1..limit - 1 + |needle|];
    }
  }

  lemma {:induction false} MatchesSkip(buf: seq<byte>, needle: seq<byte>, low: nat, high: nat)
    requires low <= high && forall k :: low <= k < high ==> !MatchAt(buf, needle, k)
    ensures Matches(buf, needle, high) == Matches(buf, needle, low)
  {
    if low < high {
      MatchesSkip(buf, needle, low, high - 1);
    }
  }

  lemma CallReports(v: View, v': View, needle: seq<byte>, r: Result)
    requires Called(v, v', needle, r) && Caught(v, needle)
    ensures Matches(v'.buf, needle, v'.offset)
              == Matches(v.buf, needle, v.offset) + if r == Success then [v'.needleOffset] else []
  {
    MatchesGrow(v.buf, v'.buf, needle, v.offset);
    if r == Success {
      MatchesSkip(v'.buf, needle, v.offset, v'.needleOffset);
    } else {
      MatchesSkip(v'.buf, needle, v.offset, v'.offset);
    }
  }

  lemma {:induction false} SeriesReports(v: View, needle: seq<byte>, calls: seq<Call>)
    requires Caught(v, needle) && Series(v, needle, calls)
    ensures Caught(Final(v, calls), needle)
    ensures Matches(Final(v, calls).buf, needle, Final(v, calls).offset)
              == Matches(v.buf, needle, v.offset) + Reported(calls)
    decreases |calls|
  {
    hide Matches, Called;
    if calls != [] {
      CallIs(v, calls[0].v, needle, calls[0].r);
      SeriesReports(calls[0].v, needle, calls[1..]);
      assert Final(v, calls) == Final(calls[0].v, calls[1..]);
    }
  }

  lemma CallIs(v: View, v': View, needle: seq<byte>, r: Result)
    requires Called(v, v', needle, r) && Caught(v, needle)
    ensures Caught(v', needle)
    ensures Matches(v'.buf, needle, v'.offset)
              == Matches(v.buf, needle, v.offset) + if r == Success then [v'.needleOffset] else []
  {
    hide Matches, MatchAt;
    CallReports(v, v', needle, r);
  }

  /** However the reads cut the stream into pieces, and whatever interrupts the calls: the successful calls report every
      occurrence of the needle that starts before the search offset, once and in order; after a call that did not
      succeed that is every occurrence in the bytes received. */
  lemma AllReported(needle: seq<byte>, calls: seq<Call>)
    requires Series(View([], 0, 0), needle, calls)
    ensures var f := Final(View([], 0, 0), calls);
            && Reported(calls) == Matches(f.buf, needle, f.offset)
            && (calls != [] && calls[|calls| - 1].r != Success ==>
                  Reported(calls) == Matches(f.buf, needle, |f.buf| + 1))
  {
    hide Matches;
    var v := View([], 0, 0);
    SeriesReports(v, needle, calls);
    assert Matches([], needle, 0) == [] by {
      MatchesNone(needle);
    }
    if calls != [] && calls[|calls| - 1].r != Success {
      var f := Final(v, calls);
      LastCall(v, needle, calls);
      MatchesSkip(f.buf, needle, f.offset, |f.buf| + 1);
    }
  }

  lemma MatchesNone(needle: seq<byte>)
    ensures Matches([], needle, 0) == []
  {
  }

  lemma {:induction false} LastCall(v: View, needle: seq<byte>, calls: seq<Call>)
    requires Series(v, needle, calls) && calls != [] && calls[|calls| - 1].r != Success
    ensures forall k :: Final(v, calls).offset <= k ==> !MatchAt(Final(v, calls).buf, needle, k)
    decreases |calls|
  {
    if |calls| > 1 {
      LastCall(calls[0].v, needle, calls[1..]);
      assert Final(v, calls) == Final(calls[0].v, calls[1..]);
    }
  }

  /** The results other than Success promise the same of the state. */
  lemma SameCall(v: View, v': View, needle: seq<byte>, r: Result)
    requires Called(v, v', needle, Blocked) && r != Success
    ensures Called(v, v', needle, r)
  {
  }

  /** Two searches in a row, the first of them in vain, are one search. */
  lemma Compose(v: View, v1: View, v2: View, needle: seq<byte>, r: Result)
    requires Called(v, v1, needle, Blocked) && Called(v1, v2, needle, r)
    ensures Called(v, v2, needle, r)
  {
    forall k | v.offset <= k < v1.offset ensures !MatchAt(v2.buf, needle, k) {
      assert !MatchAt(v1.buf, needle, k);
      assert v2.buf[k..k + |needle|] == v1.buf[k..k + |needle|];
    }
  }

  lemma Scanned(v: View, v': View, needle: seq<byte>, found: bool)
    requires v.buf <= v'.buf && v.offset <= v'.offset
    requires v.offset < v'.offset ==> v'.offset - 1 + |needle| <= |v'.buf|
    requires forall k :: v.offset <= k < v'.offset && !(found && k == v'.needleOffset) ==> !MatchAt(v'.buf, needle, k)
    requires found ==>
               && v.offset <= v'.needleOffset && v'.offset == v'.needleOffset + 1
               && MatchAt(v'.buf, needle, v'.needleOffset)
    requires !found ==> v'.needleOffset == v.needleOffset && v'.offset + |needle| > |v'.buf|
    ensures Called(v, v', needle, if found then Success else Blocked)
  {
  }

  /** The first n bytes of the input have joined the buffer, and rest is left. */
  ghost predicate HasRead(v: View, v': View, input: seq<byte>, n: nat, rest: seq<byte>) {
    n <= |input| && rest == input[n..] && v'.buf == v.buf + input[..n]
  }

  lemma ReadNothing(v: View, input: seq<byte>)
    ensures HasRead(v, v, input, 0, input)
  {
  }

  lemma ReadOn(v: View, v1: View, v2: View, input: seq<byte>, n: nat, rest: seq<byte>, d: nat)
    requires HasRead(v, v1, input, n, rest) && d <= |rest| && v2.buf == v1.buf + rest[..d]
    ensures HasRead(v, v2, input, n + d, rest[d..])
  {
  }

  lemma HasReadIs(v: View, v': View, input: seq<byte>, n: nat, rest: seq<byte>)
    requires HasRead(v, v', input, n, rest)
    ensures n <= |input| && v'.buf == v.buf + input[..n] && |v'.buf| == |v.buf| + n
  {
  }

  /** What became of an attempt to read: the call ends, the attempt was interrupted, or bytes came in. */
  datatype Turn = Ends(r: Result) | Again | Got

  class SearchState {
    var chbuf: array<byte>
    const maxCapacity: nat
    var used: nat
    var searchOffset: nat
    var needleOffset: nat

    ghost predicate Valid()
      reads this
    {
      0 < chbuf.Length <= maxCapacity && used <= chbuf.Length && searchOffset <= used
    }

    function Value(): View
      requires Valid()
      reads this, chbuf
    {
      View(chbuf[..used], searchOffset, needleOffset)
    }

    /** search_state_init(). */
    constructor (initSize: nat, maxSize: nat)
      requires 0 < initSize <= maxSize
      ensures Valid() && Value() == View([], 0, 0) && fresh(chbuf) && chbuf.Length == initSize && maxCapacity == maxSize
    {
      chbuf := new byte[initSize](_ => 0);
      maxCapacity := maxSize;
      used, searchOffset, needleOffset := 0, 0, 0;
    }

    /** search_state_grow_if_full(), when realloc() succeeds. */
    method GrowIfFull() returns (r: nat)
      requires Valid()
      modifies this`chbuf
      ensures Valid() && Value() == old(Value()) && (chbuf == old(chbuf) || fresh(chbuf))
      ensures r == (if old(used < chbuf.Length) then 0 else if old(chbuf.Length) < maxCapacity then 1 else 2)
      ensures chbuf.Length == if r != 1 then old(chbuf.Length)
                              else if 2 * old(chbuf.Length) <= maxCapacity then 2 * old(chbuf.Length) else maxCapacity
      ensures r == 2 ==> used == maxCapacity
      ensures r != 2 ==> used < chbuf.Length
    {
      if used == chbuf.Length {
        var newSize := 2 * chbuf.Length;
        if newSize > maxCapacity {
          if used == maxCapacity {
            return 2;
          }
          newSize := maxCapacity;
        }
        var grown := new byte[newSize](_ => 0);
        forall k | 0 <= k < used {
          grown[k] := chbuf[k];
        }
        assert grown[..used] == chbuf[..used];
        chbuf := grown;
        return 1;
      }
      r := 0;
    }

    /** The loop over needle and buffer that compares one position. */
    method Compare(needle: seq<byte>, total: nat) returns (found: bool)
      requires total <= chbuf.Length && searchOffset + |needle| <= total
      ensures found == MatchAt(chbuf[..total], needle, searchOffset)
    {
      found := true;
      var j := 0;
      while j < |needle|
        invariant j <= |needle| && found
        invariant forall k :: 0 <= k < j ==> chbuf[searchOffset + k] == needle[k]
      {
        if chbuf[searchOffset + j] != needle[j] {
          assert chbuf[..total][searchOffset..searchOffset + |needle|][j] != needle[j];
          return false;
        }
        j := j + 1;
      }
      assert chbuf[..total][searchOffset..searchOffset + |needle|] == needle;
    }

    /** The loop over the positions that can be compared, total bytes being in the buffer. */
    method Scan(needle: seq<byte>, total: nat) returns (found: bool)
      requires |needle| > 0 && total <= chbuf.Length && searchOffset <= total
      modifies this`searchOffset, this`needleOffset
      ensures old(searchOffset) <= searchOffset <= total
      ensures old(searchOffset) < searchOffset ==> searchOffset - 1 + |needle| <= total
      ensures forall k :: old(searchOffset) <= k < searchOffset && !(found && k == needleOffset) ==>
                            !MatchAt(chbuf[..total], needle, k)
      ensures found ==> old(searchOffset) <= needleOffset && searchOffset == needleOffset + 1
                        && MatchAt(chbuf[..total], needle, needleOffset)
      ensures !found ==> needleOffset == old(needleOffset) && searchOffset + |needle| > total
    {
      hide MatchAt;
      found := false;
      while searchOffset + |needle| <= total
        invariant old(searchOffset) <= searchOffset <= total && needleOffset == old(needleOffset) && !found
        invariant old(searchOffset) < searchOffset ==> searchOffset - 1 + |needle| <= total
        invariant forall k :: old(searchOffset) <= k < searchOffset ==> !MatchAt(chbuf[..total], needle, k)
        decreases total - searchOffset
      {
        found := Compare(needle, total);
        if found {
          needleOffset := searchOffset;
          searchOffset := searchOffset + 1;
          return;
        }
        searchOffset := searchOffset + 1;
      }
    }

    /** One read() into the free part of the buffer; it is offered at least one byte. */
    method ReadInto(input: seq<byte>, n: nat) returns (d: nat)
      requires Valid() && used < chbuf.Length
      modifies chbuf
      ensures Valid() && d <= n && d <= |input| && used + d <= chbuf.Length && (n > 0 && input != [] ==> d > 0)
      ensures chbuf[..used + d] == old(chbuf[..used]) + input[..d] && Value() == old(Value())
    {
      var amount := chbuf.Length - used;
      d := if n <= amount && n <= |input| then n else if amount <= |input| then amount else |input|;
      forall k | 0 <= k < d {
        chbuf[used + k] := input[k];
      }
      assert chbuf[..used] == old(chbuf[..used]);
      assert chbuf[used..used + d] == input[..d];
      assert chbuf[..used + d] == chbuf[..used] + chbuf[used..used + d];
    }

    /** The part of the loop before the buffer is searched again: make room, and read. */
    method ReadMore(rest: seq<byte>, outcomes: seq<Outcome>) returns (turn: Turn, got: nat)
      requires Valid()
      modifies this`chbuf, chbuf
      ensures Valid() && Value() == old(Value()) && (chbuf == old(chbuf) || fresh(chbuf))
      ensures got <= |rest| && used + got <= chbuf.Length && chbuf[..used + got] == old(chbuf[..used]) + rest[..got]
      ensures if turn.Got? then got > 0 else got == 0
      ensures turn.Ends? ==> turn.r != Success && turn.r != MoreReads && (turn.r == Full ==> used == maxCapacity)
      ensures outcomes == [] ==> turn.Ends?
    {
      got := 0;
      var full := GrowIfFull();
      assert chbuf[..used] == Value().buf;
      if full == 2 {
        return Ends(Full), got;
      }
      if outcomes == [] {
        return Ends(Blocked), got;
      }
      match outcomes[0] {
        case Interrupted => turn := Again;
        case Failed => turn := Ends(Error);
        case Eof => turn := Ends(AtEof);
        case Chunk(k) =>
          got := ReadInto(rest, k);
          turn := if got == 0 then Ends(Blocked) else Got;
      }
    }

    /** The search of the buffer after got more bytes came in. */
    method ScanNew(needle: seq<byte>, got: nat) returns (found: bool)
      requires Valid() && |needle| > 0 && used + got <= chbuf.Length
      modifies this`used, this`searchOffset, this`needleOffset
      ensures Valid() && used == old(used) + got && Value().buf == old(chbuf[..used + got])
      ensures Called(old(Value()), Value(), needle, if found then Success else Blocked)
    {
      hide MatchAt, Called, Caught;
      ghost var before := Value();
      found := Scan(needle, used + got);
      used := used + got;
      assert before.buf == Value().buf[..|before.buf|];
      Scanned(before, Value(), needle, found);
    }

    /** One turn of the loop: read, unless it is the first, and search what is there. */
    method Attempt(needle: seq<byte>, first: bool, rest: seq<byte>, outcomes: seq<Outcome>)
      returns (turn: Turn, got: nat, found: bool)
      requires Valid() && |needle| > 0
      modifies this, chbuf
      ensures Valid() && (chbuf == old(chbuf) || fresh(chbuf)) && got <= |rest|
      ensures !turn.Got? ==> Value() == old(Value())
      ensures turn.Got? ==> Value().buf == old(Value()).buf + rest[..got] && (got == 0 <==> first)
      ensures turn.Got? ==> Called(old(Value()), Value(), needle, if found then Success else Blocked)
      ensures turn.Ends? ==> turn.r != Success && turn.r != MoreReads && (turn.r == Full ==> used == maxCapacity)
      ensures first ==> turn.Got?
      ensures !first && outcomes == [] ==> turn.Ends?
    {
      hide MatchAt, Called, Caught;
      turn, got, found := Got, 0, false;
      if !first {
        turn, got := ReadMore(rest, outcomes);
      }
      if turn.Got? {
        found := ScanNew(needle, got);
      }
    }

    /** read_search(). input is what is on its way; n counts the bytes of it that were read, and chunks the reads that
        delivered some. A read() that never returns ends the call with Blocked. */
    method Search(needle: seq<byte>, maxReads: nat, input: seq<byte>, script: seq<Outcome>)
      returns (r: Result, ghost n: nat, ghost chunks: nat)
      requires Valid() && |needle| > 0
      modifies this, chbuf
      ensures Valid() && Called(old(Value()), Value(), needle, r)
      ensures n <= |input| && Value().buf == old(Value()).buf + input[..n]
      ensures chunks <= n <= maxCapacity - old(used) && (maxReads > 0 ==> chunks <= maxReads)
      ensures r == MoreReads ==> maxReads > 0 && chunks == maxReads
      ensures r == Full ==> used == maxCapacity
    {
      hide MatchAt, Called, Caught, HasRead;
      ghost var v := Value();
      ghost var now := v;
      ReadNothing(v, input);
      n, chunks := 0, 0;
      var left, rest, outcomes := maxReads, input, script;
      var first, found := true, false;
      while !found
        invariant Valid() && (chbuf == old(chbuf) || fresh(chbuf))
        invariant now == Value() && HasRead(v, now, input, n, rest)
        invariant if first then now == v && n == 0 && !found
                  else Called(v, now, needle, if found then Success else Blocked)
        invariant chunks <= n
        invariant maxReads > 0 ==> chunks <= maxReads && (!found ==> left > 0 && left + chunks == maxReads)
        decreases |outcomes|, first, !found
      {
        ghost var before := now;
        var turn, got;
        turn, got, found := Attempt(needle, first, rest, outcomes);
        if turn.Ends? {
          HasReadIs(v, now, input, n, rest);
          r := turn.r;
          SameCall(v, now, needle, r);
          return;
        }
        if !first {
          outcomes := outcomes[1..];
        }
        if turn.Again? {
          found := false;
          continue;
        }
        now := Value();
        ReadOn(v, before, now, input, n, rest, got);
        if !first {
          Compose(v, before, now, needle, if found then Success else Blocked);
          chunks := chunks + 1;
        }
        first := false;
        rest := rest[got..];
        n := n + got;
        if maxReads > 0 && !found {
          if got > 0 {
            left := left - 1;
          }
          if left == 0 {
            HasReadIs(v, now, input, n, rest);
            r := MoreReads;
            SameCall(v, now, needle, r);
            return;
          }
        }
      }
      HasReadIs(v, now, input, n, rest);
      r := Success;
    }
  }
}
