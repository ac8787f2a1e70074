/** Counting threads by what they are doing, and collecting what they hold, when one of them moves. */
module Counting {
  function Tally<T>(ts: seq<T>, p: T -> bool): (n: nat)
    ensures n <= |ts|
  {
    if ts == [] then 0 else (if p(ts[0]) then 1 else 0) + Tally(ts[1..], p)
  }

  lemma {:induction false} TallyUpdate<T>(ts: seq<T>, p: T -> bool, i: nat, t: T)
    requires i < |ts|
    ensures Tally(ts[i := t], p) == Tally(ts, p) - (if p(ts[i]) then 1 else 0) + (if p(t) then 1 else 0)
    decreases |ts|
  {
    if i == 0 {
      assert ts[i := t][1..] == ts[1..];
    } else {
      assert ts[i := t][1..] == ts[1..][i - 1 := t];
      TallyUpdate(ts[1..], p, i - 1, t);
    }
  }

  lemma {:induction false} TallyFind<T>(ts: seq<T>, p: T -> bool) returns (i: nat)
    requires Tally(ts, p) > 0
    ensures i < |ts| && p(ts[i])
    decreases |ts|
  {
    if p(ts[0]) {
      i := 0;
    } else {
      i := TallyFind(ts[1..], p);
      i := i + 1;
    }
  }

  lemma {:induction false} TallyMiss<T>(ts: seq<T>, p: T -> bool) returns (i: nat)
    requires Tally(ts, p) < |ts|
    ensures i < |ts| && !p(ts[i])
    decreases |ts|
  {
    if !p(ts[0]) {
      i := 0;
    } else {
      i := TallyMiss(ts[1..], p);
      i := i + 1;
    }
  }

  lemma {:induction false} TallyNone<T>(ts: seq<T>, p: T -> bool)
    requires forall i :: 0 <= i < |ts| ==> !p(ts[i])
    ensures Tally(ts, p) == 0
    decreases |ts|
  {
    if ts != [] {
      TallyNone(ts[1..], p);
    }
  }

  lemma {:induction false} TallyOne<T>(ts: seq<T>, p: T -> bool, i: nat)
    requires i < |ts| && p(ts[i])
    ensures Tally(ts, p) >= 1
    decreases |ts|
  {
    if i > 0 {
      TallyOne(ts[1..], p, i - 1);
    }
  }

  /** Two different threads count twice. */
  lemma TallyTwo<T>(ts: seq<T>, p: T -> bool, i: nat, j: nat)
    requires i < |ts| && j < |ts| && i != j && p(ts[i]) && p(ts[j])
    ensures Tally(ts, p) >= 2
    decreases |ts|
  {
    if i == 0 {
      TallyOne(ts[1..], p, j - 1);
    } else if j == 0 {
      TallyOne(ts[1..], p, i - 1);
    } else {
      TallyTwo(ts[1..], p, i - 1, j - 1);
    }
  }

  /** What all the threads together hold. */
  function Gather<T, B>(ts: seq<T>, f: T -> multiset<B>): multiset<B> {
    if ts == [] then multiset{} else f(ts[0]) + Gather(ts[1..], f)
  }

  lemma Swap<B>(h: multiset<B>, a: multiset<B>, b: multiset<B>)
    ensures (b + h) + a == (a + h) + b
  {
  }

  lemma Regroup<B>(h: multiset<B>, h': multiset<B>, a: multiset<B>, b: multiset<B>, o: multiset<B>)
    requires h' + a == h + b
    ensures (o + h') + a == (o + h) + b
  {
    assert (o + h') + a == o + (h' + a);
    assert (o + h) + b == o + (h + b);
  }

  lemma Cancel<B>(h: multiset<B>, h': multiset<B>, a: multiset<B>)
    requires h' + a == h + a
    ensures h' == h
  {
    assert h' == (h' + a) - a;
    assert h == (h + a) - a;
  }

  lemma {:induction false} GatherUpdate<T, B>(ts: seq<T>, f: T -> multiset<B>, i: nat, t: T)
    requires i < |ts|
    ensures Gather(ts[i := t], f) + f(ts[i]) == Gather(ts, f) + f(t)
    decreases |ts|
  {
    if i == 0 {
      assert ts[i := t][1..] == ts[1..];
      Swap(Gather(ts[1..], f), f(ts[0]), f(t));
    } else {
      assert ts[i := t][1..] == ts[1..][i - 1 := t];
      GatherUpdate(ts[1..], f, i - 1, t);
      Regroup(Gather(ts[1..], f), Gather(ts[1..][i - 1 := t], f), f(ts[i]), f(t), f(ts[0]));
    }
  }

  /** The same for one thing that threads may hold. */
  lemma GatherAt<T, B>(ts: seq<T>, f: T -> multiset<B>, i: nat, t: T, b: B)
    requires i < |ts|
    ensures Gather(ts[i := t], f)[b] + f(ts[i])[b] == Gather(ts, f)[b] + f(t)[b]
  {
    hide Gather;
    GatherUpdate(ts, f, i, t);
    assert (Gather(ts[i := t], f) + f(ts[i]))[b] == (Gather(ts, f) + f(t))[b];
  }

  lemma GatherSame<T, B>(ts: seq<T>, f: T -> multiset<B>, i: nat, t: T)
    requires i < |ts| && f(t) == f(ts[i])
    ensures Gather(ts[i := t], f) == Gather(ts, f)
  {
    hide Gather;
    GatherUpdate(ts, f, i, t);
    Cancel(Gather(ts, f), Gather(ts[i := t], f), f(t));
  }

  lemma {:induction false} GatherHas<T, B>(ts: seq<T>, f: T -> multiset<B>, i: nat)
    requires i < |ts|
    ensures f(ts[i]) <= Gather(ts, f)
    decreases |ts|
  {
    if i > 0 {
      GatherHas(ts[1..], f, i - 1);
    }
  }

  lemma {:induction false} GatherNone<T, B>(ts: seq<T>, f: T -> multiset<B>)
    requires forall i :: 0 <= i < |ts| ==> f(ts[i]) == multiset{}
    ensures Gather(ts, f) == multiset{}
    decreases |ts|
  {
    if ts != [] {
      GatherNone(ts[1..], f);
    }
  }

  lemma {:induction false} GatherAppend<T, B>(ts: seq<T>, f: T -> multiset<B>, t: T)
    ensures Gather(ts + [t], f) == Gather(ts, f) + f(t)
    decreases |ts|
  {
    if ts != [] {
      assert (ts + [t])[1..] == ts[1..] + [t];
      GatherAppend(ts[1..], f, t);
    }
  }
}
