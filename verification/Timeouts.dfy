/** SW_stub/lwtcp/sys.c: the per-thread timeout list, kept as time differences. */
module Timeouts {
  import opened SeqNum

  /** A struct sys_timeout; id stands for the handler and its argument. */
  datatype Entry = Entry(time: u16, id: nat)

  // ----- Specification: a list of deadlines

  datatype Deadline = Deadline(at: nat, id: nat)

  /** The deadlines a delta list stands for, from time now on. */
  function Deadlines(q: seq<Entry>, now: nat): seq<Deadline> {
    if q == [] then [] else [Deadline(now + q[0].time, q[0].id)] + Deadlines(q[1..], now + q[0].time)
  }

  /** Insertion by deadline, behind equal ones. */
  function InsertSorted(ds: seq<Deadline>, d: Deadline): seq<Deadline> {
    if ds == [] || ds[0].at > d.at then [d] + ds else [ds[0]] + InsertSorted(ds[1..], d)
  }

  ghost predicate InOrder(ds: seq<Deadline>) {
    forall i, j :: 0 <= i < j < |ds| ==> ds[i].at <= ds[j].at
  }

  // ----- sys_timeout()

  /** The walk with the remaining time, standing in front of q[0]. */
  function Walk(q: seq<Entry>, time: u16, id: nat): seq<Entry>
    requires q != []
  {
    var left := Wrap16(time - q[0].time);
    if |q| == 1 then [q[0], Entry(left, id)]
    else if q[1].time > left then [q[0], Entry(left, id), Entry(q[1].time - left, q[1].id)] + q[2..]
    else [q[0]] + Walk(q[1..], left, id)
  }

  function Insert(q: seq<Entry>, msecs: u16, id: nat): seq<Entry> {
    if q == [] then [Entry(msecs, id)]
    else if q[0].time > msecs then [Entry(msecs, id), Entry(q[0].time - msecs, q[0].id)] + q[1..]
    else Walk(q, msecs, id)
  }

  /** The head after a wait of elapsed milliseconds that ended with a message. */
  function Charge(q: seq<Entry>, elapsed: u16): seq<Entry>
    requires q != []
  {
    q[0 := Entry(if elapsed <= q[0].time then q[0].time - elapsed else 0, q[0].id)]
  }

  /** One turn of the walk, in the middle of the whole list. */
  lemma WalkStep(q: seq<Entry>, t: nat, time: u16, id: nat)
    requires t < |q|
    ensures var left := Wrap16(time - q[t].time);
            q[..t] + Walk(q[t..], time, id) ==
            if t + 1 == |q| then q + [Entry(left, id)]
            else if q[t + 1].time > left
            then q[..t + 1] + [Entry(left, id), Entry(q[t + 1].time - left, q[t + 1].id)] + q[t + 2..]
            else q[..t + 1] + Walk(q[t + 1..], left, id)
  {
    var left := Wrap16(time - q[t].time);
    assert q[t..][1..] == q[t + 1..];
    if t + 1 < |q| && q[t + 1].time <= left {
      assert q[..t] + ([q[t]] + Walk(q[t + 1..], left, id)) == q[..t + 1] + Walk(q[t + 1..], left, id);
    }
  }

  class TimeoutList {
    var list: seq<Entry>

    /** sys_timeout(); alloc says whether memp_malloc() succeeds. */
    method SysTimeout(msecs: u16, id: nat, alloc: bool)
      modifies this
      ensures list == if alloc then Insert(old(list), msecs, id) else old(list)
    {
      hide Walk;
      if !alloc {
        return;
      }
      if list == [] {
        list := [Entry(msecs, id)];
        return;
      }
      if list[0].time > msecs {
        list := [Entry(msecs, id), Entry(list[0].time - msecs, list[0].id)] + list[1..];
        return;
      }
      var time: u16, t: nat := msecs, 0;
      while true
        invariant list == old(list) && 0 <= t < |list|
        invariant list[..t] + Walk(list[t..], time, id) == Walk(list, msecs, id)
        decreases |list| - t
      {
        WalkStep(list, t, time, id);
        var left := Wrap16(time - list[t].time);
        if t + 1 == |list| || list[t + 1].time > left {
          if t + 1 < |list| {
            list := list[..t + 1] + [Entry(left, id), Entry(list[t + 1].time - left, list[t + 1].id)] + list[t + 2..];
          } else {
            list := list + [Entry(left, id)];
          }
          return;
        }
        time, t := left, t + 1;
      }
    }

    /**
     What sys_mbox_fetch() and sys_sem_wait() do to the list when the underlying wait returns: elapsed is its result,
     0 meaning that the head has timed out and its handler is to be called.
     */
    method AfterWait(elapsed: u16) returns (fired: seq<nat>)
      requires list != []
      modifies this
      ensures elapsed == 0 ==> list == old(list)[1..] && fired == [old(list)[0].id]
      ensures elapsed > 0 ==> list == Charge(old(list), elapsed) && fired == []
    {
      fired := [];
      if elapsed == 0 {
        fired := [list[0].id];
        list := list[1..];
      } else {
        if elapsed <= list[0].time {
          list := list[0 := Entry(list[0].time - elapsed, list[0].id)];
        } else {
          list := list[0 := Entry(0, list[0].id)];
        }
      }
    }
  }

  // ----- Refinement

  lemma DeadlinesCons(e: Entry, q: seq<Entry>, now: nat)
    ensures Deadlines([e] + q, now) == [Deadline(now + e.time, e.id)] + Deadlines(q, now + e.time)
  {
    assert ([e] + q)[1..] == q;
  }

  lemma InsertPast(first: Deadline, ds: seq<Deadline>, d: Deadline)
    requires first.at <= d.at
    ensures InsertSorted([first] + ds, d) == [first] + InsertSorted(ds, d)
  {
    assert ([first] + ds)[1..] == ds;
  }

  /** Behind its first element, the walk goes on, or inserts. */
  lemma WalkCases(q: seq<Entry>, time: u16, id: nat)
    requires q != [] && q[0].time <= time
    ensures var left: u16 := time - q[0].time;
            Walk(q, time, id)
              == [q[0]] + if |q| == 1 || q[1].time > left then Insert(q[1..], left, id) else Walk(q[1..], left, id)
  {
    assert |q| > 1 ==> q[1..][1..] == q[2..];
  }

  lemma {:induction false} WalkIs(q: seq<Entry>, time: u16, id: nat, now: nat)
    requires q != [] && q[0].time <= time
    ensures Deadlines(Walk(q, time, id), now) == InsertSorted(Deadlines(q, now), Deadline(now + time, id))
    decreases |q|
  {
    hide Deadlines, InsertSorted, Walk, Insert;
    var left: u16 := time - q[0].time;
    var rest, now1 := q[1..], now + q[0].time;
    WalkCases(q, time, id);
    assert q == [q[0]] + rest;
    DeadlinesCons(q[0], rest, now);
    InsertPast(Deadline(now1, q[0].id), Deadlines(rest, now1), Deadline(now + time, id));
    if |q| == 1 || q[1].time > left {
      DeadlinesCons(q[0], Insert(rest, left, id), now);
      InsertHere(rest, left, id, now1);
    } else {
      DeadlinesCons(q[0], Walk(rest, left, id), now);
      WalkIs(rest, left, id, now1);
    }
  }

  lemma InsertHere(q: seq<Entry>, msecs: u16, id: nat, now: nat)
    requires q == [] || q[0].time > msecs
    ensures Deadlines(Insert(q, msecs, id), now) == InsertSorted(Deadlines(q, now), Deadline(now + msecs, id))
  {
    var w := Insert(q, msecs, id);
    if q == [] {
      assert w[1..] == [];
    } else {
      assert w[1..][1..] == q[1..];
      assert w[1..] == [Entry(q[0].time - msecs, q[0].id)] + q[1..];
    }
  }

  /** sys_timeout() is stable insertion into the list of absolute deadlines: the new one is due in exactly msecs, and no
      other deadline moves. */
  lemma InsertIs(q: seq<Entry>, msecs: u16, id: nat, now: nat)
    ensures Deadlines(Insert(q, msecs, id), now) == InsertSorted(Deadlines(q, now), Deadline(now + msecs, id))
  {
    if q == [] || q[0].time > msecs {
      InsertHere(q, msecs, id, now);
    } else {
      WalkIs(q, msecs, id, now);
    }
  }

  /** A wait of elapsed milliseconds, ended by a message: no absolute deadline moves if it did not overrun the head, and
      all of them slip by the overrun otherwise. */
  lemma ChargeIs(q: seq<Entry>, elapsed: u16, now: nat)
    requires q != []
    ensures elapsed <= q[0].time <==> Deadlines(Charge(q, elapsed), now + elapsed) == Deadlines(q, now)
    ensures elapsed > q[0].time ==>
              Deadlines(Charge(q, elapsed), now + elapsed) == Deadlines(q, now + (elapsed - q[0].time))
  {
    var c := Charge(q, elapsed);
    assert c[1..] == q[1..];
    assert Deadlines(q, now)[0].at == now + q[0].time;
    assert Deadlines(c, now + elapsed)[0].at == now + elapsed + c[0].time;
  }

  /** The head fires at its deadline and the rest stays due when it was. */
  lemma ExpireIs(q: seq<Entry>, now: nat)
    requires q != []
    ensures var due := now + q[0].time;
            Deadlines(q, now) == [Deadline(due, q[0].id)] + Deadlines(q[1..], due)
  {
  }

  lemma {:induction false} AlwaysInOrder(q: seq<Entry>, now: nat)
    ensures InOrder(Deadlines(q, now)) && forall i :: 0 <= i < |Deadlines(q, now)| ==> Deadlines(q, now)[i].at >= now
    decreases |q|
  {
    if q != [] {
      AlwaysInOrder(q[1..], now + q[0].time);
    }
  }

  /** How many of the leading deadlines are not later than at. */
  function Position(ds: seq<Deadline>, at: nat): (k: nat)
    ensures k <= |ds|
  {
    if ds == [] || ds[0].at > at then 0 else 1 + Position(ds[1..], at)
  }

  /** InsertSorted puts the new deadline behind exactly those that are not later, and changes nothing else. */
  lemma {:induction false} InsertSortedMeans(ds: seq<Deadline>, d: Deadline)
    ensures var k := Position(ds, d.at);
            InsertSorted(ds, d) == ds[..k] + [d] + ds[k..]
    decreases |ds|
  {
    if ds == [] || ds[0].at > d.at {
      assert ds == ds[0..];
    } else {
      InsertSortedMeans(ds[1..], d);
      var rest, k := ds[1..], Position(ds[1..], d.at);
      assert ds[..k + 1] == [ds[0]] + rest[..k] && ds[k + 1..] == rest[k..];
    }
  }

  lemma {:induction false} PositionMeans(ds: seq<Deadline>, at: nat)
    requires InOrder(ds)
    ensures forall i :: 0 <= i < |ds| ==> (ds[i].at <= at <==> i < Position(ds, at))
    decreases |ds|
  {
    if ds != [] && ds[0].at <= at {
      var rest := ds[1..];
      PositionMeans(rest, at);
      assert forall i :: 1 <= i < |ds| ==> ds[i] == rest[i - 1];
    }
  }

  // ----- Whole runs

  /** The clock, the list, the deadlines that were given, oldest request first, and what has fired: each handler with
      the time at which it was called. */
  datatype Clock = Clock(now: nat, list: seq<Entry>, given: seq<Deadline>, fired: seq<Deadline>)

  /** sys_timeout() is called; a wait ends with a message, elapsed milliseconds on; a wait ends as the head is due. */
  datatype Event = Set(msecs: u16, id: nat) | Waited(elapsed: u16) | Expired

  /** No wait ends with a message after the head was due. */
  predicate Exact(c: Clock, ev: Event) {
    match ev
    case Set(_, _) => true
    case Waited(elapsed) => c.list == [] || elapsed <= c.list[0].time
    case Expired => c.list != []
  }

  function Step(c: Clock, ev: Event): Clock
    requires Exact(c, ev)
  {
    match ev
    case Set(msecs, id) => c.(list := Insert(c.list, msecs, id), given := c.given + [Deadline(c.now + msecs, id)])
    case Waited(elapsed) => c.(now := c.now + elapsed, list := if c.list == [] then [] else Charge(c.list, elapsed))
    case Expired =>
      var due := c.now + c.list[0].time;
      c.(now := due, list := c.list[1..], fired := c.fired + [Deadline(due, c.list[0].id)])
  }

  predicate ExactRun(c: Clock, evs: seq<Event>)
    decreases |evs|
  {
    evs == [] || (Exact(c, evs[0]) && ExactRun(Step(c, evs[0]), evs[1..]))
  }

  function Run(c: Clock, evs: seq<Event>): Clock
    requires ExactRun(c, evs)
    decreases |evs|
  {
    if evs == [] then c else Run(Step(c, evs[0]), evs[1..])
  }

  /** All requests in the order of their deadlines, and equal deadlines in the order of the requests. */
  function Sorted(given: seq<Deadline>): seq<Deadline> {
    if given == [] then [] else InsertSorted(Sorted(given[..|given| - 1]), given[|given| - 1])
  }

  ghost predicate OnTime(c: Clock) {
    && c.fired + Deadlines(c.list, c.now) == Sorted(c.given)
    && forall i :: 0 <= i < |c.fired| ==> c.fired[i].at <= c.now
  }

  lemma {:induction false} InsertBehind(past: seq<Deadline>, ds: seq<Deadline>, d: Deadline)
    requires forall i :: 0 <= i < |past| ==> past[i].at <= d.at
    ensures InsertSorted(past + ds, d) == past + InsertSorted(ds, d)
    decreases |past|
  {
    if past == [] {
      assert [] + ds == ds && [] + InsertSorted(ds, d) == InsertSorted(ds, d);
    } else {
      var rest := past[1..];
      assert past + ds == [past[0]] + (rest + ds);
      InsertPast(past[0], rest + ds, d);
      InsertBehind(rest, ds, d);
      assert past + InsertSorted(ds, d) == [past[0]] + (rest + InsertSorted(ds, d));
    }
  }

  lemma SetOnTime(c: Clock, msecs: u16, id: nat)
    requires OnTime(c)
    ensures OnTime(Step(c, Set(msecs, id)))
  {
    hide Insert, InsertSorted, Deadlines;
    var d := Deadline(c.now + msecs, id);
    InsertIs(c.list, msecs, id, c.now);
    InsertBehind(c.fired, Deadlines(c.list, c.now), d);
    var given := c.given + [d];
    assert given[..|given| - 1] == c.given;
  }

  lemma WaitedOnTime(c: Clock, elapsed: u16)
    requires OnTime(c) && Exact(c, Waited(elapsed))
    ensures OnTime(Step(c, Waited(elapsed)))
  {
    hide Sorted, Charge;
    if c.list != [] {
      ChargeIs(c.list, elapsed, c.now);
    }
  }

  lemma ExpiredOnTime(c: Clock)
    requires OnTime(c) && c.list != []
    ensures OnTime(Step(c, Expired))
  {
    hide Sorted, Deadlines;
    ExpireIs(c.list, c.now);
    var due := c.now + c.list[0].time;
    var d := Deadline(due, c.list[0].id);
    assert c.fired + ([d] + Deadlines(c.list[1..], due)) == c.fired + [d] + Deadlines(c.list[1..], due);
  }

  lemma {:induction false} RunOnTime(c: Clock, evs: seq<Event>)
    requires OnTime(c) && ExactRun(c, evs)
    ensures OnTime(Run(c, evs))
    decreases |evs|
  {
    hide OnTime, Step;
    if evs != [] {
      match evs[0] {
        case Set(msecs, id) => SetOnTime(c, msecs, id);
        case Waited(elapsed) => WaitedOnTime(c, elapsed);
        case Expired => ExpiredOnTime(c);
      }
      RunOnTime(Step(c, evs[0]), evs[1..]);
    }
  }

  lemma InsertedHas(ds: seq<Deadline>, d: Deadline)
    ensures multiset(InsertSorted(ds, d)) == multiset(ds) + multiset{d}
  {
    hide InsertSorted, Position;
    InsertSortedMeans(ds, d);
    var k := Position(ds, d.at);
    PositionBound(ds, d.at);
    assert ds == ds[..k] + ds[k..];
  }

  lemma PositionBound(ds: seq<Deadline>, at: nat)
    ensures Position(ds, at) <= |ds|
  {
  }

  lemma InsertedInOrder(ds: seq<Deadline>, d: Deadline)
    requires InOrder(ds)
    ensures InOrder(InsertSorted(ds, d))
  {
    hide InsertSorted, Position;
    InsertSortedMeans(ds, d);
    PositionMeans(ds, d.at);
    PositionBound(ds, d.at);
    var k := Position(ds, d.at);
    SplicedInOrder(ds, k, d);
  }

  lemma SplicedInOrder(ds: seq<Deadline>, k: nat, d: Deadline)
    requires InOrder(ds) && k <= |ds| && forall i :: 0 <= i < |ds| ==> (ds[i].at <= d.at <==> i < k)
    ensures InOrder(ds[..k] + [d] + ds[k..])
  {
    var all := ds[..k] + [d] + ds[k..];
    forall i, j | 0 <= i < j < |all| ensures all[i].at <= all[j].at {
      assert all[i] == if i < k then ds[i] else if i == k then d else ds[i - 1];
      assert all[j] == if j < k then ds[j] else if j == k then d else ds[j - 1];
    }
  }

  lemma {:induction false} SortedIs(given: seq<Deadline>)
    ensures multiset(Sorted(given)) == multiset(given) && InOrder(Sorted(given))
    decreases |given|
  {
    hide InOrder, InsertSorted;
    if given == [] {
      assert InOrder([]) by {
        NothingOrdered();
      }
    } else {
      var init, d := given[..|given| - 1], given[|given| - 1];
      assert given == init + [d];
      SortedIs(init);
      InsertedHas(Sorted(init), d);
      InsertedInOrder(Sorted(init), d);
    }
  }

  lemma NothingOrdered()
    ensures InOrder([])
  {
  }

  /** Over any run of requests, waits that do not overrun and expiries: what has fired, each handler at exactly the
      deadline it was given, followed by what is pending, is the list of all requests in order of deadline, equal ones
      in order of request. So nothing fires early, late, twice or out of turn, and nothing is forgotten. */
  lemma FiresOnTime(start: nat, evs: seq<Event>)
    requires ExactRun(Clock(start, [], [], []), evs)
    ensures var c := Run(Clock(start, [], [], []), evs);
            var all := c.fired + Deadlines(c.list, c.now);
            && all == Sorted(c.given) && InOrder(all) && multiset(all) == multiset(c.given)
            && forall i :: 0 <= i < |c.fired| ==> c.fired[i].at <= c.now
  {
    hide Run, ExactRun, Sorted, Deadlines, InOrder;
    var c0 := Clock(start, [], [], []);
    NothingYet(c0);
    RunOnTime(c0, evs);
    SortedIs(Run(c0, evs).given);
  }

  lemma NothingYet(c: Clock)
    requires c.list == [] && c.given == [] && c.fired == []
    ensures OnTime(c)
  {
  }
}
