/** The clock behind the timeouts: how sys_arch_mbox_fetch(), sys_arch_sem_wait() and cond_wait() of
    SW_stub/lwtcp/sys_arch.c report the time they waited, and what that does to the deadlines of sys.c. */
module ReportedTime {
  import opened SeqNum
  import opened Timeouts

  /** One sys_arch_sem_wait(): the true lengths, in milliseconds, of its waits on the condition; none if the count was
      positive. */
  type SemWait = seq<nat>

  /** A fetch that ends with a message: one sys_arch_sem_wait() for each time the mailbox was found empty. */
  type Fetch = seq<SemWait>

  function Sum(s: seq<nat>): nat {
    if s == [] then 0 else s[0] + Sum(s[1..])
  }

  /** How long a fetch really took. */
  function Lasted(f: Fetch): nat {
    if f == [] then 0 else Sum(f[0]) + Lasted(f[1..])
  }

  /** cond_wait(): whole milliseconds in 16 bits, but 1 for less than one. */
  function CondReport(ms: nat): u16 {
    if ms == 0 then 1 else Wrap16(ms)
  }

  /** sys_arch_sem_wait(): 1 if it did not wait, and otherwise what the last wait reported. */
  function SemReport(w: SemWait): u16 {
    if w == [] then 1 else CondReport(w[|w| - 1])
  }

  /** sys_arch_mbox_fetch(): 1 if a message was there, and otherwise what the last sys_arch_sem_wait() reported. */
  function Report(f: Fetch): u16 {
    if f == [] then 1 else SemReport(f[|f| - 1])
  }

  /** Of all the waits of a fetch only the last one counts, whatever came before it. */
  lemma LastWaitCounts(f: Fetch, w: SemWait, ms: nat)
    ensures Report(f + [w + [ms]]) == if ms == 0 then 1 else ms % TWO16
    ensures Report(f + [[]]) == 1
  {
    var g := f + [w + [ms]];
    assert g[|g| - 1] == w + [ms] && (w + [ms])[|w|] == ms;
    assert (f + [[]])[|f|] == [];
  }

  lemma {:induction false} LastBelowSum(w: SemWait)
    requires w != []
    ensures w[|w| - 1] <= Sum(w)
    decreases |w|
  {
    if |w| > 1 {
      LastBelowSum(w[1..]);
    }
  }

  lemma {:induction false} LastBelowLasted(f: Fetch)
    requires f != []
    ensures Sum(f[|f| - 1]) <= Lasted(f)
    decreases |f|
  {
    if |f| > 1 {
      LastBelowLasted(f[1..]);
    }
  }

  /** A fetch reports a millisecond too much exactly when it took no time at all, and never more than that. */
  lemma ReportIs(f: Fetch)
    ensures Report(f) <= Lasted(f) + 1
    ensures Report(f) > Lasted(f) <==> Lasted(f) == 0
  {
    if f != [] {
      var w := f[|f| - 1];
      LastBelowLasted(f);
      if w != [] {
        LastBelowSum(w);
        Wrap16Below(w[|w| - 1]);
      }
    }
  }

  lemma Wrap16Below(x: nat)
    ensures Wrap16(x) <= x
  {
  }

  // ----- Runs in true time

  /** The reported clock with its list, and the true time, both in milliseconds. */
  datatype Watch = Watch(c: Clock, actual: nat)

  /** sys_timeout(); a fetch that ends with a message; a fetch that times out after lasted milliseconds. */
  datatype Deed = Requested(msecs: u16, id: nat) | Fetched(f: Fetch) | TimedOut(lasted: nat)

  function Told(d: Deed): Event {
    match d
    case Requested(msecs, id) => Set(msecs, id)
    case Fetched(f) => Waited(Report(f))
    case TimedOut(_) => Expired
  }

  function Took(d: Deed): nat {
    match d
    case Requested(_, _) => 0
    case Fetched(f) => Lasted(f)
    case TimedOut(lasted) => lasted
  }

  /** No wait overruns the head of the list, and none times out early. */
  predicate Timely(w: Watch, d: Deed) {
    Exact(w.c, Told(d)) && (d.TimedOut? ==> d.lasted >= w.c.list[0].time)
  }

  function Pass(w: Watch, d: Deed): Watch
    requires Timely(w, d)
  {
    Watch(Step(w.c, Told(d)), w.actual + Took(d))
  }

  predicate TimelyRun(w: Watch, ds: seq<Deed>)
    decreases |ds|
  {
    ds == [] || (Timely(w, ds[0]) && TimelyRun(Pass(w, ds[0]), ds[1..]))
  }

  function PassAll(w: Watch, ds: seq<Deed>): Watch
    requires TimelyRun(w, ds)
    decreases |ds|
  {
    if ds == [] then w else PassAll(Pass(w, ds[0]), ds[1..])
  }

  /** How many fetches took no time. */
  function Idle(ds: seq<Deed>): nat {
    if ds == [] then 0
    else (if ds[0].Fetched? && Lasted(ds[0].f) == 0 then 1 else 0) + Idle(ds[1..])
  }

  lemma {:induction false} ClockAhead(w: Watch, ds: seq<Deed>)
    requires TimelyRun(w, ds)
    ensures var w' := PassAll(w, ds);
            w'.c.now - w.c.now <= w'.actual - w.actual + Idle(ds)
    decreases |ds|
  {
    hide Report, Lasted, Insert, Charge;
    if ds != [] {
      if ds[0].Fetched? {
        ReportIs(ds[0].f);
      }
      ClockAhead(Pass(w, ds[0]), ds[1..]);
    }
  }

  /** The events of the run, as the reported clock sees them, are a run of that clock. */
  lemma {:induction false} SameRun(w: Watch, ds: seq<Deed>) returns (evs: seq<Event>)
    requires TimelyRun(w, ds)
    ensures ExactRun(w.c, evs) && PassAll(w, ds).c == Run(w.c, evs)
    decreases |ds|
  {
    hide Step, Exact, Told;
    if ds == [] {
      evs := [];
    } else {
      var rest := SameRun(Pass(w, ds[0]), ds[1..]);
      evs := [Told(ds[0])] + rest;
      assert evs[1..] == rest;
    }
  }

  /** A handler asked for msecs from now is called, in true time, at most a millisecond early for each fetch in between
      that took no time; w' is the state when it has just been called, at the deadline it was given. */
  lemma EarlyBy(w: Watch, msecs: u16, id: nat, ds: seq<Deed>, lasted: nat)
    requires TimelyRun(w, [Requested(msecs, id)] + ds + [TimedOut(lasted)])
    ensures var w' := PassAll(w, [Requested(msecs, id)] + ds + [TimedOut(lasted)]);
            w'.c.now == w.c.now + msecs ==> w'.actual - w.actual >= msecs - Idle(ds)
  {
    var all := [Requested(msecs, id)] + ds + [TimedOut(lasted)];
    ClockAhead(w, all);
    IdleEnds(Requested(msecs, id), ds, TimedOut(lasted));
  }

  lemma IdleEnds(a: Deed, ds: seq<Deed>, b: Deed)
    requires !a.Fetched? && !b.Fetched?
    ensures Idle([a] + ds + [b]) == Idle(ds)
  {
    assert ([a] + ds + [b])[1..] == ds + [b];
    IdleLast(ds, b);
  }

  lemma {:induction false} IdleLast(ds: seq<Deed>, b: Deed)
    requires !b.Fetched?
    ensures Idle(ds + [b]) == Idle(ds)
    decreases |ds|
  {
    if ds == [] {
      assert ds + [b] == [b] && [b][1..] == [];
    } else {
      assert (ds + [b])[1..] == ds[1..] + [b];
      IdleLast(ds[1..], b);
    }
  }

  const MIDNIGHT := Watch(Clock(0, [], [], []), 0)

  /** Whatever the fetches report, handlers are called in the order of the deadlines on the reported clock. */
  lemma OrderStays(ds: seq<Deed>)
    requires TimelyRun(MIDNIGHT, ds)
    ensures var c := PassAll(MIDNIGHT, ds).c;
            var all := c.fired + Deadlines(c.list, c.now);
            all == Sorted(c.given) && InOrder(all)
  {
    hide PassAll, TimelyRun, Run, ExactRun, Sorted, InOrder, Deadlines;
    var evs := SameRun(MIDNIGHT, ds);
    FiresOnTime(0, evs);
  }

  function Fetches(n: nat): seq<Deed> {
    if n == 0 then [] else [Fetched([])] + Fetches(n - 1)
  }

  /** With n messages waiting in the mailbox, a timeout of n milliseconds runs out at once. */
  lemma QueuedMessagesHurry(n: u16)
    ensures var ds := [Requested(n, 0)] + Fetches(n) + [TimedOut(0)];
            && TimelyRun(MIDNIGHT, ds)
            && PassAll(MIDNIGHT, ds).actual == 0
            && PassAll(MIDNIGHT, ds).c.fired == [Deadline(n, 0)]
  {
    var ds := [Requested(n, 0)] + Fetches(n) + [TimedOut(0)];
    assert ds[1..] == Fetches(n) + [TimedOut(0)];
    Asked(n);
    Hurried(Pass(MIDNIGHT, ds[0]), n);
  }

  lemma {:induction false} Hurried(w: Watch, n: nat)
    requires n < TWO16 && |w.c.list| == 1 && w.c.list[0] == Entry(n, 0) && w.c.fired == []
    ensures var ds := Fetches(n) + [TimedOut(0)];
            && TimelyRun(w, ds)
            && PassAll(w, ds).actual == w.actual && PassAll(w, ds).c.fired == [Deadline(w.c.now + n, 0)]
    decreases n
  {
    var ds := Fetches(n) + [TimedOut(0)];
    if n == 0 {
      assert ds == [TimedOut(0)] && ds[1..] == [];
    } else {
      assert ds[0] == Fetched([]) && ds[1..] == Fetches(n - 1) + [TimedOut(0)];
      Hurried(Pass(w, ds[0]), n - 1);
    }
  }

  /** n waits of a millisecond each, because others take the messages. */
  function Waits(n: nat): Fetch {
    if n == 0 then [] else Waits(n - 1) + [[1]]
  }

  lemma {:induction false} WaitsAre(n: nat)
    ensures Lasted(Waits(n)) == n && (n > 0 ==> Report(Waits(n)) == 1)
    decreases n
  {
    if n > 0 {
      WaitsAre(n - 1);
      LastedSnoc(Waits(n - 1), [1]);
      assert [1][1..] == [];
    }
  }

  lemma {:induction false} LastedSnoc(f: Fetch, w: SemWait)
    ensures Lasted(f + [w]) == Lasted(f) + Sum(w)
    decreases |f|
  {
    if f == [] {
      assert f + [w] == [w] && [w][1..] == [];
    } else {
      assert (f + [w])[1..] == f[1..] + [w];
      LastedSnoc(f[1..], w);
    }
  }

  lemma Unroll(w: Watch, d: Deed, rest: seq<Deed>)
    requires Timely(w, d)
    ensures TimelyRun(w, [d] + rest) <==> TimelyRun(Pass(w, d), rest)
    ensures TimelyRun(w, [d] + rest) ==> PassAll(w, [d] + rest) == PassAll(Pass(w, d), rest)
  {
    hide Timely, Pass;
    assert ([d] + rest)[1..] == rest;
  }

  const DUE := Deadline(2, 0)

  lemma Asked(msecs: u16)
    ensures Timely(MIDNIGHT, Requested(msecs, 0))
    ensures Pass(MIDNIGHT, Requested(msecs, 0))
            == Watch(Clock(0, [Entry(msecs, 0)], [Deadline(msecs, 0)], []), 0)
  {
    assert [] + [Deadline(msecs, 0)] == [Deadline(msecs, 0)];
  }

  lemma WaitedOne(f: Fetch)
    requires Report(f) == 1
    ensures var w := Watch(Clock(0, [Entry(2, 0)], [DUE], []), 0);
            && Timely(w, Fetched(f))
            && Pass(w, Fetched(f)) == Watch(Clock(1, [Entry(1, 0)], [DUE], []), Lasted(f))
  {
    hide Report, Lasted;
  }

  lemma RanOut(n: nat)
    ensures var w := Watch(Clock(1, [Entry(1, 0)], [DUE], []), n);
            && Timely(w, TimedOut(1))
            && Pass(w, TimedOut(1)) == Watch(Clock(2, [], [DUE], [DUE]), n + 1)
  {
    assert [] + [DUE] == [DUE];
  }

  /** A fetch that waits n times reports only the last wait: a timeout of 2 milliseconds runs out after n + 1. */
  lemma RepeatedWaitsDelay(n: nat)
    requires n > 0
    ensures var ds := [Requested(2, 0)] + ([Fetched(Waits(n))] + ([TimedOut(1)] + []));
            && TimelyRun(MIDNIGHT, ds)
            && PassAll(MIDNIGHT, ds).actual == n + 1 && PassAll(MIDNIGHT, ds).c.fired == [DUE]
  {
    hide Waits, Lasted, Report, PassAll, TimelyRun, Pass, Timely;
    WaitsAre(n);
    Asked(2);
    WaitedOne(Waits(n));
    RanOut(n);
    var w1, w2 := Pass(MIDNIGHT, Requested(2, 0)), Watch(Clock(1, [Entry(1, 0)], [DUE], []), n);
    Unroll(MIDNIGHT, Requested(2, 0), [Fetched(Waits(n))] + ([TimedOut(1)] + []));
    Unroll(w1, Fetched(Waits(n)), [TimedOut(1)] + []);
    Unroll(w2, TimedOut(1), []);
    Nothing(Pass(w2, TimedOut(1)));
  }

  lemma Nothing(w: Watch)
    ensures TimelyRun(w, []) && PassAll(w, []) == w
  {
  }
}
