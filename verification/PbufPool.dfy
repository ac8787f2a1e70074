/** The pool of pbufs in SW_stub/lwtcp/pbuf.c, shared without a common lock by one thread that allocates and any number
    that free: two flags keep them apart, and two caches let neither side wait. */
module PbufPool {
  import opened Counting

  type Id = nat

  datatype Got = Nothing | Pbuf(id: Id)

  /** The allocating thread inside pbuf_alloc(); between calls of pbuf_pool_alloc() it is Asking. */
  datatype Allocator =
    | Resting
    | Asking
    | Tested               // saw no free_lock
    | Locked               // has raised alloc_lock
    | Critical             // saw no free_lock again, and may change pbuf_pool
    | Unlocking(got: Got)

  /** A freeing thread: PBUF_POOL_FREE for every pbuf of a chain, then pbuf_refresh(). */
  datatype Freer =
    | Idle
    | Freeing(rest: seq<Id>)   // outside the semaphore
    | Pushing(rest: seq<Id>)   // holds the semaphore
    | Pushed(rest: seq<Id>)    // holds the semaphore; one more is in the free cache
    | Refreshing               // holds the semaphore, about to test the free cache
    | Wanting                  // found it not empty
    | Raised                   // has raised free_lock
    | Moving                   // saw no alloc_lock, and may change pbuf_pool
    | Lowering
    | Leaving

  /** building is the chain pbuf_alloc() has so far, and want the number of pbufs still missing. */
  datatype State = State(pool: seq<Id>, allocCache: seq<Id>, freeCache: seq<Id>, allocLock: nat, freeLock: nat,
                         sem: nat, allocator: Allocator, building: seq<Id>, want: nat, freers: seq<Freer>,
                         live: seq<seq<Id>>)

  datatype Action =
    | Begin(n: nat) | FromCache | TestFree | Raise | Retest | Take | Lower
    | Free(i: nat, c: nat, keep: nat)   // pbuf_free() of chain c, or pbuf_realloc() to its first pbufs
    | Wait(i: nat) | Push(i: nat) | Post(i: nat) | Look(i: nat) | RaiseFree(i: nat) | TestAlloc(i: nat) | Move(i: nat)
    | LowerFree(i: nat) | Leave(i: nat)

  predicate At(s: State, i: nat, f: Freer) {
    i < |s.freers| && s.freers[i] == f
  }

  predicate Enabled(s: State, a: Action) {
    match a
    case Begin(n) => s.allocator == Resting && n > 0
    case FromCache => s.allocator == Asking && s.allocCache != [] && s.want > 0
    case TestFree => s.allocator == Asking && s.allocCache == []
    case Raise => s.allocator == Tested
    case Retest => s.allocator == Locked
    case Take => s.allocator == Critical
    case Lower => s.allocator.Unlocking? && s.want > 0 && s.allocLock > 0
    case Free(i, c, keep) => At(s, i, Idle) && c < |s.live| && keep < |s.live[c]|
    case Wait(i) => i < |s.freers| && s.freers[i].Freeing? && s.sem > 0
    case Push(i) => i < |s.freers| && s.freers[i].Pushing? && s.freers[i].rest != []
    case Post(i) => i < |s.freers| && s.freers[i].Pushed?
    case Look(i) => At(s, i, Refreshing)
    case RaiseFree(i) => At(s, i, Wanting)
    case TestAlloc(i) => At(s, i, Raised)
    case Move(i) => At(s, i, Moving)
    case LowerFree(i) => At(s, i, Lowering) && s.freeLock > 0
    case Leave(i) => At(s, i, Leaving)
  }

  /** pbuf_alloc() receives what pbuf_pool_alloc() returned: with nothing it gives the unfinished chain to the alloc
      cache, and with the last pbuf the chain is complete. */
  function Receive(s: State, got: Got): State
    requires got.Pbuf? ==> s.want > 0
  {
    if got == Nothing then s.(allocator := Resting, allocCache := s.allocCache + s.building, building := [], want := 0)
    else if s.want == 1 then
      s.(allocator := Resting, live := s.live + [s.building + [got.id]], building := [], want := 0)
    else s.(allocator := Asking, building := s.building + [got.id], want := s.want - 1)
  }

  function SetFreer(s: State, i: nat, f: Freer): State
    requires i < |s.freers|
  {
    s.(freers := s.freers[i := f])
  }

  function Next(s: State, a: Action): State
    requires Enabled(s, a)
  {
    match a
    case Begin(n) => s.(allocator := Asking, want := n)
    case FromCache => Receive(s.(allocCache := s.allocCache[1..]), Pbuf(s.allocCache[0]))
    case TestFree => if s.freeLock > 0 then Receive(s, Nothing) else s.(allocator := Tested)
    case Raise => s.(allocator := Locked, allocLock := s.allocLock + 1)
    case Retest => s.(allocator := if s.freeLock == 0 then Critical else Unlocking(Nothing))
    case Take =>
      if s.pool == [] then s.(allocator := Unlocking(Nothing))
      else s.(pool := s.pool[1..], allocator := Unlocking(Pbuf(s.pool[0])))
    case Lower => Receive(s.(allocLock := s.allocLock - 1), s.allocator.got)
    case Free(i, c, keep) =>
      SetFreer(s.(live := s.live[c := s.live[c][..keep]]), i, Freeing(s.live[c][keep..]))
    case Wait(i) =>
      SetFreer(s.(sem := s.sem - 1), i, if s.freers[i].rest == [] then Refreshing else Pushing(s.freers[i].rest))
    case Push(i) =>
      SetFreer(s.(freeCache := [s.freers[i].rest[0]] + s.freeCache), i, Pushed(s.freers[i].rest[1..]))
    case Post(i) => SetFreer(s.(sem := 1), i, Freeing(s.freers[i].rest))
    case Look(i) => SetFreer(s, i, if s.freeCache == [] then Leaving else Wanting)
    case RaiseFree(i) => SetFreer(s.(freeLock := s.freeLock + 1), i, Raised)
    case TestAlloc(i) => SetFreer(s, i, if s.allocLock == 0 then Moving else Lowering)
    case Move(i) => SetFreer(s.(pool := s.pool + s.freeCache, freeCache := []), i, Lowering)
    case LowerFree(i) => SetFreer(s.(freeLock := s.freeLock - 1), i, Leaving)
    case Leave(i) => SetFreer(s.(sem := 1), i, Idle)
  }

  // ----- Mutual exclusion

  predicate Inside(f: Freer) {
    !f.Idle? && !f.Freeing?
  }

  predicate RaisedLock(f: Freer) {
    f == Raised || f == Moving || f == Lowering
  }

  ghost predicate Locks(s: State) {
    && s.sem + Tally(s.freers, Inside) == 1
    && s.freeLock == Tally(s.freers, RaisedLock)
    && s.allocLock == (if s.allocator == Locked || s.allocator == Critical || s.allocator.Unlocking? then 1 else 0)
    && (s.want > 0 || s.allocator == Resting) && (s.allocator == Resting ==> s.building == [])
    && (forall i :: 0 <= i < |s.freers| && s.freers[i].Pushing? ==> s.freers[i].rest != [])
  }

  /** The allocating thread and a refreshing thread never change pbuf_pool at the same time. */
  ghost predicate Apart(s: State) {
    s.allocator == Critical ==> forall i :: 0 <= i < |s.freers| ==> s.freers[i] != Moving
  }

  predicate ByFreer(a: Action) {
    || a.Free? || a.Wait? || a.Push? || a.Post? || a.Look? || a.RaiseFree? || a.TestAlloc? || a.Move? || a.LowerFree?
    || a.Leave?
  }

  /** A step of freeing thread i changes its own place, the semaphore, which is 0 while somebody is inside, and the
      flag, which counts those who have raised it. */
  ghost predicate FreerMoves(s: State, s': State, i: nat) {
    && i < |s.freers| && i < |s'.freers|
    && var f, f' := s.freers[i], s'.freers[i];
    && s'.freers == s.freers[i := f'] && s'.allocator == s.allocator && s'.allocLock == s.allocLock
    && s'.want == s.want && s'.building == s.building && (f'.Pushing? ==> f'.rest != [])
    && s'.freeLock == s.freeLock - (if RaisedLock(f) then 1 else 0) + (if RaisedLock(f') then 1 else 0)
    && (if Inside(f) == Inside(f') then s'.sem == s.sem
        else if Inside(f') then s.sem > 0 && s'.sem == s.sem - 1 else s'.sem == 1)
  }

  lemma FreerGives(s: State, a: Action)
    requires Enabled(s, a) && Locks(s) && (a.Free? || a.Wait? || a.Push? || a.Post?)
    ensures FreerMoves(s, Next(s, a), a.i)
  {
    hide Tally, Locks;
  }

  lemma FreerRefreshes(s: State, a: Action)
    requires Enabled(s, a) && Locks(s) && ByFreer(a) && !(a.Free? || a.Wait? || a.Push? || a.Post?)
    ensures FreerMoves(s, Next(s, a), a.i)
  {
    hide Tally, Locks;
  }

  lemma LocksFreer(s: State, a: Action)
    requires Enabled(s, a) && Locks(s) && ByFreer(a)
    ensures Locks(Next(s, a))
  {
    hide Locks, Next, Enabled, FreerMoves;
    if a.Free? || a.Wait? || a.Push? || a.Post? {
      FreerGives(s, a);
    } else {
      FreerRefreshes(s, a);
    }
    LocksMoved(s, Next(s, a), a.i);
  }

  lemma LocksMoved(s: State, s': State, i: nat)
    requires Locks(s) && FreerMoves(s, s', i)
    ensures Locks(s')
  {
    hide Tally, Inside, RaisedLock;
    var f, f' := s.freers[i], s'.freers[i];
    TallyUpdate(s.freers, Inside, i, f');
    TallyUpdate(s.freers, RaisedLock, i, f');
    if Inside(f) {
      TallyOne(s.freers, Inside, i);
    }
  }

  lemma LocksAllocator(s: State, a: Action)
    requires Enabled(s, a) && Locks(s) && !ByFreer(a)
    ensures Locks(Next(s, a))
  {
    hide Tally;
  }

  lemma LocksStep(s: State, a: Action)
    requires Enabled(s, a) && Locks(s)
    ensures Locks(Next(s, a))
  {
    hide Locks, Enabled, Next;
    if ByFreer(a) {
      LocksFreer(s, a);
    } else {
      LocksAllocator(s, a);
    }
  }

  lemma ApartStep(s: State, a: Action)
    requires Enabled(s, a) && Locks(s) && Apart(s)
    ensures Apart(Next(s, a))
  {
    hide Tally;
    if a.Retest? && s.freeLock == 0 {
      forall i | 0 <= i < |s.freers| ensures s.freers[i] != Moving {
        if s.freers[i] == Moving {
          TallyOne(s.freers, RaisedLock, i);
        }
      }
    }
  }

  // ----- Conservation

  function Of(f: Freer): multiset<Id> {
    if f.Freeing? || f.Pushing? || f.Pushed? then multiset(f.rest) else multiset{}
  }

  function ChainOf(c: seq<Id>): multiset<Id> {
    multiset(c)
  }

  function GotAt(a: Allocator, id: Id): nat {
    if a.Unlocking? && a.got == Pbuf(id) then 1 else 0
  }

  /** In how many places a pbuf is: the pool, the two caches, the chain under construction, the hands of a thread, or a
      live chain. */
  function Places(s: State, id: Id): nat {
    multiset(s.pool)[id] + multiset(s.allocCache)[id] + multiset(s.freeCache)[id] + multiset(s.building)[id]
      + GotAt(s.allocator, id) + Gather(s.freers, Of)[id] + Gather(s.live, ChainOf)[id]
  }

  lemma Split(q: seq<Id>, k: nat, id: Id)
    requires k <= |q|
    ensures multiset(q)[id] == multiset(q[..k])[id] + multiset(q[k..])[id]
  {
    assert q == q[..k] + q[k..];
  }

  lemma Head(q: seq<Id>, id: Id)
    requires q != []
    ensures multiset(q)[id] == (if q[0] == id then 1 else 0) + multiset(q[1..])[id]
  {
    assert q == [q[0]] + q[1..];
  }

  lemma Joined(p: seq<Id>, q: seq<Id>, id: Id)
    ensures multiset(p + q)[id] == multiset(p)[id] + multiset(q)[id]
  {
  }

  lemma ReceivePlaces(s: State, got: Got, id: Id)
    requires got.Pbuf? ==> s.want > 0
    ensures Places(Receive(s, got), id)
              == Places(s, id) + (if got == Pbuf(id) then 1 else 0) - GotAt(s.allocator, id)
  {
    hide Gather;
    if got == Nothing {
      Joined(s.allocCache, s.building, id);
    } else {
      Joined(s.building, [got.id], id);
      Head([got.id], id);
      GatherAppend(s.live, ChainOf, s.building + [got.id]);
    }
  }

  lemma FromCachePlaces(s: State, id: Id)
    requires Enabled(s, FromCache)
    ensures Places(Next(s, FromCache), id) == Places(s, id)
  {
    hide Gather, Receive;
    Head(s.allocCache, id);
    ReceivePlaces(s.(allocCache := s.allocCache[1..]), Pbuf(s.allocCache[0]), id);
  }

  lemma TakePlaces(s: State, id: Id)
    requires Enabled(s, Take)
    ensures Places(Next(s, Take), id) == Places(s, id)
  {
    hide Gather;
    if s.pool != [] {
      Head(s.pool, id);
    }
  }

  lemma LowerPlaces(s: State, id: Id)
    requires Enabled(s, Lower)
    ensures Places(Next(s, Lower), id) == Places(s, id)
  {
    hide Gather, Receive;
    ReceivePlaces(s.(allocLock := s.allocLock - 1), s.allocator.got, id);
  }

  lemma AllocatorPlaces(s: State, a: Action, id: Id)
    requires Enabled(s, a) && !ByFreer(a)
    ensures Places(Next(s, a), id) == Places(s, id)
  {
    hide Gather, Receive;
    match a
    case FromCache => FromCachePlaces(s, id);
    case Take => TakePlaces(s, id);
    case Lower => LowerPlaces(s, id);
    case TestFree => ReceivePlaces(s, Nothing, id);
    case _ =>
  }

  lemma FreePlaces(s: State, a: Action, id: Id)
    requires Enabled(s, a) && a.Free?
    ensures Places(Next(s, a), id) == Places(s, id)
  {
    hide Gather;
    GatherAt(s.freers, Of, a.i, Next(s, a).freers[a.i], id);
    GatherAt(s.live, ChainOf, a.c, s.live[a.c][..a.keep], id);
    Split(s.live[a.c], a.keep, id);
  }

  lemma PushPlaces(s: State, a: Action, id: Id)
    requires Enabled(s, a) && a.Push?
    ensures Places(Next(s, a), id) == Places(s, id)
  {
    hide Gather;
    var rest := s.freers[a.i].rest;
    GatherAt(s.freers, Of, a.i, Pushed(rest[1..]), id);
    Head(rest, id);
    Joined([rest[0]], s.freeCache, id);
    Head([rest[0]], id);
  }

  lemma MovePlaces(s: State, a: Action, id: Id)
    requires Enabled(s, a) && a.Move?
    ensures Places(Next(s, a), id) == Places(s, id)
  {
    hide Gather, Next, Enabled;
    MoveIs(s, a.i);
    GatherAt(s.freers, Of, a.i, Lowering, id);
    Joined(s.pool, s.freeCache, id);
  }

  lemma MoveIs(s: State, i: nat)
    requires Enabled(s, Move(i))
    ensures i < |s.freers| && s.freers[i] == Moving
    ensures Next(s, Move(i))
            == s.(pool := s.pool + s.freeCache, freeCache := [], freers := s.freers[i := Lowering])
  {
  }

  lemma FreerHolds(s: State, a: Action)
    requires Enabled(s, a) && ByFreer(a) && !a.Free? && !a.Push? && !a.Move?
    ensures var s' := Next(s, a);
            && s' == s.(freers := s.freers[a.i := s'.freers[a.i]], sem := s'.sem, freeLock := s'.freeLock)
            && Of(s'.freers[a.i]) == Of(s.freers[a.i])
  {
  }

  lemma FreerPlaces(s: State, a: Action, id: Id)
    requires Enabled(s, a) && ByFreer(a) && !a.Free? && !a.Push? && !a.Move?
    ensures Places(Next(s, a), id) == Places(s, id)
  {
    hide Gather, Of, Next;
    FreerHolds(s, a);
    GatherAt(s.freers, Of, a.i, Next(s, a).freers[a.i], id);
  }

  lemma PlacesStep(s: State, a: Action, id: Id)
    requires Enabled(s, a)
    ensures Places(Next(s, a), id) == Places(s, id)
  {
    hide Places, Next;
    if a.Free? {
      FreePlaces(s, a, id);
    } else if a.Push? {
      PushPlaces(s, a, id);
    } else if a.Move? {
      MovePlaces(s, a, id);
    } else if ByFreer(a) {
      FreerPlaces(s, a, id);
    } else {
      AllocatorPlaces(s, a, id);
    }
  }

  // ----- Runs

  /** pbuf_init() with the given pbufs, and m threads that may free. */
  function Initial(pool: seq<Id>, m: nat): State {
    State(pool, [], [], 0, 0, 1, Resting, [], 0, seq(m, _ => Idle), [])
  }

  lemma InitialOk(pool: seq<Id>, m: nat, id: Id)
    ensures Locks(Initial(pool, m)) && Apart(Initial(pool, m)) && Places(Initial(pool, m), id) == multiset(pool)[id]
  {
    hide Tally, Gather;
    var s := Initial(pool, m);
    TallyNone(s.freers, Inside);
    TallyNone(s.freers, RaisedLock);
    GatherNone(s.freers, Of);
    GatherNone(s.live, ChainOf);
  }

  ghost predicate Possible(s: State, acts: seq<Action>)
    decreases |acts|
  {
    acts != [] ==> Enabled(s, acts[0]) && Possible(Next(s, acts[0]), acts[1..])
  }

  ghost function Run(s: State, acts: seq<Action>): State
    requires Possible(s, acts)
    decreases |acts|
  {
    if acts == [] then s else Run(Next(s, acts[0]), acts[1..])
  }

  lemma {:induction false} RunKeeps(s: State, acts: seq<Action>, id: Id)
    requires Locks(s) && Apart(s) && Possible(s, acts)
    ensures Locks(Run(s, acts)) && Apart(Run(s, acts)) && Places(Run(s, acts), id) == Places(s, id)
    decreases |acts|
  {
    hide Locks, Apart, Places, Next, Enabled;
    if acts != [] {
      LocksStep(s, acts[0]);
      ApartStep(s, acts[0]);
      PlacesStep(s, acts[0], id);
      RunKeeps(Next(s, acts[0]), acts[1..], id);
    }
  }

  /** In every interleaving, allocations that fail halfway included: every pbuf of the pool is in exactly one place,
      none leaks and none is handed out twice; and pbuf_pool is never changed by two threads at once. */
  lemma PoolSafe(pool: seq<Id>, m: nat, acts: seq<Action>, id: Id)
    requires Possible(Initial(pool, m), acts) && forall i, j :: 0 <= i < j < |pool| ==> pool[i] != pool[j]
    ensures Places(Run(Initial(pool, m), acts), id) == if id in pool then 1 else 0
    ensures Apart(Run(Initial(pool, m), acts))
  {
    hide Run, Places;
    InitialOk(pool, m, id);
    RunKeeps(Initial(pool, m), acts, id);
    OnceEach(pool, id);
  }

  lemma {:induction false} OnceEach(q: seq<Id>, id: Id)
    requires forall i, j :: 0 <= i < j < |q| ==> q[i] != q[j]
    ensures multiset(q)[id] == if id in q then 1 else 0
    decreases |q|
  {
    if q != [] {
      assert q == [q[0]] + q[1..];
      OnceEach(q[1..], id);
    }
  }

  /** So two live chains share no pbuf. */
  lemma LiveApart(s: State, c: nat, d: nat, id: Id)
    requires Places(s, id) <= 1 && c < |s.live| && d < |s.live| && c != d
    ensures multiset(s.live[c])[id] + multiset(s.live[d])[id] <= 1
  {
    hide Gather;
    GatherAt(s.live, ChainOf, c, [], id);
    GatherHas(s.live[c := []], ChainOf, d);
  }

  // ----- What happens when nobody interferes

  lemma Follow(s: State, a: Action, acts: seq<Action>)
    requires Enabled(s, a) && Possible(Next(s, a), acts)
    ensures Possible(s, [a] + acts) && Run(s, [a] + acts) == Run(Next(s, a), acts)
  {
    assert ([a] + acts)[1..] == acts;
  }

  /** The states between. */
  lemma QuietSteps(s: State) returns (s5: State)
    requires s.allocator == Asking && s.allocCache == [] && s.freeLock == 0 && s.want > 0
    ensures s5 == if s.pool == [] then Receive(s, Nothing) else Receive(s.(pool := s.pool[1..]), Pbuf(s.pool[0]))
    ensures Enabled(s, TestFree)
    ensures var s1 := Next(s, TestFree);
            Enabled(s1, Raise) &&
            var s2 := Next(s1, Raise);
            Enabled(s2, Retest) &&
            var s3 := Next(s2, Retest);
            Enabled(s3, Take) &&
            var s4 := Next(s3, Take);
            Enabled(s4, Lower) && Next(s4, Lower) == s5
  {
    s5 := if s.pool == [] then Receive(s, Nothing) else Receive(s.(pool := s.pool[1..]), Pbuf(s.pool[0]));
  }

  /** With an empty cache and no refreshing thread, pbuf_pool_alloc() returns the first pbuf of the pool, or nothing
      when there is none, and leaves the flag as it was. */
  lemma QuietAlloc(s: State)
    requires s.allocator == Asking && s.allocCache == [] && s.freeLock == 0 && s.want > 0
    ensures Possible(s, [TestFree, Raise, Retest, Take, Lower])
    ensures Run(s, [TestFree, Raise, Retest, Take, Lower])
              == if s.pool == [] then Receive(s, Nothing) else Receive(s.(pool := s.pool[1..]), Pbuf(s.pool[0]))
  {
    hide Possible, Run, Next, Enabled, Receive;
    var s5 := QuietSteps(s);
    var s1 := Next(s, TestFree);
    var s2 := Next(s1, Raise);
    var s3 := Next(s2, Retest);
    var s4 := Next(s3, Take);
    NoActions(s5);
    Follow(s4, Lower, []);
    assert [Lower] + [] == [Lower];
    Follow(s3, Take, [Lower]);
    assert [Take] + [Lower] == [Take, Lower];
    Follow(s2, Retest, [Take, Lower]);
    assert [Retest] + [Take, Lower] == [Retest, Take, Lower];
    Follow(s1, Raise, [Retest, Take, Lower]);
    assert [Raise] + [Retest, Take, Lower] == [Raise, Retest, Take, Lower];
    Follow(s, TestFree, [Raise, Retest, Take, Lower]);
    assert [TestFree] + [Raise, Retest, Take, Lower] == [TestFree, Raise, Retest, Take, Lower];
  }

  lemma RefreshSteps(s: State, i: nat) returns (s5: State)
    requires At(s, i, Refreshing) && s.freeCache != [] && s.allocLock == 0
    ensures s5 == SetFreer(s.(pool := s.pool + s.freeCache, freeCache := []), i, Leaving)
    ensures Enabled(s, Look(i))
    ensures var s1 := Next(s, Look(i));
            Enabled(s1, RaiseFree(i)) &&
            var s2 := Next(s1, RaiseFree(i));
            Enabled(s2, TestAlloc(i)) &&
            var s3 := Next(s2, TestAlloc(i));
            Enabled(s3, Move(i)) &&
            var s4 := Next(s3, Move(i));
            Enabled(s4, LowerFree(i)) && Next(s4, LowerFree(i)) == s5
  {
    s5 := SetFreer(s.(pool := s.pool + s.freeCache, freeCache := []), i, Leaving);
    assert s5.freers == s.freers[i := Wanting][i := Raised][i := Moving][i := Lowering][i := Leaving];
  }

  /** With no allocation under way, pbuf_refresh() gives the whole free cache back to the pool. */
  lemma QuietRefresh(s: State, i: nat)
    requires At(s, i, Refreshing) && s.freeCache != [] && s.allocLock == 0
    ensures Possible(s, [Look(i), RaiseFree(i), TestAlloc(i), Move(i), LowerFree(i)])
    ensures Run(s, [Look(i), RaiseFree(i), TestAlloc(i), Move(i), LowerFree(i)])
              == SetFreer(s.(pool := s.pool + s.freeCache, freeCache := []), i, Leaving)
  {
    hide Possible, Run, Next, Enabled;
    var s5 := RefreshSteps(s, i);
    var s1 := Next(s, Look(i));
    var s2 := Next(s1, RaiseFree(i));
    var s3 := Next(s2, TestAlloc(i));
    var s4 := Next(s3, Move(i));
    NoActions(s5);
    Follow(s4, LowerFree(i), []);
    assert [LowerFree(i)] + [] == [LowerFree(i)];
    Follow(s3, Move(i), [LowerFree(i)]);
    assert [Move(i)] + [LowerFree(i)] == [Move(i), LowerFree(i)];
    Follow(s2, TestAlloc(i), [Move(i), LowerFree(i)]);
    assert [TestAlloc(i)] + [Move(i), LowerFree(i)] == [TestAlloc(i), Move(i), LowerFree(i)];
    Follow(s1, RaiseFree(i), [TestAlloc(i), Move(i), LowerFree(i)]);
    assert [RaiseFree(i)] + [TestAlloc(i), Move(i), LowerFree(i)]
        == [RaiseFree(i), TestAlloc(i), Move(i), LowerFree(i)];
    Follow(s, Look(i), [RaiseFree(i), TestAlloc(i), Move(i), LowerFree(i)]);
    assert [Look(i)] + [RaiseFree(i), TestAlloc(i), Move(i), LowerFree(i)]
        == [Look(i), RaiseFree(i), TestAlloc(i), Move(i), LowerFree(i)];
  }

  lemma NoActions(s: State)
    ensures Possible(s, []) && Run(s, []) == s
  {
  }
}
