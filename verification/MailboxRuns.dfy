/** Posters and the transport thread as interleaved steps: SW_stub/lwtcp/sys_arch.c, with the message blocks of
    SW_stub/lwtcp/transport_subsys.c. Both semaphores are counters that a signal never raises above 1. */
module MailboxRuns {
  import opened Counting
  import opened Mailbox

  type Payload = int

  /** The most message blocks a ring of 100 slots is good for. The transport mailbox has 8, MEMP_NUM_TCPIP_MSG. */
  const MAX_BLOCKS: nat := 99

  /** Where a thread that posts is, in the order of its steps. */
  datatype Poster =
    | Idle
    | Has(b: Block, p: Payload)                      // has filled in a block
    | In(b: Block, p: Payload)                       // holds the mutex
    | Stored(b: Block, p: Payload)                   // has stored the pointer in the ring
    | Tested(b: Block, p: Payload, wasEmpty: bool)   // has compared first and last
    | Wrote(wasEmpty: bool)                          // has moved last on
    | Leaving                                        // has signalled mail, or need not

  /** Where the transport thread is. */
  datatype Fetcher =
    | Start
    | Locked         // holds the mutex
    | Waiting        // saw the ring empty and let the mutex go
    | Relock         // was woken
    | Read(b: Block) // holds the mutex and a copy of the oldest pointer
    | Took(b: Block) // has moved first on, and holds the mutex
    | Busy(b: Block) // works on the message

  /** posted and handled are history: the payloads in the order last was moved over them, and in the order the transport
      thread dealt with them. */
  datatype State = State(msgs: seq<Block>, first: nat, last: nat, mail: nat, mutex: nat, posters: seq<Poster>,
                         fetcher: Fetcher, pool: seq<Block>, memory: seq<Payload>,
                         posted: seq<Payload>, handled: seq<Payload>)

  datatype Action =
    | Alloc(i: nat, p: Payload) | PostLock(i: nat) | Store(i: nat) | Test(i: nat) | Advance(i: nat) | Mail(i: nat)
    | PostUnlock(i: nat)
    | FetchLock | Look | Wake | Timeout | Take | FetchUnlock | Handle

  ghost predicate Shape(s: State) {
    |s.msgs| == SIZE && s.first < SIZE && s.last < SIZE && s.mail <= 1 && s.mutex <= 1 && |s.memory| <= MAX_BLOCKS
  }

  predicate Enabled(s: State, a: Action) {
    match a
    case Alloc(i, _) => i < |s.posters| && s.posters[i].Idle? && s.pool != [] && s.pool[0] < |s.memory|
    case PostLock(i) => i < |s.posters| && s.posters[i].Has? && s.mutex > 0
    case Store(i) => i < |s.posters| && s.posters[i].In?
    case Test(i) => i < |s.posters| && s.posters[i].Stored?
    case Advance(i) => i < |s.posters| && s.posters[i].Tested?
    case Mail(i) => i < |s.posters| && s.posters[i].Wrote?
    case PostUnlock(i) => i < |s.posters| && s.posters[i].Leaving?
    case FetchLock => (s.fetcher.Start? || s.fetcher.Relock?) && s.mutex > 0
    case Look => s.fetcher.Locked?
    case Wake => s.fetcher.Waiting? && s.mail > 0
    case Timeout => s.fetcher.Waiting?
    case Take => s.fetcher.Read?
    case FetchUnlock => s.fetcher.Took?
    case Handle => s.fetcher.Busy? && s.fetcher.b < |s.memory|
  }

  function Next(s: State, a: Action): State
    requires Shape(s) && Enabled(s, a)
  {
    match a
    case Alloc(i, p) =>
      s.(pool := s.pool[1..], memory := s.memory[s.pool[0] := p], posters := s.posters[i := Has(s.pool[0], p)])
    case PostLock(i) => s.(mutex := s.mutex - 1, posters := s.posters[i := In(s.posters[i].b, s.posters[i].p)])
    case Store(i) =>
      s.(msgs := s.msgs[s.last := s.posters[i].b], posters := s.posters[i := Stored(s.posters[i].b, s.posters[i].p)])
    case Test(i) => s.(posters := s.posters[i := Tested(s.posters[i].b, s.posters[i].p, s.last == s.first)])
    case Advance(i) =>
      s.(last := Inc(s.last), posted := s.posted + [s.posters[i].p],
         posters := s.posters[i := Wrote(s.posters[i].wasEmpty)])
    case Mail(i) => s.(mail := if s.posters[i].wasEmpty then 1 else s.mail, posters := s.posters[i := Leaving])
    case PostUnlock(i) => s.(mutex := 1, posters := s.posters[i := Idle])
    case FetchLock => s.(mutex := s.mutex - 1, fetcher := Locked)
    case Look =>
      if s.first == s.last then s.(mutex := 1, fetcher := Waiting) else s.(fetcher := Read(s.msgs[s.first]))
    case Wake => s.(mail := s.mail - 1, fetcher := Relock)
    case Timeout => s.(fetcher := Start)
    case Take => s.(first := Inc(s.first), fetcher := Took(s.fetcher.b))
    case FetchUnlock => s.(mutex := 1, fetcher := Busy(s.fetcher.b))
    case Handle =>
      s.(fetcher := Start, pool := [s.fetcher.b] + s.pool, handled := s.handled + [s.memory[s.fetcher.b]])
  }

  // ----- Mutual exclusion

  predicate Inside(q: Poster) {
    q.In? || q.Stored? || q.Tested? || q.Wrote? || q.Leaving?
  }

  function Insiders(ps: seq<Poster>): nat {
    Tally(ps, Inside)
  }

  function FetchInside(f: Fetcher): nat {
    if f.Locked? || f.Read? || f.Took? then 1 else 0
  }

  /** Of all the threads and the mutex itself, exactly one holds the right to touch the ring. */
  ghost predicate Exclusive(s: State) {
    s.mutex + Insiders(s.posters) + FetchInside(s.fetcher) == 1
  }

  /** Two threads are never inside together. */
  lemma Alone(s: State, i: nat, j: nat)
    requires Exclusive(s) && i < |s.posters| && j < |s.posters| && Inside(s.posters[i])
    ensures s.mutex == 0 && FetchInside(s.fetcher) == 0
    ensures Inside(s.posters[j]) ==> i == j
  {
    TallyOne(s.posters, Inside, i);
    if i != j && Inside(s.posters[j]) {
      TallyTwo(s.posters, Inside, i, j);
    }
  }

  lemma ExclusiveStep(s: State, a: Action)
    requires Shape(s) && Enabled(s, a) && Exclusive(s)
    ensures Exclusive(Next(s, a)) && Shape(Next(s, a))
  {
    hide Tally;
    if a.Alloc? || a.PostLock? || a.Store? || a.Test? || a.Advance? || a.Mail? || a.PostUnlock? {
      TallyUpdate(s.posters, Inside, a.i, Next(s, a).posters[a.i]);
    }
  }

  // ----- Blocks

  function Of(q: Poster): multiset<Block> {
    if q.Has? || q.In? || q.Stored? || q.Tested? then multiset{q.b} else multiset{}
  }

  function Held(ps: seq<Poster>): multiset<Block> {
    Gather(ps, Of)
  }

  function FetchHeld(f: Fetcher): multiset<Block> {
    if f.Took? || f.Busy? then multiset{f.b} else multiset{}
  }

  /** The blocks of a pool of n. */
  function All(n: nat): multiset<Block> {
    if n == 0 then multiset{} else All(n - 1) + multiset{n - 1}
  }

  lemma {:induction false} AllIs(n: nat, b: Block)
    ensures All(n)[b] == (if b < n then 1 else 0) && |All(n)| == n
  {
    if n > 0 {
      AllIs(n - 1, b);
    }
  }

  /** Every block of the pool is in exactly one place: free, with a poster, in the ring, or with the fetching thread. */
  ghost predicate Conserved(s: State)
    requires Shape(s)
  {
    multiset(s.pool) + Held(s.posters) + multiset(Ring(s.msgs, s.first, s.last)) + FetchHeld(s.fetcher)
        == All(|s.memory|)
  }

  /** Taking a block, and giving it up. */
  lemma HeldTake(ps: seq<Poster>, i: nat, q: Poster, b: Block)
    requires i < |ps|
    ensures Of(ps[i]) == multiset{} && Of(q) == multiset{b} ==> Held(ps[i := q]) == Held(ps) + multiset{b}
    ensures Of(ps[i]) == multiset{b} && Of(q) == multiset{} ==> Held(ps) == Held(ps[i := q]) + multiset{b}
  {
    hide Of, Gather;
    GatherUpdate(ps, Of, i, q);
  }

  /** So the ring, together with what the transport thread holds, never holds more than the blocks there are. */
  lemma NeverFull(s: State)
    requires Shape(s) && Conserved(s)
    ensures Count(s.first, s.last) + |FetchHeld(s.fetcher)| <= |s.memory|
  {
    hide All, Gather;
    AllIs(|s.memory|, 0);
    assert |multiset(Ring(s.msgs, s.first, s.last))| == Count(s.first, s.last);
  }

  /** And while a poster holds a block there is room for it. */
  lemma RoomFor(s: State, i: nat, b: Block)
    requires Shape(s) && Conserved(s) && i < |s.posters| && Of(s.posters[i]) == multiset{b}
    ensures Count(s.first, s.last) < |s.memory|
  {
    hide All, Gather, Of;
    AllIs(|s.memory|, 0);
    GatherHas(s.posters, Of, i);
    assert Held(s.posters) == multiset{b} + (Held(s.posters) - multiset{b});
    assert |multiset(Ring(s.msgs, s.first, s.last))| == Count(s.first, s.last);
  }

  // ----- What the threads inside rely on

  ghost predicate PosterOk(s: State, q: Poster)
    requires Shape(s)
  {
    && (q.Has? || q.In? || q.Stored? || q.Tested? ==> q.b < |s.memory| && s.memory[q.b] == q.p)
    && (q.Stored? || q.Tested? ==> s.msgs[s.last] == q.b)
    && (q.Tested? ==> q.wasEmpty == (s.first == s.last))
  }

  ghost predicate Local(s: State)
    requires Shape(s)
  {
    && (forall i :: 0 <= i < |s.posters| ==> PosterOk(s, s.posters[i]))
    && (s.fetcher.Read? ==> s.first != s.last && s.msgs[s.first] == s.fetcher.b)
  }

  // ----- Order

  function Payloads(memory: seq<Payload>, q: seq<Block>): (r: seq<Payload>)
    ensures |r| == |q|
  {
    seq(|q|, k requires 0 <= k < |q| => if q[k] < |memory| then memory[q[k]] else 0)
  }

  /** The messages that are not dealt with yet, oldest first. */
  function Pending(s: State): seq<Payload>
    requires Shape(s)
  {
    var fetched := if s.fetcher.Took? || s.fetcher.Busy? then [s.fetcher.b] else [];
    Payloads(s.memory, fetched + Ring(s.msgs, s.first, s.last))
  }

  /** Nothing is lost, repeated, overtaken or changed on the way. */
  ghost predicate Ordered(s: State)
    requires Shape(s)
  {
    s.posted == s.handled + Pending(s)
  }

  // ----- Wake-ups

  /** A transport thread that waits, or is about to, while there are messages, has a signal waiting for it, or a poster
      that is about to give one. */
  ghost predicate NoLostWakeup(s: State) {
    s.fetcher.Waiting? && s.first != s.last ==>
      s.mail == 1 || exists i :: 0 <= i < |s.posters| && s.posters[i] == Wrote(true)
  }

  ghost predicate Inv(s: State) {
    Shape(s) && Exclusive(s) && Conserved(s) && Local(s) && Ordered(s) && NoLostWakeup(s)
  }

  lemma WakeStep(s: State, a: Action)
    requires Shape(s) && Enabled(s, a) && Local(s) && NoLostWakeup(s)
    ensures NoLostWakeup(Next(s, a))
  {
    var s' := Next(s, a);
    if s'.fetcher.Waiting? && s'.first != s'.last && s'.mail != 1 {
      if a.Advance? && s.first == s.last {
        assert PosterOk(s, s.posters[a.i]);
        assert s'.posters[a.i] == Wrote(true);
      } else {
        var i :| 0 <= i < |s.posters| && s.posters[i] == Wrote(true);
        assert s'.posters[i] == Wrote(true);
      }
    }
  }

  /** A free block is with no poster, not in the ring, and not with the transport thread. */
  lemma FreeIsFree(s: State, b: Block, j: nat)
    requires Shape(s) && Conserved(s) && b in s.pool
    ensures b < |s.memory| && b !in Ring(s.msgs, s.first, s.last) && b !in FetchHeld(s.fetcher)
    ensures j < |s.posters| ==> b !in Of(s.posters[j])
  {
    hide All, Gather, Ring;
    var ring: seq<Block> := Ring(s.msgs, s.first, s.last);
    AllIs(|s.memory|, b);
    assert multiset(s.pool)[b] >= 1;
    assert b in ring ==> multiset(ring)[b] >= 1;
    if j < |s.posters| {
      GatherHas(s.posters, Of, j);
    }
  }

  lemma ConservedAlloc(s: State, a: Action)
    requires Shape(s) && Enabled(s, a) && Conserved(s) && a.Alloc?
    ensures Shape(Next(s, a)) && Conserved(Next(s, a))
  {
    hide Ring, Gather, All;
    HeldTake(s.posters, a.i, Next(s, a).posters[a.i], s.pool[0]);
    assert s.pool == [s.pool[0]] + s.pool[1..];
    FromTo(multiset(s.pool[1..]), Held(s.posters), s.pool[0]);
  }

  lemma FromTo(x: multiset<Block>, y: multiset<Block>, b: Block)
    ensures (multiset{b} + x) + y == x + (y + multiset{b})
  {
  }

  lemma Moved(x: multiset<Block>, y: multiset<Block>, z: multiset<Block>, f: multiset<Block>, b: Block)
    ensures x + (y + multiset{b}) + z + f == x + y + (z + multiset{b}) + f
  {
  }

  lemma ConservedAdvance(s: State, a: Action)
    requires Shape(s) && Enabled(s, a) && Conserved(s) && Local(s) && a.Advance?
    ensures Shape(Next(s, a)) && Conserved(Next(s, a))
  {
    hide Ring, Gather, All;
    var s', b := Next(s, a), s.posters[a.i].b;
    HeldTake(s.posters, a.i, s'.posters[a.i], b);
    assert PosterOk(s, s.posters[a.i]);
    RoomFor(s, a.i, s.posters[a.i].b);
    AdvanceIs(s.msgs, s.first, s.last);
    Moved(multiset(s.pool), Held(s'.posters), multiset(Ring(s.msgs, s.first, s.last)), FetchHeld(s.fetcher), b);
  }

  /** Steps that move no block. */
  lemma ConservedAlike(s: State, s': State)
    requires Shape(s) && Conserved(s) && Shape(s') && |s'.memory| == |s.memory|
    requires s'.pool == s.pool && Held(s'.posters) == Held(s.posters)
    requires Ring(s'.msgs, s'.first, s'.last) == Ring(s.msgs, s.first, s.last) &&
             FetchHeld(s'.fetcher) == FetchHeld(s.fetcher)
    ensures Conserved(s')
  {
  }

  lemma ConservedPoster(s: State, a: Action)
    requires Shape(s) && Enabled(s, a) && Conserved(s)
    requires a.PostLock? || a.Store? || a.Test? || a.Mail? || a.PostUnlock?
    ensures Shape(Next(s, a)) && Conserved(Next(s, a))
  {
    hide Ring, Gather, All, Conserved, Next, Enabled, Of;
    if a.Store? {
      PosterStores(s, a.i);
    } else {
      PosterMoves(s, a);
    }
    GatherSame(s.posters, Of, a.i, Next(s, a).posters[a.i]);
    ConservedAlike(s, Next(s, a));
  }

  /** Poster i goes on with the block it holds, if it holds one. */
  predicate PosterOnly(s: State, s': State, i: nat) {
    && i < |s.posters| && |s'.posters| == |s.posters| && s'.posters == s.posters[i := s'.posters[i]]
    && Of(s'.posters[i]) == Of(s.posters[i])
    && s'.pool == s.pool && s'.memory == s.memory && s'.fetcher == s.fetcher
    && s'.first == s.first && s'.last == s.last
  }

  lemma PosterMoves(s: State, a: Action)
    requires Shape(s) && Enabled(s, a) && (a.PostLock? || a.Test? || a.Mail? || a.PostUnlock?)
    ensures Shape(Next(s, a)) && PosterOnly(s, Next(s, a), a.i) && Next(s, a).msgs == s.msgs
  {
  }

  lemma PosterStores(s: State, i: nat)
    requires Shape(s) && Enabled(s, Store(i))
    ensures var s' := Next(s, Store(i));
            && Shape(s') && PosterOnly(s, s', i) && |s.msgs| == SIZE
            && Ring(s'.msgs, s'.first, s'.last) == Ring(s.msgs, s.first, s.last)
  {
    hide Ring;
    StoreIs(s.msgs, s.first, s.last, s.posters[i].b);
  }

  lemma ConservedFetcher(s: State, a: Action)
    requires Shape(s) && Enabled(s, a) && Conserved(s)
    requires a.FetchLock? || a.Look? || a.Wake? || a.Timeout? || a.FetchUnlock?
    ensures Shape(Next(s, a)) && Conserved(Next(s, a))
  {
    hide Ring, Gather, All, Conserved, Held, Next;
    if a.FetchLock? || a.Look? {
      FetcherLooks(s, a);
    } else {
      FetcherGoesOn(s, a);
    }
    ConservedAlike(s, Next(s, a));
  }

  /** The transport thread goes on without touching a message. */
  predicate FetcherOnly(s: State, s': State) {
    && s'.pool == s.pool && s'.posters == s.posters && s'.memory == s.memory
    && s'.msgs == s.msgs && s'.first == s.first && s'.last == s.last && FetchHeld(s'.fetcher) == FetchHeld(s.fetcher)
  }

  lemma FetcherLooks(s: State, a: Action)
    requires Shape(s) && Enabled(s, a) && (a.FetchLock? || a.Look?)
    ensures Shape(Next(s, a)) && FetcherOnly(s, Next(s, a))
  {
  }

  lemma FetcherGoesOn(s: State, a: Action)
    requires Shape(s) && Enabled(s, a) && (a.Wake? || a.Timeout? || a.FetchUnlock?)
    ensures Shape(Next(s, a)) && FetcherOnly(s, Next(s, a))
  {
  }

  lemma ConservedTake(s: State, a: Action)
    requires Shape(s) && Enabled(s, a) && Conserved(s) && Local(s) && a.Take?
    ensures Shape(Next(s, a)) && Conserved(Next(s, a))
  {
    hide Ring, Gather, All;
    TakeIs(s.msgs, s.first, s.last);
  }

  lemma ConservedHandle(s: State, a: Action)
    requires Shape(s) && Enabled(s, a) && Conserved(s) && a.Handle?
    ensures Shape(Next(s, a)) && Conserved(Next(s, a))
  {
    hide Ring, Gather, All;
    assert Next(s, a).pool == [s.fetcher.b] + s.pool;
  }

  lemma ConservedStep(s: State, a: Action)
    requires Shape(s) && Enabled(s, a) && Conserved(s) && Local(s)
    ensures Shape(Next(s, a)) && Conserved(Next(s, a))
  {
    hide Shape, Enabled, Next, Local, Conserved;
    match a
    case Alloc(_, _) => ConservedAlloc(s, a);
    case Advance(_) => ConservedAdvance(s, a);
    case Take => ConservedTake(s, a);
    case Handle => ConservedHandle(s, a);
    case _ =>
      if a.PostLock? || a.Store? || a.Test? || a.Mail? || a.PostUnlock? {
        ConservedPoster(s, a);
      } else {
        ConservedFetcher(s, a);
      }
  }

  lemma LocalAlloc(s: State, a: Action, j: nat)
    requires Shape(s) && Enabled(s, a) && Conserved(s) && j < |s.posters| && PosterOk(s, s.posters[j]) && a.Alloc?
    ensures PosterOk(Next(s, a), Next(s, a).posters[j])
  {
    hide Ring, Gather, Conserved;
    FreeIsFree(s, s.pool[0], j);
  }

  lemma LocalPoster(s: State, a: Action, j: nat)
    requires Shape(s) && Enabled(s, a) && Exclusive(s) && j < |s.posters| && PosterOk(s, s.posters[j]) && !a.Alloc?
    ensures PosterOk(Next(s, a), Next(s, a).posters[j])
  {
    hide Tally, Exclusive;
    if a.Store? || a.Advance? {
      Alone(s, a.i, j);
    } else if a.Take? && Inside(s.posters[j]) {
      Alone(s, j, j);
    }
  }

  lemma LocalFetcher(s: State, a: Action)
    requires Shape(s) && Enabled(s, a) && Exclusive(s) && Local(s)
    ensures var s' := Next(s, a); s'.fetcher.Read? ==> s'.first != s'.last && s'.msgs[s'.first] == s'.fetcher.b
  {
    hide Tally, Exclusive;
    if a.Store? || a.Advance? {
      Alone(s, a.i, a.i);
    }
  }

  lemma LocalStep(s: State, a: Action)
    requires Shape(s) && Enabled(s, a) && Exclusive(s) && Conserved(s) && Local(s)
    ensures Shape(Next(s, a)) && Local(Next(s, a))
  {
    hide PosterOk, Exclusive, Conserved;
    var s' := Next(s, a);
    assert |s'.posters| == |s.posters|;
    forall j | 0 <= j < |s'.posters| ensures PosterOk(s', s'.posters[j]) {
      if a.Alloc? {
        LocalAlloc(s, a, j);
      } else {
        LocalPoster(s, a, j);
      }
    }
    LocalFetcher(s, a);
  }

  lemma SamePayloads(memory: seq<Payload>, q: seq<Block>, b: Block, p: Payload)
    requires b < |memory| && b !in q
    ensures Payloads(memory[b := p], q) == Payloads(memory, q)
  {
  }

  lemma OrderedAlloc(s: State, a: Action)
    requires Shape(s) && Enabled(s, a) && Conserved(s) && Ordered(s) && a.Alloc?
    ensures Shape(Next(s, a)) && Ordered(Next(s, a))
  {
    hide Ring, Gather, Conserved, Payloads;
    FreeIsFree(s, s.pool[0], a.i);
    var q := (if s.fetcher.Took? || s.fetcher.Busy? then [s.fetcher.b] else []) + Ring(s.msgs, s.first, s.last);
    SamePayloads(s.memory, q, s.pool[0], a.p);
  }

  lemma OrderedAdvance(s: State, a: Action)
    requires Shape(s) && Enabled(s, a) && Conserved(s) && Local(s) && Ordered(s) && a.Advance?
    ensures Shape(Next(s, a)) && Ordered(Next(s, a))
  {
    hide Ring, Gather, Conserved;
    RoomFor(s, a.i, s.posters[a.i].b);
    AdvanceIs(s.msgs, s.first, s.last);
    assert PosterOk(s, s.posters[a.i]);
    assert Pending(Next(s, a)) == Pending(s) + [s.posters[a.i].p];
  }

  lemma OrderedFetch(s: State, a: Action)
    requires Shape(s) && Enabled(s, a) && Local(s) && Ordered(s) && (a.Take? || a.Handle?)
    ensures Shape(Next(s, a)) && Ordered(Next(s, a))
  {
    hide Ring;
    if a.Take? {
      TakeIs(s.msgs, s.first, s.last);
      assert Pending(Next(s, a)) == Pending(s);
    } else {
      assert Pending(s) == [s.memory[s.fetcher.b]] + Pending(Next(s, a));
    }
  }

  lemma OrderedStep(s: State, a: Action)
    requires Shape(s) && Enabled(s, a) && Conserved(s) && Local(s) && Ordered(s)
    ensures Shape(Next(s, a)) && Ordered(Next(s, a))
  {
    hide Ring, Conserved, Local;
    if a.Alloc? {
      OrderedAlloc(s, a);
    } else if a.Advance? {
      OrderedAdvance(s, a);
    } else if a.Take? || a.Handle? {
      OrderedFetch(s, a);
    } else {
      if a.Store? {
        StoreIs(s.msgs, s.first, s.last, s.posters[a.i].b);
      }
      assert Pending(Next(s, a)) == Pending(s);
    }
  }

  lemma StepKeeps(s: State, a: Action)
    requires Inv(s) && Enabled(s, a)
    ensures Inv(Next(s, a))
  {
    hide Exclusive, Conserved, Local, Ordered, NoLostWakeup, Next;
    ExclusiveStep(s, a);
    ConservedStep(s, a);
    LocalStep(s, a);
    OrderedStep(s, a);
    WakeStep(s, a);
  }

  // ----- Runs

  /** A fresh mailbox and n threads that may post. */
  function Initial(msgs: seq<Block>, memory: seq<Payload>, n: nat): State {
    State(msgs, 0, 0, 0, 1, seq(n, _ => Idle), Start, seq(|memory|, k => k), memory, [], [])
  }

  lemma InitialConserved(msgs: seq<Block>, memory: seq<Payload>, n: nat)
    requires |msgs| == SIZE && |memory| <= MAX_BLOCKS
    ensures Conserved(Initial(msgs, memory, n)) && Ordered(Initial(msgs, memory, n))
  {
    hide All, Gather, Ring;
    GatherNone(seq(n, _ => Idle), Of);
    assert Ring(msgs, 0, 0) == [];
    PoolIsAll(|memory|);
  }

  lemma InitialInv(msgs: seq<Block>, memory: seq<Payload>, n: nat)
    requires |msgs| == SIZE && |memory| <= MAX_BLOCKS
    ensures Inv(Initial(msgs, memory, n))
  {
    hide Conserved, Ordered, Tally;
    InitialConserved(msgs, memory, n);
    TallyNone(seq(n, _ => Idle), Inside);
  }

  lemma {:induction false} PoolIsAll(n: nat)
    ensures multiset(seq(n, k => k)) == All(n)
  {
    if n > 0 {
      PoolIsAll(n - 1);
      var q: seq<Block> := seq(n, k => k);
      assert q == seq(n - 1, k => k) + [n - 1];
    }
  }

  /** An interleaving: every action is one its thread can take. */
  ghost predicate Possible(s: State, acts: seq<Action>)
    decreases |acts|
  {
    acts != [] ==> Shape(s) && Enabled(s, acts[0]) && Possible(Next(s, acts[0]), acts[1..])
  }

  ghost function Run(s: State, acts: seq<Action>): State
    requires Possible(s, acts)
    decreases |acts|
  {
    if acts == [] then s else Run(Next(s, acts[0]), acts[1..])
  }

  lemma SameBlocks(s: State, a: Action)
    requires Shape(s) && Enabled(s, a)
    ensures |Next(s, a).memory| == |s.memory|
  {
  }

  lemma {:induction false} RunKeeps(s: State, acts: seq<Action>)
    requires Inv(s) && Possible(s, acts)
    ensures Inv(Run(s, acts)) && |Run(s, acts).memory| == |s.memory|
    decreases |acts|
  {
    hide Inv, Next, Enabled;
    if acts != [] {
      SameBlocks(s, acts[0]);
      StepKeeps(s, acts[0]);
      RunKeeps(Next(s, acts[0]), acts[1..]);
    }
  }

  /** For any number of posters, up to 99 message blocks, and any interleaving: messages are dealt with in the order
      they were posted, none lost, repeated or changed; at most as many as there are blocks are under way, so that the
      ring never overflows; and two threads are never inside together. */
  lemma MailboxSafe(msgs: seq<Block>, memory: seq<Payload>, n: nat, acts: seq<Action>, i: nat, j: nat)
    requires |msgs| == SIZE && |memory| <= MAX_BLOCKS && Possible(Initial(msgs, memory, n), acts)
    ensures var s := Run(Initial(msgs, memory, n), acts);
            && Shape(s) && s.handled <= s.posted && s.posted == s.handled + Pending(s)
            && Count(s.first, s.last) <= |memory| && |s.posted| <= |s.handled| + |memory|
            && (i < j < |s.posters| && Inside(s.posters[i]) ==> !Inside(s.posters[j]) && FetchInside(s.fetcher) == 0)
  {
    hide Run, Ring;
    InitialInv(msgs, memory, n);
    RunKeeps(Initial(msgs, memory, n), acts);
    var s := Run(Initial(msgs, memory, n), acts);
    NeverFull(s);
    if i < j < |s.posters| && Inside(s.posters[i]) {
      Alone(s, i, j);
    }
  }

  /** Some thread can move the mailbox on: nobody waits for ever on messages that are there. */
  ghost predicate Progress(s: State, a: Action) {
    Shape(s) && Enabled(s, a) && !a.Alloc? && !a.Timeout?
  }

  /** Whenever messages are pending, some thread can take a step that is not a timeout: in particular a transport
      thread that waits beside a nonempty ring is woken, although posters signal only if they find the ring empty. */
  lemma NeverStuck(s: State)
    requires Inv(s) && (s.first != s.last || s.fetcher.Took? || s.fetcher.Busy?)
    ensures exists a :: Progress(s, a)
    ensures s.fetcher.Waiting? && (forall i :: 0 <= i < |s.posters| ==> !Inside(s.posters[i])) ==> s.mail == 1
  {
    hide Conserved, Ordered, Ring, Gather, Local;
    if Insiders(s.posters) >= 1 {
      var i := TallyFind(s.posters, Inside);
      var q := s.posters[i];
      var a := if q.In? then Store(i) else if q.Stored? then Test(i) else if q.Tested? then Advance(i)
               else if q.Wrote? then Mail(i) else PostUnlock(i);
      assert Progress(s, a);
    } else {
      FetcherMoves(s);
    }
  }

  lemma FetcherMoves(s: State)
    requires Inv(s) && Insiders(s.posters) == 0 && (s.first != s.last || s.fetcher.Took? || s.fetcher.Busy?)
    ensures exists a :: Progress(s, a)
  {
    hide Ordered, Ring, Gather, Local, Conserved;
    if s.fetcher.Waiting? {
      if i :| 0 <= i < |s.posters| && s.posters[i] == Wrote(true) {
        TallyOne(s.posters, Inside, i);
      }
      assert Progress(s, Wake);
    } else if s.fetcher.Busy? {
      BusyBlock(s);
      assert Progress(s, Handle);
    } else {
      var a := if s.fetcher.Start? || s.fetcher.Relock? then FetchLock else if s.fetcher.Locked? then Look
               else if s.fetcher.Read? then Take else FetchUnlock;
      assert Progress(s, a);
    }
  }

  lemma BusyBlock(s: State)
    requires Shape(s) && Conserved(s) && s.fetcher.Busy?
    ensures s.fetcher.b < |s.memory|
  {
    hide Ring, Gather, All;
    AllIs(|s.memory|, s.fetcher.b);
    assert FetchHeld(s.fetcher)[s.fetcher.b] == 1;
  }
}
