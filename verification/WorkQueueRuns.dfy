/** Enqueuers, workers and the thread that shuts them down, as interleaved steps: SW_stub/sr_work_queue.c. */
module WorkQueueRuns {
  import opened Counting

  /** A piece of work; id tells apart blocks that malloc_or_die() returned at different times. */
  datatype Work = Work(id: nat, item: int)

  datatype Pointer = Null | At(id: nat)

  datatype Worker =
    | Outside            // about to lock, at the top of the loop
    | Checking           // holds the lock, about to test done and head
    | Sleeping           // in pthread_cond_wait()
    | Woken              // left pthread_cond_wait(), about to lock again
    | Taken(w: Work)     // holds the lock and has unlinked a piece of work
    | Running(w: Work)   // calls func_do_work()
    | Exiting            // holds the lock and has counted itself out
    | Gone

  datatype Enqueuer =
    | Idle
    | Linking(item: int)  // holds the lock
    | Linked              // holds the lock, the work is on the queue
    | Owing               // gave the lock up, and has not called pthread_cond_signal() yet

  datatype Destroyer =
    | Calm
    | Draining            // holds the lock
    | Drained             // holds the lock, done is set and the queue is freed
    | Announcing          // gave the lock up, and has not called pthread_cond_broadcast() yet
    | Finished

  /** queue is the list that starts at head. enqueued and taken are history. */
  datatype State = State(locked: bool, done: bool, queue: seq<Work>, tail: Pointer, count: int, workers: seq<Worker>,
                         enqueuers: seq<Enqueuer>, destroyer: Destroyer, enqueued: seq<Work>, taken: seq<Work>)

  datatype Action =
    | EnqueueLock(i: nat, item: int) | Link(i: nat) | EnqueueUnlock(i: nat) | Signal(i: nat, j: nat)
    | WorkerLock(i: nat) | Check(i: nat) | SpuriousWake(i: nat) | WorkerUnlock(i: nat) | Finish(i: nat)
    | DestroyLock | Drain | DestroyUnlock | Broadcast

  predicate EnqueuerAt(s: State, i: nat, e: Enqueuer) {
    i < |s.enqueuers| && s.enqueuers[i] == e
  }

  /** Signal(i, j) wakes worker j; it wakes nobody only when nobody sleeps. */
  predicate Enabled(s: State, a: Action) {
    match a
    case EnqueueLock(i, _) => EnqueuerAt(s, i, Idle) && !s.locked
    case Link(i) => i < |s.enqueuers| && s.enqueuers[i].Linking?
    case EnqueueUnlock(i) => EnqueuerAt(s, i, Linked)
    case Signal(i, j) => EnqueuerAt(s, i, Owing) &&
      (Asleep(s.workers) > 0 ==> j < |s.workers| && s.workers[j] == Sleeping)
    case WorkerLock(i) => i < |s.workers| && (s.workers[i] == Outside || s.workers[i] == Woken) && !s.locked
    case Check(i) => i < |s.workers| && s.workers[i] == Checking
    case SpuriousWake(i) => i < |s.workers| && s.workers[i] == Sleeping
    case WorkerUnlock(i) => i < |s.workers| && (s.workers[i].Taken? || s.workers[i] == Exiting)
    case Finish(i) => i < |s.workers| && s.workers[i].Running?
    case DestroyLock => s.destroyer == Calm && !s.locked
    case Drain => s.destroyer == Draining
    case DestroyUnlock => s.destroyer == Drained
    case Broadcast => s.destroyer == Announcing
  }

  /** The last node of a queue. */
  function Last(q: seq<Work>): Pointer {
    if q == [] then Null else At(q[|q| - 1].id)
  }

  /** Links new work: tail->next is set when there is a tail, head otherwise. A tail that is not the last node of the
      list from head has been freed, and the store through it does not reach the list. */
  function Appended(q: seq<Work>, tail: Pointer, w: Work): seq<Work> {
    if tail == Null then [w] else if tail == Last(q) then q + [w] else q
  }

  function Wake(ws: seq<Worker>): seq<Worker> {
    seq(|ws|, k requires 0 <= k < |ws| => if ws[k] == Sleeping then Woken else ws[k])
  }

  function Next(s: State, a: Action): State
    requires Enabled(s, a)
  {
    match a
    case EnqueueLock(i, item) => s.(locked := true, enqueuers := s.enqueuers[i := Linking(item)])
    case Link(i) =>
      var w := Work(|s.enqueued|, s.enqueuers[i].item);
      s.(queue := Appended(s.queue, s.tail, w), tail := At(w.id), enqueued := s.enqueued + [w],
         enqueuers := s.enqueuers[i := Linked])
    case EnqueueUnlock(i) => s.(locked := false, enqueuers := s.enqueuers[i := Owing])
    case Signal(i, j) =>
      s.(enqueuers := s.enqueuers[i := Idle],
         workers := if j < |s.workers| && s.workers[j] == Sleeping then s.workers[j := Woken] else s.workers)
    case WorkerLock(i) => s.(locked := true, workers := s.workers[i := Checking])
    case Check(i) =>
      if s.done then s.(count := s.count - 1, workers := s.workers[i := Exiting])
      else if s.queue == [] then s.(locked := false, workers := s.workers[i := Sleeping])
      else s.(queue := s.queue[1..], tail := if s.queue[1..] == [] then Null else s.tail,
              taken := s.taken + [s.queue[0]], workers := s.workers[i := Taken(s.queue[0])])
    case SpuriousWake(i) => s.(workers := s.workers[i := Woken])
    case WorkerUnlock(i) =>
      s.(locked := false, workers := s.workers[i := if s.workers[i].Taken? then Running(s.workers[i].w) else Gone])
    case Finish(i) => s.(workers := s.workers[i := Outside])
    case DestroyLock => s.(locked := true, destroyer := Draining)
    case Drain => s.(done := true, queue := [], destroyer := Drained)
    case DestroyUnlock => s.(locked := false, destroyer := Announcing)
    case Broadcast => s.(workers := Wake(s.workers), destroyer := Finished)
  }

  // ----- Counting threads

  predicate IsAsleep(w: Worker) { w == Sleeping }

  predicate IsInside(w: Worker) { w == Checking || w.Taken? || w == Exiting }

  predicate HasLeft(w: Worker) { w == Exiting || w == Gone }

  predicate WillSignal(e: Enqueuer) { e == Linked || e == Owing }

  predicate Enqueues(e: Enqueuer) { e.Linking? || e == Linked }

  function Asleep(ws: seq<Worker>): nat {
    Tally(ws, IsAsleep)
  }

  function Signals(es: seq<Enqueuer>): nat {
    Tally(es, WillSignal)
  }

  function WorkersInside(ws: seq<Worker>): nat {
    Tally(ws, IsInside)
  }

  function EnqueuersInside(es: seq<Enqueuer>): nat {
    Tally(es, Enqueues)
  }

  function Left(ws: seq<Worker>): nat {
    Tally(ws, HasLeft)
  }

  // ----- The invariant

  /** The lock is held by exactly one thread, or free. */
  ghost predicate Exclusive(s: State) {
    WorkersInside(s.workers) + EnqueuersInside(s.enqueuers) +
      (if s.destroyer == Draining || s.destroyer == Drained then 1 else 0)
      == if s.locked then 1 else 0
  }

  /** Until the queue is destroyed, work leaves it in the order it came and tail is its last node: so tail is NULL
      exactly when head is. Work taken later never changes again. */
  ghost predicate Fifo(s: State) {
    && (!s.done ==> s.enqueued == s.taken + s.queue && s.tail == Last(s.queue))
    && s.taken <= s.enqueued
    && (forall k :: 0 <= k < |s.enqueued| ==> s.enqueued[k].id == k)
  }

  /** With n pieces of work on the queue, at least n workers (or all there are) are awake or about to be signalled. */
  ghost predicate Staffed(s: State) {
    !s.done ==>
      |s.workers| - Asleep(s.workers) + Signals(s.enqueuers)
        >= (if |s.queue| < |s.workers| then |s.queue| else |s.workers|)
  }

  ghost predicate Counted(s: State) {
    && s.count == |s.workers| - Left(s.workers)
    && (s.done <==> !(s.destroyer == Calm || s.destroyer == Draining))
    && (s.destroyer == Finished ==> Asleep(s.workers) == 0)
    && (!s.done ==> Left(s.workers) == 0)
  }

  predicate Holds(w: Worker) {
    w.Taken? || w.Running?
  }

  /** What a worker works on was taken from the queue, and no two workers work on the same thing. */
  ghost predicate Owned(s: State) {
    && (forall i :: 0 <= i < |s.workers| && Holds(s.workers[i]) ==> s.workers[i].w in s.taken)
    && forall i, j :: 0 <= i < j < |s.workers| && Holds(s.workers[i]) && Holds(s.workers[j]) ==>
        s.workers[i].w != s.workers[j].w
  }

  ghost predicate Inv(s: State) {
    Exclusive(s) && Fifo(s) && Staffed(s) && Counted(s) && Owned(s)
  }

  /** What the actions of a worker and of an enqueuer do to the counts. */
  lemma WorkerCounts(ws: seq<Worker>, i: nat, w: Worker)
    requires i < |ws|
    ensures Asleep(ws[i := w]) == Asleep(ws) - (if IsAsleep(ws[i]) then 1 else 0) + (if IsAsleep(w) then 1 else 0)
    ensures WorkersInside(ws[i := w]) == WorkersInside(ws) - (if IsInside(ws[i]) then 1 else 0) +
            (if IsInside(w) then 1 else 0)
    ensures Left(ws[i := w]) == Left(ws) - (if HasLeft(ws[i]) then 1 else 0) + (if HasLeft(w) then 1 else 0)
  {
    hide Tally, IsAsleep, IsInside, HasLeft;
    TallyUpdate(ws, IsAsleep, i, w);
    TallyUpdate(ws, IsInside, i, w);
    TallyUpdate(ws, HasLeft, i, w);
  }

  lemma EnqueuerCounts(es: seq<Enqueuer>, i: nat, e: Enqueuer)
    requires i < |es|
    ensures Signals(es[i := e]) == Signals(es) - (if WillSignal(es[i]) then 1 else 0) + (if WillSignal(e) then 1 else 0)
    ensures EnqueuersInside(es[i := e]) == EnqueuersInside(es) - (if Enqueues(es[i]) then 1 else 0) +
            (if Enqueues(e) then 1 else 0)
  {
    hide Tally, WillSignal, Enqueues;
    TallyUpdate(es, WillSignal, i, e);
    TallyUpdate(es, Enqueues, i, e);
  }

  lemma {:induction false} WakeCounts(ws: seq<Worker>)
    ensures Asleep(Wake(ws)) == 0 && WorkersInside(Wake(ws)) == WorkersInside(ws) && Left(Wake(ws)) == Left(ws)
    decreases |ws|
  {
    if ws != [] {
      assert Wake(ws)[1..] == Wake(ws[1..]);
      WakeCounts(ws[1..]);
    }
  }

  predicate ByWorker(a: Action) {
    a.WorkerLock? || a.Check? || a.SpuriousWake? || a.WorkerUnlock? || a.Finish?
  }

  predicate ByEnqueuer(a: Action) {
    a.EnqueueLock? || a.Link? || a.EnqueueUnlock? || a.Signal?
  }

  lemma ExclusiveStep(s: State, a: Action)
    requires Enabled(s, a) && Exclusive(s)
    ensures Exclusive(Next(s, a))
  {
    hide Asleep, Signals, WorkersInside, EnqueuersInside, Left, Appended;
    var s' := Next(s, a);
    if ByWorker(a) {
      WorkerCounts(s.workers, a.i, s'.workers[a.i]);
    } else if ByEnqueuer(a) {
      EnqueuerCounts(s.enqueuers, a.i, s'.enqueuers[a.i]);
      if a.Signal? && a.j < |s.workers| {
        WorkerCounts(s.workers, a.j, s'.workers[a.j]);
      }
    } else if a.Broadcast? {
      WakeCounts(s.workers);
    }
  }

  lemma CountedStep(s: State, a: Action)
    requires Enabled(s, a) && Counted(s)
    ensures Counted(Next(s, a))
  {
    hide Asleep, Signals, WorkersInside, EnqueuersInside, Left, Appended;
    var s' := Next(s, a);
    if ByWorker(a) {
      WorkerCounts(s.workers, a.i, s'.workers[a.i]);
    } else if a.Signal? && a.j < |s.workers| {
      WorkerCounts(s.workers, a.j, s'.workers[a.j]);
    } else if a.Broadcast? {
      WakeCounts(s.workers);
    }
  }

  lemma FifoStep(s: State, a: Action)
    requires Enabled(s, a) && Fifo(s)
    ensures Fifo(Next(s, a))
  {
    hide Asleep;
    if a.Check? && !s.done && s.queue != [] {
      assert s.queue == [s.queue[0]] + s.queue[1..];
    }
  }

  lemma StaffedStep(s: State, a: Action)
    requires Enabled(s, a) && Staffed(s) && Fifo(s) && Asleep(Next(s, a).workers) <= |s.workers|
    ensures Staffed(Next(s, a))
  {
    hide Asleep, Signals, WorkersInside, EnqueuersInside, Left;
    var s' := Next(s, a);
    if ByWorker(a) {
      WorkerCounts(s.workers, a.i, s'.workers[a.i]);
    } else if ByEnqueuer(a) {
      EnqueuerCounts(s.enqueuers, a.i, s'.enqueuers[a.i]);
      if a.Signal? && a.j < |s.workers| {
        WorkerCounts(s.workers, a.j, s'.workers[a.j]);
      }
    } else if a.Broadcast? {
      WakeCounts(s.workers);
    }
  }

  lemma OwnedStep(s: State, a: Action)
    requires Enabled(s, a) && Owned(s) && Fifo(s)
    ensures Owned(Next(s, a))
  {
    hide Fifo, Owned, Enabled, Next;
    if a.WorkerLock? || a.Check? || a.SpuriousWake? || a.WorkerUnlock? || a.Finish? {
      OwnedWorker(s, a);
    } else {
      OwnedOthers(s, a);
    }
  }

  lemma OwnedWorker(s: State, a: Action)
    requires Enabled(s, a) && Owned(s) && Fifo(s)
    requires a.WorkerLock? || a.Check? || a.SpuriousWake? || a.WorkerUnlock? || a.Finish?
    ensures Owned(Next(s, a))
  {
    hide Fifo;
    if a.Check? && !s.done && s.queue != [] {
      NotTakenYet(s);
    }
  }

  lemma OwnedOthers(s: State, a: Action)
    requires Enabled(s, a) && Owned(s)
    requires !(a.WorkerLock? || a.Check? || a.SpuriousWake? || a.WorkerUnlock? || a.Finish?)
    ensures Owned(Next(s, a))
  {
    hide Appended, Wake;
    WakeHolds(s.workers);
  }

  lemma WakeHolds(ws: seq<Worker>)
    ensures |Wake(ws)| == |ws| && forall i :: 0 <= i < |ws| && Holds(Wake(ws)[i]) ==> Wake(ws)[i] == ws[i]
  {
  }

  lemma NotTakenYet(s: State)
    requires Owned(s) && Fifo(s) && !s.done && s.queue != []
    ensures s.queue[0] !in s.taken
  {
    var n := |s.taken|;
    assert s.enqueued[n] == s.queue[0];
    assert forall k :: 0 <= k < n ==> s.taken[k] == s.enqueued[k];
  }

  lemma StepKeeps(s: State, a: Action)
    requires Inv(s) && Enabled(s, a)
    ensures Inv(Next(s, a))
  {
    hide Exclusive, Fifo, Staffed, Counted, Owned, Enabled;
    ExclusiveStep(s, a);
    CountedStep(s, a);
    FifoStep(s, a);
    SleepersBound(s, a);
    StaffedStep(s, a);
    OwnedStep(s, a);
  }

  lemma SleepersBound(s: State, a: Action)
    requires Enabled(s, a)
    ensures Asleep(Next(s, a).workers) <= |s.workers|
  {
    hide Tally, Appended;
  }

  // ----- Runs

  /** wq_init() with n workers, and m threads that may enqueue. */
  function Initial(n: nat, m: nat): State {
    State(false, false, [], Null, n, seq(n, _ => Outside), seq(m, _ => Idle), Calm, [], [])
  }

  lemma InitialInv(n: nat, m: nat)
    ensures Inv(Initial(n, m))
  {
    var s := Initial(n, m);
    TallyNone(s.workers, IsAsleep);
    TallyNone(s.workers, IsInside);
    TallyNone(s.workers, HasLeft);
    TallyNone(s.enqueuers, Enqueues);
    TallyNone(s.enqueuers, WillSignal);
  }

  ghost predicate Possible(s: State, acts: seq<Action>)
    decreases |acts|
  {
    acts != [] ==> Enabled(s, acts[0]) && Possible(Next(s, acts[0]), acts[1..])
  }

  ghost function Run(s: State, acts: seq<Action>): State
    requires Possible(s, acts)
    decreases |acts|
  {
    if acts == [] then s else Run(Next(s, acts[0]), acts[1..])
  }

  lemma StepGrows(s: State, a: Action)
    requires Enabled(s, a)
    ensures |Next(s, a).workers| == |s.workers| && |Next(s, a).enqueuers| == |s.enqueuers|
    ensures s.taken <= Next(s, a).taken && s.enqueued <= Next(s, a).enqueued
  {
    hide Asleep, Appended;
  }

  lemma {:induction false} RunKeeps(s: State, acts: seq<Action>)
    requires Inv(s) && Possible(s, acts)
    ensures Inv(Run(s, acts))
    ensures |Run(s, acts).workers| == |s.workers| && |Run(s, acts).enqueuers| == |s.enqueuers|
    ensures s.taken <= Run(s, acts).taken && s.enqueued <= Run(s, acts).enqueued
    decreases |acts|
  {
    hide Inv, Enabled, Next;
    if acts != [] {
      StepGrows(s, acts[0]);
      StepKeeps(s, acts[0]);
      RunKeeps(Next(s, acts[0]), acts[1..]);
    }
  }

  /** Once the queue is destroyed no further piece of work is started. */
  lemma {:induction false} NothingAfterDone(s: State, acts: seq<Action>)
    requires s.done && Possible(s, acts)
    ensures Run(s, acts).done && Run(s, acts).taken == s.taken
    decreases |acts|
  {
    hide Asleep;
    if acts != [] {
      NothingAfterDone(Next(s, acts[0]), acts[1..]);
    }
  }

  /** In every interleaving: work is started in the order it was enqueued, each piece by one worker only; until the
      queue is destroyed nothing is lost; if every worker sleeps while work is there, some enqueuer still owes a
      signal. */
  lemma WorkQueueSafe(n: nat, m: nat, acts: seq<Action>)
    requires n > 0 && Possible(Initial(n, m), acts)
    ensures var s := Run(Initial(n, m), acts);
            && s.taken <= s.enqueued
            && (!s.done ==> s.enqueued == s.taken + s.queue && (s.queue == [] <==> s.tail == Null))
            && Owned(s)
            && (!s.done && s.queue != [] && Asleep(s.workers) == n ==> Signals(s.enqueuers) > 0)
            && (s.destroyer == Finished ==> Asleep(s.workers) == 0)
  {
    hide Tally, Run, Possible, Owned, Exclusive;
    InitialInv(n, m);
    RunKeeps(Initial(n, m), acts);
  }

  // ----- Progress

  /** A step that neither brings new work nor depends on chance. */
  ghost predicate Useful(s: State, a: Action) {
    Enabled(s, a) && !a.EnqueueLock? && !a.SpuriousWake? && !a.DestroyLock?
  }

  /** Whoever holds the lock can go on. */
  lemma HolderMoves(s: State)
    requires Exclusive(s) && s.locked
    ensures exists a :: Useful(s, a)
  {
    hide Tally;
    if WorkersInside(s.workers) > 0 {
      var i := TallyFind(s.workers, IsInside);
      assert Useful(s, if s.workers[i] == Checking then Check(i) else WorkerUnlock(i));
    } else if EnqueuersInside(s.enqueuers) > 0 {
      var i := TallyFind(s.enqueuers, Enqueues);
      assert Useful(s, if s.enqueuers[i] == Linked then EnqueueUnlock(i) else Link(i));
    } else {
      assert Useful(s, if s.destroyer == Draining then Drain else DestroyUnlock);
    }
  }

  lemma SignalMoves(s: State)
    requires Exclusive(s) && !s.locked && Signals(s.enqueuers) > 0
    ensures exists a :: Useful(s, a)
  {
    hide Tally;
    var i := TallyFind(s.enqueuers, WillSignal);
    if s.enqueuers[i] == Linked {
      TallyOne(s.enqueuers, Enqueues, i);
    }
    var j: nat := 0;
    if Asleep(s.workers) > 0 {
      j := TallyFind(s.workers, IsAsleep);
    }
    assert Useful(s, Signal(i, j));
  }

  lemma WorkerMoves(s: State)
    requires Exclusive(s) && Counted(s) && !s.locked && !s.done && Asleep(s.workers) < |s.workers|
    ensures exists a :: Useful(s, a)
  {
    hide Tally;
    var i := TallyMiss(s.workers, IsAsleep);
    if IsInside(s.workers[i]) {
      TallyOne(s.workers, IsInside, i);
    }
    if HasLeft(s.workers[i]) {
      TallyOne(s.workers, HasLeft, i);
    }
    assert Useful(s, if s.workers[i].Running? then Finish(i) else WorkerLock(i));
  }

  /** While work is queued some thread can go on, without new work, a shutdown or a spurious wake-up: work is never
      stranded beside sleeping workers. */
  lemma NeverStuck(s: State)
    requires Inv(s) && !s.done && s.queue != [] && s.workers != []
    ensures exists a :: Useful(s, a)
  {
    hide Tally, Exclusive, Counted, Fifo, Owned, Useful;
    if s.locked {
      HolderMoves(s);
    } else if Signals(s.enqueuers) > 0 {
      SignalMoves(s);
    } else {
      WorkerMoves(s);
    }
  }
}
