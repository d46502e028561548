/** The thread pool as a state machine: worker threads, callers that add tasks, and one
    caller that destroys the pool, interleaved at every lock, wait, signal and shared access. */
module ThreadPool {

  type Task = int

  /** Where a worker thread stands in `threadpool_handle`. */
  datatype Thread =
    | Locking                  // before the lock
    | Testing                  // lock held, at the loop test
    | Deciding                 // lock held, test said wait, wait not yet entered
    | Waiting                  // blocked on the condition, lock released
    | Woken                    // signalled, must take the lock again
    | Checking                 // lock held, loop left, at the shutdown test
    | Leaving                  // lock held, about to unlock and exit
    | Taking                   // lock held, at the two assertions
    | Dequeuing                // lock held, counter already lowered
    | Unlocking(got: Task)     // lock held, task in hand
    | Running(task: Task)      // lock released, task in hand
    | Exited

  /** Where a caller stands in `threadpool_add_worker`. */
  datatype Adder =
    | Entering(t: Task)        // before the lock
    | Enqueuing(item: Task)    // lock held
    | Counting                 // lock held, task queued, counter not yet raised
    | Releasing                // lock held, counter raised
    | Signalling               // lock released, signal still to come
    | Done

  /** Where the caller of `threadpool_destroy` stands. */
  datatype Destroyer = Absent | Broadcasting | Joining | Draining | Destroyed

  datatype Owner = Free | ByThread(i: nat) | ByAdder(j: nat)

  /** `added`, `taken`, `ran` and `discarded` record the tasks in the order they were queued,
      dequeued (with the thread), run (with the thread) and drained. `stale` is set when a caller
      of `threadpool_add_worker` touches the pool after it was freed; nothing happens any more then. */
  datatype Pool = Pool(
    threads: seq<Thread>,
    adders: seq<Adder>,
    destroyer: Destroyer,
    lock: Owner,
    queue: seq<Task>,
    cur: int,
    shutdown: bool,
    added: seq<Task>,
    taken: seq<(nat, Task)>,
    ran: seq<(nat, Task)>,
    discarded: seq<Task>,
    stale: bool)

  datatype Action =
    | Call(t: Task)            // someone calls threadpool_add_worker
    | Add(j: nat)              // caller j takes a step other than signalling
    | Signal(j: nat, k: nat)   // caller j signals; thread k wakes, if any thread waits
    | Work(i: nat)             // thread i takes a step
    | Spurious(i: nat)         // thread i wakes without a signal
    | Destroy                  // the destroying caller takes a step

  predicate HoldsT(t: Thread) {
    t in {Testing, Deciding, Checking, Leaving, Taking, Dequeuing} || t.Unlocking?
  }

  predicate HoldsA(a: Adder) {
    a.Enqueuing? || a == Counting || a == Releasing
  }

  /** `threadpool_init`. */
  function Init(n: nat): Pool {
    Pool(seq(n, _ => Locking), [], Absent, Free, [], 0, false, [], [], [], [], false)
  }

  function StepAdder(s: Pool, j: nat): Pool
    requires j < |s.adders|
  {
    match s.adders[j]
    case Entering(t) =>
      if s.lock == Free then s.(lock := ByAdder(j), adders := s.adders[j := Enqueuing(t)]) else s
    case Enqueuing(t) =>
      s.(queue := s.queue + [t], added := s.added + [t], adders := s.adders[j := Counting])
    case Counting => s.(cur := s.cur + 1, adders := s.adders[j := Releasing])
    case Releasing => s.(lock := Free, adders := s.adders[j := Signalling])
    case Signalling => s
    case Done => s
  }

  function StepSignal(s: Pool, j: nat, k: nat): Pool
    requires j < |s.adders|
  {
    if s.adders[j] != Signalling then s
    else if k < |s.threads| && s.threads[k] == Waiting then
      s.(adders := s.adders[j := Done], threads := s.threads[k := Woken])
    else if forall i :: 0 <= i < |s.threads| ==> s.threads[i] != Waiting then s.(adders := s.adders[j := Done])
    else s
  }

  function StepThread(s: Pool, i: nat): Pool
    requires i < |s.threads|
  {
    match s.threads[i]
    case Locking => if s.lock == Free then s.(lock := ByThread(i), threads := s.threads[i := Testing]) else s
    case Woken => if s.lock == Free then s.(lock := ByThread(i), threads := s.threads[i := Testing]) else s
    case Testing => s.(threads := s.threads[i := if s.cur == 0 && !s.shutdown then Deciding else Checking])
    case Deciding => s.(lock := Free, threads := s.threads[i := Waiting])
    case Waiting => s
    case Checking => s.(threads := s.threads[i := if s.shutdown then Leaving else Taking])
    case Leaving => s.(lock := Free, threads := s.threads[i := Exited])
    case Taking => s.(cur := s.cur - 1, threads := s.threads[i := Dequeuing])
    case Dequeuing =>
      if s.queue == [] then s
      else
        s.(queue := s.queue[1..], taken := s.taken + [(i, s.queue[0])],
           threads := s.threads[i := Unlocking(s.queue[0])])
    case Unlocking(t) => s.(lock := Free, threads := s.threads[i := Running(t)])
    case Running(t) => s.(ran := s.ran + [(i, t)], threads := s.threads[i := Locking])
    case Exited => s
  }

  function WakeAll(ts: seq<Thread>): (r: seq<Thread>)
    ensures |r| == |ts| && forall i :: 0 <= i < |ts| ==> r[i] == if ts[i] == Waiting then Woken else ts[i]
  {
    if ts == [] then []
    else WakeAll(ts[..|ts| - 1]) + [if ts[|ts| - 1] == Waiting then Woken else ts[|ts| - 1]]
  }

  predicate AllExited(s: Pool) {
    forall i :: 0 <= i < |s.threads| ==> s.threads[i] == Exited
  }

  /** Every call of `threadpool_add_worker` has returned. */
  predicate AllReturned(s: Pool) {
    forall j :: 0 <= j < |s.adders| ==> s.adders[j] == Done
  }

  /** `threadpool_destroy`; setting the flag and broadcasting happen without the lock. */
  function StepDestroy(s: Pool): Pool {
    match s.destroyer
    case Absent => s.(shutdown := true, destroyer := Broadcasting)
    case Broadcasting => s.(threads := WakeAll(s.threads), destroyer := Joining)
    case Joining => if AllExited(s) then s.(destroyer := Draining) else s
    case Draining =>
      if s.queue == [] then s.(destroyer := Destroyed)
      else s.(queue := s.queue[1..], discarded := s.discarded + [s.queue[0]])
    case Destroyed => s
  }

  /** The action makes a caller of `threadpool_add_worker` read or write the pool. */
  predicate Touches(s: Pool, a: Action) {
    match a
    case Add(j) => j < |s.adders| && s.adders[j] != Signalling && s.adders[j] != Done
    case Signal(j, _) => j < |s.adders| && s.adders[j] == Signalling
    case _ => false
  }

  function Next(s: Pool, a: Action): Pool {
    if s.stale then s
    else if s.destroyer == Destroyed && Touches(s, a) then s.(stale := true)
    else
      match a
      case Call(t) => s.(adders := s.adders + [Entering(t)])
      case Add(j) => if j < |s.adders| then StepAdder(s, j) else s
      case Signal(j, k) => if j < |s.adders| then StepSignal(s, j, k) else s
      case Work(i) => if i < |s.threads| then StepThread(s, i) else s
      case Spurious(i) =>
        if i < |s.threads| && s.threads[i] == Waiting then s.(threads := s.threads[i := Woken]) else s
      case Destroy => StepDestroy(s)
  }

  function Run(n: nat, acts: seq<Action>): Pool {
    if acts == [] then Init(n) else Next(Run(n, acts[..|acts| - 1]), acts[|acts| - 1])
  }

  // ------------------------------------------------------------ lock, counter, assertions

  ghost predicate LockOk(s: Pool) {
    && (forall i :: 0 <= i < |s.threads| ==> (HoldsT(s.threads[i]) <==> s.lock == ByThread(i)))
    && (forall j :: 0 <= j < |s.adders| ==> (HoldsA(s.adders[j]) <==> s.lock == ByAdder(j)))
    && (s.lock.ByThread? ==> s.lock.i < |s.threads|)
    && (s.lock.ByAdder? ==> s.lock.j < |s.adders|)
  }

  /** How many queued tasks the counter does not show yet, or no longer shows. */
  function Lag(s: Pool): int {
    match s.lock
    case Free => 0
    case ByThread(i) => if i < |s.threads| && s.threads[i] == Dequeuing then 1 else 0
    case ByAdder(j) => if j < |s.adders| && s.adders[j] == Counting then 1 else 0
  }

  /** Until the final drain the counter is the queue length, up to the lock holder's own step. */
  ghost predicate CountOk(s: Pool) {
    s.destroyer in {Absent, Broadcasting, Joining} ==> s.cur == |s.queue| - Lag(s)
  }

  /** What a thread knows at each point while it holds the lock. */
  ghost predicate ThreadOk(s: Pool, i: nat) {
    i < |s.threads| ==>
      && (s.threads[i] == Deciding ==> s.cur == 0)
      && (s.threads[i] == Checking ==> s.cur != 0 || s.shutdown)
      && (s.threads[i] == Taking ==> s.cur != 0 && s.queue != [])
      && (s.threads[i] == Dequeuing ==> s.queue != [])
      && (s.threads[i] in {Leaving, Exited} ==> s.shutdown)
  }

  ghost predicate DestroyOk(s: Pool) {
    && (s.shutdown <==> s.destroyer != Absent)
    && (s.destroyer in {Draining, Destroyed} ==> AllExited(s))
    && (s.destroyer in {Absent, Broadcasting, Joining} ==> s.discarded == [])
    && (s.destroyer == Destroyed ==> s.queue == [])
  }

  ghost predicate Safe(s: Pool) {
    LockOk(s) && CountOk(s) && DestroyOk(s) && forall i: nat :: ThreadOk(s, i)
  }

  lemma SafeAdder(s: Pool, j: nat)
    requires Safe(s) && j < |s.adders| && (s.destroyer == Destroyed ==> !Touches(s, Add(j)))
    ensures Safe(StepAdder(s, j))
  {
    var t := StepAdder(s, j);
    forall i: nat ensures ThreadOk(t, i) { assert ThreadOk(s, i); }
  }

  lemma SafeSignal(s: Pool, j: nat, k: nat)
    requires Safe(s) && j < |s.adders|
    ensures Safe(StepSignal(s, j, k))
  {
    var t := StepSignal(s, j, k);
    forall i: nat ensures ThreadOk(t, i) { assert ThreadOk(s, i); }
  }

  lemma SafeThreadLock(s: Pool, i: nat)
    requires LockOk(s) && i < |s.threads|
    ensures LockOk(StepThread(s, i))
  {
  }

  lemma SafeThreadCount(s: Pool, i: nat)
    requires Safe(s) && i < |s.threads|
    ensures CountOk(StepThread(s, i)) && DestroyOk(StepThread(s, i))
  {
    assert ThreadOk(s, i);
  }

  /** Thread `i` steps; thread `k` may be the same or another. */
  lemma SafeThreadKnows(s: Pool, i: nat, k: nat)
    requires Safe(s) && i < |s.threads|
    ensures ThreadOk(StepThread(s, i), k)
  {
    assert ThreadOk(s, i) && ThreadOk(s, k);
  }

  lemma SafeThread(s: Pool, i: nat)
    requires Safe(s) && i < |s.threads|
    ensures Safe(StepThread(s, i))
  {
    SafeThreadLock(s, i);
    SafeThreadCount(s, i);
    forall k: nat ensures ThreadOk(StepThread(s, i), k) { SafeThreadKnows(s, i, k); }
  }

  lemma SafeDestroy(s: Pool)
    requires Safe(s)
    ensures Safe(StepDestroy(s))
  {
    var t := StepDestroy(s);
    forall i: nat ensures ThreadOk(t, i) { assert ThreadOk(s, i); }
  }

  lemma SafeNext(s: Pool, a: Action)
    requires Safe(s)
    ensures Safe(Next(s, a))
  {
    if s.stale || (s.destroyer == Destroyed && Touches(s, a)) {
      forall i: nat ensures ThreadOk(s.(stale := true), i) { assert ThreadOk(s, i); }
      return;
    }
    match a
    case Add(j) => if j < |s.adders| { SafeAdder(s, j); }
    case Signal(j, k) => if j < |s.adders| { SafeSignal(s, j, k); }
    case Work(i) => if i < |s.threads| { SafeThread(s, i); }
    case Destroy => SafeDestroy(s);
    case Call(_) =>
      var t := Next(s, a);
      forall i: nat ensures ThreadOk(t, i) { assert ThreadOk(s, i); }
    case Spurious(_) =>
      var t := Next(s, a);
      forall i: nat ensures ThreadOk(t, i) { assert ThreadOk(s, i); }
  }

  /** In every reachable state the lock has at most its one holder, the counter is exact, and the
      two assertions before dequeuing hold. */
  lemma {:induction false} RunSafe(n: nat, acts: seq<Action>)
    ensures Safe(Run(n, acts))
  {
    if acts != [] {
      RunSafe(n, acts[..|acts| - 1]);
      SafeNext(Run(n, acts[..|acts| - 1]), acts[|acts| - 1]);
    }
  }

  /** Whenever the lock is free before the final drain, `cur_queue_size` is the queue's length. */
  lemma CounterExactWhenFree(n: nat, acts: seq<Action>)
    ensures var s := Run(n, acts);
      s.lock == Free && s.destroyer in {Absent, Broadcasting, Joining} ==> s.cur == |s.queue|
  {
    RunSafe(n, acts);
  }

  // --------------------------------------------------------------- no wake-up is lost

  function Asleep(ts: seq<Thread>): nat {
    if ts == [] then 0 else Asleep(ts[..|ts| - 1]) + if ts[|ts| - 1] == Waiting then 1 else 0
  }

  predicate Owes(a: Adder) {
    a in {Counting, Releasing, Signalling}
  }

  /** Callers that have queued a task and whose signal is still to come. */
  function Owed(js: seq<Adder>): nat {
    if js == [] then 0 else Owed(js[..|js| - 1]) + if Owes(js[|js| - 1]) then 1 else 0
  }

  lemma {:induction false} AsleepUpdate(ts: seq<Thread>, i: nat, t: Thread)
    requires i < |ts|
    ensures Asleep(ts[i := t]) == Asleep(ts) - (if ts[i] == Waiting then 1 else 0) + (if t == Waiting then 1 else 0)
  {
    var n := |ts| - 1;
    if i < n {
      AsleepUpdate(ts[..n], i, t);
      assert ts[i := t][..n] == ts[..n][i := t];
    } else {
      assert ts[i := t][..n] == ts[..n];
    }
  }

  lemma {:induction false} OwedUpdate(js: seq<Adder>, j: nat, a: Adder)
    requires j < |js|
    ensures Owed(js[j := a]) == Owed(js) - (if Owes(js[j]) then 1 else 0) + (if Owes(a) then 1 else 0)
  {
    var n := |js| - 1;
    if j < n {
      OwedUpdate(js[..n], j, a);
      assert js[j := a][..n] == js[..n][j := a];
    } else {
      assert js[j := a][..n] == js[..n];
    }
  }

  lemma {:induction false} AsleepBounds(ts: seq<Thread>)
    ensures Asleep(ts) <= |ts|
    ensures Asleep(ts) > 0 <==> exists i :: 0 <= i < |ts| && ts[i] == Waiting
    ensures Asleep(ts) < |ts| <==> exists i :: 0 <= i < |ts| && ts[i] != Waiting
  {
    if ts != [] {
      var n := |ts| - 1;
      AsleepBounds(ts[..n]);
      forall i | 0 <= i < n ensures ts[..n][i] == ts[i] { }
      assert (exists i :: 0 <= i < |ts| && ts[i] == Waiting) <==>
             ts[n] == Waiting || exists i :: 0 <= i < n && ts[..n][i] == Waiting;
      assert (exists i :: 0 <= i < |ts| && ts[i] != Waiting) <==>
             ts[n] != Waiting || exists i :: 0 <= i < n && ts[..n][i] != Waiting;
    }
  }

  lemma {:induction false} OwedSome(js: seq<Adder>)
    ensures Owed(js) > 0 ==> exists j :: 0 <= j < |js| && Owes(js[j])
  {
    if js != [] {
      var n := |js| - 1;
      OwedSome(js[..n]);
      if j :| 0 <= j < n && Owes(js[..n][j]) { assert Owes(js[j]); }
    }
  }

  /** Before shutdown, while some thread sleeps there are at least as many awake threads and
      signals to come as there are queued tasks. */
  ghost predicate Alert(s: Pool) {
    !s.shutdown && Asleep(s.threads) > 0 ==> |s.queue| <= Owed(s.adders) + |s.threads| - Asleep(s.threads)
  }

  lemma AlertThread(s: Pool, i: nat)
    requires Safe(s) && Alert(s) && i < |s.threads|
    ensures Alert(StepThread(s, i))
  {
    var t := StepThread(s, i);
    assert ThreadOk(s, i);
    if t != s { AsleepUpdate(s.threads, i, t.threads[i]); }
    AsleepBounds(s.threads);
    AsleepBounds(t.threads);
  }

  lemma AlertSignal(s: Pool, j: nat, k: nat)
    requires Alert(s) && j < |s.adders|
    ensures Alert(StepSignal(s, j, k))
  {
    var t := StepSignal(s, j, k);
    if t != s {
      OwedUpdate(s.adders, j, Done);
      AsleepBounds(s.threads);
      if t.threads != s.threads { AsleepUpdate(s.threads, k, Woken); }
    }
  }

  lemma AlertNext(s: Pool, a: Action)
    requires Safe(s) && Alert(s)
    ensures Alert(Next(s, a))
  {
    var t := Next(s, a);
    match a
    case Call(_) => if t != s { assert t.adders[..|s.adders|] == s.adders; }
    case Add(j) =>
      if t != s { OwedUpdate(s.adders, j, t.adders[j]); }
    case Signal(j, k) => if j < |s.adders| { AlertSignal(s, j, k); }
    case Work(i) => if t != s { AlertThread(s, i); }
    case Spurious(i) => if t != s { AsleepUpdate(s.threads, i, Woken); }
    case Destroy =>
  }

  lemma SignalWakesOne(s: Pool, j: nat, k: nat)
    requires j < |s.adders| && s.adders[j] == Signalling
    ensures var t := StepSignal(s, j, k);
      && Asleep(t.threads) >= Asleep(s.threads) - 1
      && (t.adders[j] == Done ==> Asleep(t.threads) == if Asleep(s.threads) == 0 then 0 else Asleep(s.threads) - 1)
  {
    AsleepBounds(s.threads);
    if k < |s.threads| && s.threads[k] == Waiting { AsleepUpdate(s.threads, k, Woken); }
  }

  lemma WorkWakesNone(s: Pool, i: nat)
    requires i < |s.threads|
    ensures Asleep(StepThread(s, i).threads) >= Asleep(s.threads)
  {
    var t := StepThread(s, i);
    AsleepUpdate(s.threads, i, t.threads[i]);
    assert t.threads == s.threads[i := t.threads[i]];
  }

  /** Apart from the broadcast, no action wakes more than one thread, and a caller's signal wakes one
      whenever any sleeps; the broadcast wakes all. */
  lemma WakesAtMostOne(s: Pool, a: Action)
    requires !s.stale && s.destroyer != Destroyed
    ensures var t := Next(s, a); var all := a == Destroy && s.destroyer == Broadcasting;
      && (if all then Asleep(t.threads) == 0 else Asleep(t.threads) >= Asleep(s.threads) - 1)
      && (a.Signal? && a.j < |s.adders| && s.adders[a.j] == Signalling && t.adders[a.j] == Done ==>
            Asleep(t.threads) == if Asleep(s.threads) == 0 then 0 else Asleep(s.threads) - 1)
  {
    var t := Next(s, a);
    AsleepBounds(t.threads);
    if a.Signal? && a.j < |s.adders| && s.adders[a.j] == Signalling {
      SignalWakesOne(s, a.j, a.k);
    } else if a.Work? && a.i < |s.threads| {
      WorkWakesNone(s, a.i);
    } else if a.Spurious? && a.i < |s.threads| && s.threads[a.i] == Waiting {
      AsleepUpdate(s.threads, a.i, Woken);
    }
  }

  /** No wake-up is lost: in every reachable state before shutdown, counting threads that are not
      waiting and signals still to come, there is one for every queued task, or every thread is awake. */
  lemma {:induction false} NoLostWakeup(n: nat, acts: seq<Action>)
    ensures var s := Run(n, acts); Alert(s)
    ensures var s := Run(n, acts);
      !s.shutdown && s.queue != [] && |s.threads| > 0 ==>
        || (exists i :: 0 <= i < |s.threads| && s.threads[i] != Waiting)
        || (exists j :: 0 <= j < |s.adders| && Owes(s.adders[j]))
  {
    if acts != [] {
      NoLostWakeup(n, acts[..|acts| - 1]);
      RunSafe(n, acts[..|acts| - 1]);
      AlertNext(Run(n, acts[..|acts| - 1]), acts[|acts| - 1]);
    }
    var s := Run(n, acts);
    AsleepBounds(s.threads);
    OwedSome(s.adders);
  }

  // ------------------------------------------------------- what becomes of every task

  function Tasks(ps: seq<(nat, Task)>): (r: seq<Task>)
    ensures |r| == |ps|
  {
    if ps == [] then [] else Tasks(ps[..|ps| - 1]) + [ps[|ps| - 1].1]
  }

  /** The tasks thread `i` is recorded with, in order. */
  function Of(ps: seq<(nat, Task)>, i: nat): seq<Task> {
    if ps == [] then []
    else Of(ps[..|ps| - 1], i) + if ps[|ps| - 1].0 == i then [ps[|ps| - 1].1] else []
  }

  function InHand(t: Thread): seq<Task> {
    match t
    case Unlocking(k) => [k]
    case Running(k) => [k]
    case _ => []
  }

  /** Tasks leave in the order they came: first those taken, then those drained, then the queue. */
  ghost predicate InOrder(s: Pool) {
    s.added == Tasks(s.taken) + s.discarded + s.queue
  }

  /** Thread `i` has run exactly what it took, but for the task in its hands. */
  ghost predicate RunsOwn(s: Pool, i: nat) {
    i < |s.threads| ==> Of(s.taken, i) == Of(s.ran, i) + InHand(s.threads[i])
  }

  lemma HistoryAppend(ps: seq<(nat, Task)>, p: (nat, Task), i: nat)
    ensures Tasks(ps + [p]) == Tasks(ps) + [p.1]
    ensures Of(ps + [p], i) == Of(ps, i) + if p.0 == i then [p.1] else []
  {
    assert (ps + [p])[..|ps|] == ps;
  }

  lemma FirstMoves(a: seq<Task>, q: seq<Task>)
    requires q != []
    ensures a + [] + q == (a + [q[0]]) + [] + q[1..]
  {
  }

  lemma InOrderTake(s: Pool, i: nat)
    requires InOrder(s) && s.discarded == [] && i < |s.threads| && s.threads[i] == Dequeuing && s.queue != []
    ensures InOrder(StepThread(s, i))
  {
    HistoryAppend(s.taken, (i, s.queue[0]), i);
    FirstMoves(Tasks(s.taken), s.queue);
  }

  lemma InOrderDrain(s: Pool)
    requires InOrder(s) && s.queue != []
    ensures s.added == Tasks(s.taken) + (s.discarded + [s.queue[0]]) + s.queue[1..]
  {
    assert s.queue == [s.queue[0]] + s.queue[1..];
  }

  lemma OnlyTakingMoves(s: Pool, i: nat)
    requires i < |s.threads| && s.threads[i] != Dequeuing
    ensures var t := StepThread(s, i);
      t.added == s.added && t.taken == s.taken && t.discarded == s.discarded && t.queue == s.queue
  {
  }

  lemma InOrderThread(s: Pool, i: nat)
    requires Safe(s) && InOrder(s) && i < |s.threads|
    ensures InOrder(StepThread(s, i))
  {
    if s.threads[i] == Dequeuing {
      assert ThreadOk(s, i) && DestroyOk(s);
      InOrderTake(s, i);
    } else {
      OnlyTakingMoves(s, i);
    }
  }

  lemma InOrderAdder(s: Pool, j: nat)
    requires InOrder(s) && j < |s.adders|
    ensures InOrder(StepAdder(s, j))
  {
    if s.adders[j].Enqueuing? {
      var t := match s.adders[j] case Enqueuing(x) => [x];
      assert Tasks(s.taken) + s.discarded + s.queue + t == Tasks(s.taken) + s.discarded + (s.queue + t);
    } else {
      var t := StepAdder(s, j);
      assert t.added == s.added && t.taken == s.taken && t.discarded == s.discarded && t.queue == s.queue;
    }
  }

  lemma InOrderNext(s: Pool, a: Action)
    requires Safe(s) && InOrder(s)
    ensures InOrder(Next(s, a))
  {
    match a
    case Work(i) => if i < |s.threads| { InOrderThread(s, i); }
    case Destroy => if s.destroyer == Draining && s.queue != [] { InOrderDrain(s); }
    case Add(j) => if j < |s.adders| { InOrderAdder(s, j); }
    case Call(_) =>
    case Signal(_, _) =>
    case Spurious(_) =>
  }

  lemma RunsOwnTake(s: Pool, i: nat, k: nat)
    requires RunsOwn(s, k) && i < |s.threads| && s.threads[i] == Dequeuing && s.queue != []
    ensures RunsOwn(StepThread(s, i), k)
  {
    HistoryAppend(s.taken, (i, s.queue[0]), k);
  }

  lemma RunsOwnFinish(s: Pool, i: nat, k: nat)
    requires RunsOwn(s, k) && i < |s.threads| && s.threads[i].Running?
    ensures RunsOwn(StepThread(s, i), k)
  {
    HistoryAppend(s.ran, (i, s.threads[i].task), k);
  }

  lemma RunsOwnThread(s: Pool, i: nat, k: nat)
    requires RunsOwn(s, k) && i < |s.threads|
    ensures RunsOwn(StepThread(s, i), k)
  {
    if s.threads[i] == Dequeuing && s.queue != [] {
      RunsOwnTake(s, i, k);
    } else if s.threads[i].Running? {
      RunsOwnFinish(s, i, k);
    } else {
      var t := StepThread(s, i);
      assert t.taken == s.taken && t.ran == s.ran;
      assert k < |s.threads| ==> InHand(t.threads[k]) == InHand(s.threads[k]);
    }
  }

  lemma RunsOwnNext(s: Pool, a: Action, k: nat)
    requires RunsOwn(s, k)
    ensures RunsOwn(Next(s, a), k)
  {
    var t := Next(s, a);
    if a.Work? {
      if a.i < |s.threads| { RunsOwnThread(s, a.i, k); }
    } else {
      assert t.taken == s.taken && t.ran == s.ran && |t.threads| == |s.threads|;
      assert k < |s.threads| ==> InHand(t.threads[k]) == InHand(s.threads[k]);
    }
  }

  /** Every task taken or run is some thread's. */
  ghost predicate Attributed(s: Pool) {
    (forall p :: p in s.taken ==> p.0 < |s.threads|) && (forall p :: p in s.ran ==> p.0 < |s.threads|)
  }

  lemma AttributedThread(s: Pool, i: nat)
    requires Attributed(s) && i < |s.threads|
    ensures Attributed(StepThread(s, i))
  {
    assert |StepThread(s, i).threads| == |s.threads|;
  }

  lemma AttributedNext(s: Pool, a: Action)
    requires Attributed(s)
    ensures Attributed(Next(s, a))
  {
    var t := Next(s, a);
    if a.Work? {
      if a.i < |s.threads| { AttributedThread(s, a.i); }
    } else {
      assert |t.threads| == |s.threads| && t.taken == s.taken && t.ran == s.ran;
    }
  }

  lemma {:induction false} RunAccounts(n: nat, acts: seq<Action>, i: nat)
    ensures var s := Run(n, acts); InOrder(s) && RunsOwn(s, i) && Attributed(s)
  {
    if acts != [] {
      var s := Run(n, acts[..|acts| - 1]);
      RunAccounts(n, acts[..|acts| - 1], i);
      RunSafe(n, acts[..|acts| - 1]);
      InOrderNext(s, acts[|acts| - 1]);
      RunsOwnNext(s, acts[|acts| - 1], i);
      AttributedNext(s, acts[|acts| - 1]);
    }
  }

  /** The tasks handed to `threadpool_add_worker`, read off the actions alone. */
  function Handed(acts: seq<Action>): seq<Task> {
    if acts == [] then []
    else Handed(acts[..|acts| - 1]) + if acts[|acts| - 1].Call? then [acts[|acts| - 1].t] else []
  }

  /** How often task `x` occurs. */
  function Times(ts: seq<Task>, x: Task): nat {
    if ts == [] then 0 else Times(ts[..|ts| - 1], x) + if ts[|ts| - 1] == x then 1 else 0
  }

  lemma {:induction false} TimesIs(ts: seq<Task>, x: Task)
    ensures multiset(ts)[x] == Times(ts, x)
  {
    if ts != [] {
      TimesIs(ts[..|ts| - 1], x);
      assert ts == ts[..|ts| - 1] + [ts[|ts| - 1]];
    }
  }

  lemma TimesMore(ts: seq<Task>, t: Task, x: Task)
    ensures Times(ts + [t], x) == Times(ts, x) + if t == x then 1 else 0
  {
    assert (ts + [t])[..|ts|] == ts;
  }

  /** The caller has task `x` and has not queued it yet. */
  predicate Carries(a: Adder, x: Task) {
    a == Entering(x) || a == Enqueuing(x)
  }

  function Carried(js: seq<Adder>, x: Task): nat {
    if js == [] then 0 else Carried(js[..|js| - 1], x) + if Carries(js[|js| - 1], x) then 1 else 0
  }

  lemma {:induction false} CarriedUpdate(js: seq<Adder>, j: nat, a: Adder, x: Task)
    requires j < |js|
    ensures Carried(js[j := a], x) ==
            Carried(js, x) - (if Carries(js[j], x) then 1 else 0) + (if Carries(a, x) then 1 else 0)
  {
    var n := |js| - 1;
    if j < n {
      CarriedUpdate(js[..n], j, a, x);
      assert js[j := a][..n] == js[..n][j := a];
    } else {
      assert js[j := a][..n] == js[..n];
    }
  }

  lemma {:induction false} CarriedNone(js: seq<Adder>, x: Task)
    requires forall j :: 0 <= j < |js| ==> js[j] == Done
    ensures Carried(js, x) == 0
  {
    if js != [] { CarriedNone(js[..|js| - 1], x); }
  }

  lemma BalancedAdder(s: Pool, j: nat, x: Task)
    requires j < |s.adders|
    ensures var t := StepAdder(s, j);
      Times(t.added, x) + Carried(t.adders, x) == Times(s.added, x) + Carried(s.adders, x)
  {
    var t := StepAdder(s, j);
    CarriedUpdate(s.adders, j, t.adders[j], x);
    assert t.adders == s.adders[j := t.adders[j]];
    if s.adders[j].Enqueuing? { TimesMore(s.added, s.adders[j].item, x); }
  }

  lemma BalancedCall(s: Pool, t: Task, x: Task)
    ensures Carried(s.adders + [Entering(t)], x) == Carried(s.adders, x) + if t == x then 1 else 0
  {
    assert (s.adders + [Entering(t)])[..|s.adders|] == s.adders;
  }

  lemma BalancedNext(s: Pool, a: Action, x: Task)
    requires !Next(s, a).stale
    ensures var t := Next(s, a);
      Times(t.added, x) + Carried(t.adders, x) ==
      Times(s.added, x) + Carried(s.adders, x) + if a == Call(x) then 1 else 0
  {
    var t := Next(s, a);
    if a.Call? {
      BalancedCall(s, a.t, x);
    } else if a.Add? {
      if a.j < |s.adders| { BalancedAdder(s, a.j, x); }
    } else if a.Signal? {
      if t.adders != s.adders { CarriedUpdate(s.adders, a.j, Done, x); }
      assert t.added == s.added;
    } else {
      assert t.adders == s.adders && t.added == s.added;
    }
  }

  /** No task is lost or made up on its way in: in every run that has not gone stale, each task was handed
      over as often as it was added and callers still carry it. */
  lemma {:induction false} NothingLost(n: nat, acts: seq<Action>, x: Task)
    requires !Run(n, acts).stale
    ensures Times(Handed(acts), x) == Times(Run(n, acts).added, x) + Carried(Run(n, acts).adders, x)
  {
    if acts != [] {
      var pre, a := acts[..|acts| - 1], acts[|acts| - 1];
      NothingLost(n, pre, x);
      BalancedNext(Run(n, pre), a, x);
      if a.Call? { TimesMore(Handed(pre), a.t, x); } else { assert Handed(pre) + [] == Handed(pre); }
    }
  }

  /** So once every call has returned, the tasks handed over are those taken, those drained and those
      still queued. */
  lemma ReturnedAreQueued(n: nat, acts: seq<Action>)
    requires !Run(n, acts).stale && AllReturned(Run(n, acts))
    ensures var s := Run(n, acts); multiset(Handed(acts)) == multiset(Tasks(s.taken) + s.discarded + s.queue)
  {
    var s := Run(n, acts);
    RunAccounts(n, acts, 0);
    forall x ensures multiset(Handed(acts))[x] == multiset(s.added)[x] {
      NothingLost(n, acts, x);
      CarriedNone(s.adders, x);
      TimesIs(Handed(acts), x);
      TimesIs(s.added, x);
    }
  }

  /** What has happened stays: tasks are added, taken, run and drained at the end of their histories. */
  ghost predicate Extends(s: Pool, t: Pool) {
    s.added <= t.added && s.taken <= t.taken && s.ran <= t.ran && s.discarded <= t.discarded
  }

  lemma ExtendsNext(s: Pool, a: Action)
    ensures Extends(s, Next(s, a))
  {
  }

  /** So with `RunAccounts` tasks are taken in the order in which they were added, first in, first out. */
  lemma {:induction false} HistoriesGrow(n: nat, acts: seq<Action>, k: nat)
    requires k <= |acts|
    ensures Extends(Run(n, acts[..k]), Run(n, acts))
  {
    if k < |acts| {
      var pre := acts[..|acts| - 1];
      HistoriesGrow(n, pre, k);
      assert pre[..k] == acts[..k];
      ExtendsNext(Run(n, pre), acts[|acts| - 1]);
    } else {
      assert acts[..k] == acts;
    }
  }

  /** Once the pool is destroyed, the tasks taken and those discarded make up those added, in order,
      every thread has run exactly the tasks it took, and if every call has returned these are all the
      tasks ever handed over. */
  lemma DestroyedPartition(n: nat, acts: seq<Action>, i: nat)
    ensures var s := Run(n, acts);
      s.destroyer == Destroyed ==>
        && s.added == Tasks(s.taken) + s.discarded && Attributed(s)
        && (i < |s.threads| ==> Of(s.taken, i) == Of(s.ran, i))
        && (!s.stale && AllReturned(s) ==>
              multiset(Handed(acts)) == multiset(Tasks(s.taken) + s.discarded))
  {
    RunSafe(n, acts);
    RunAccounts(n, acts, i);
    var s := Run(n, acts);
    if s.destroyer == Destroyed && !s.stale && AllReturned(s) {
      ReturnedAreQueued(n, acts);
      assert Tasks(s.taken) + s.discarded + [] == Tasks(s.taken) + s.discarded;
    }
  }

  // ---------------------------------------------- when the shutdown broadcast is missed

  function RunFrom(s: Pool, acts: seq<Action>): Pool {
    if acts == [] then s else Next(RunFrom(s, acts[..|acts| - 1]), acts[|acts| - 1])
  }

  predicate Drowsy(t: Thread) {
    t == Deciding || t == Waiting
  }

  /** Past the broadcast, and no thread waits or is about to. */
  ghost predicate AllAwake(s: Pool) {
    s.shutdown && s.destroyer !in {Absent, Broadcasting} && forall i :: 0 <= i < |s.threads| ==> !Drowsy(s.threads[i])
  }

  lemma {:induction false} StayAwake(s: Pool, acts: seq<Action>)
    requires AllAwake(s)
    ensures AllAwake(RunFrom(s, acts))
  {
    if acts != [] { StayAwake(s, acts[..|acts| - 1]); }
  }

  ghost predicate NoneWaiting(s: Pool) {
    forall i :: 0 <= i < |s.threads| ==> s.threads[i] != Waiting
  }

  lemma WaitsAfterBroadcast(s: Pool, i: nat)
    requires !s.stale && s.destroyer == Broadcasting && i < |s.threads| && s.threads[i] == Deciding
    ensures !NoneWaiting(RunFrom(StepDestroy(s), [Work(i)]))
  {
    var t := StepDestroy(s);
    assert [Work(i)][..0] == [];
    assert RunFrom(t, [Work(i)]) == Next(RunFrom(t, []), Work(i));
    assert RunFrom(t, [Work(i)]).threads[i] == Waiting;
  }

  /** The broadcast comes without the lock. No thread can ever wait again after it if and only if
      no thread stood between its test and its wait at that moment. */
  lemma BroadcastReachesAllIff(s: Pool)
    requires !s.stale && s.destroyer == Broadcasting && s.shutdown
    ensures (forall acts :: NoneWaiting(RunFrom(StepDestroy(s), acts))) <==>
            (forall i :: 0 <= i < |s.threads| ==> s.threads[i] != Deciding)
  {
    if i: nat :| i < |s.threads| && s.threads[i] == Deciding {
      WaitsAfterBroadcast(s, i);
    } else {
      forall acts ensures NoneWaiting(RunFrom(StepDestroy(s), acts)) { StayAwake(StepDestroy(s), acts); }
    }
  }

  lemma RunExtends(n: nat, acts: seq<Action>, a: Action)
    ensures Run(n, acts + [a]) == Next(Run(n, acts), a)
  {
    assert (acts + [a])[..|acts|] == acts;
  }

  /** The thread finds nothing to do, and decides to wait. */
  lemma DecidesToWait()
    ensures var s := Run(1, [] + [Work(0)] + [Work(0)]);
      s == Init(1).(lock := ByThread(0), threads := [Deciding])
  {
    RunExtends(1, [], Work(0));
    RunExtends(1, [] + [Work(0)], Work(0));
    var s := Init(1);
    assert s.threads[0 := Testing] == [Testing] && [Testing][0 := Deciding] == [Deciding];
  }

  /** Such a run exists: the only thread sleeps through the shutdown it is joined for. */
  lemma MissedShutdown()
    ensures var s := Run(1, [] + [Work(0)] + [Work(0)] + [Destroy] + [Destroy] + [Work(0)]);
      s.threads == [Waiting] && s.destroyer == Joining
  {
    var a := [] + [Work(0)] + [Work(0)];
    DecidesToWait();
    RunExtends(1, a, Destroy);
    RunExtends(1, a + [Destroy], Destroy);
    RunExtends(1, a + [Destroy] + [Destroy], Work(0));
  }
}
