/** What a caller of `threadpool_destroy` can rely on, judged at the moment of the call. */
module PoolShutdown {
  import opened ThreadPool

  /** No action of the list is a new call of `threadpool_add_worker`. */
  ghost predicate NoCalls(acts: seq<Action>) {
    forall i :: 0 <= i < |acts| ==> !acts[i].Call?
  }

  /** Some interleaving of the calls already begun leads from `s` to `t`. */
  ghost predicate Leads(s: Pool, acts: seq<Action>, t: Pool) {
    NoCalls(acts) && RunFrom(s, acts) == t
  }

  lemma {:induction false} RunFromJoin(s: Pool, a: seq<Action>, b: seq<Action>)
    ensures RunFrom(s, a + b) == RunFrom(RunFrom(s, a), b)
  {
    if b == [] {
      assert a + b == a;
    } else {
      assert (a + b)[..|a + b| - 1] == a + b[..|b| - 1];
      RunFromJoin(s, a, b[..|b| - 1]);
    }
  }

  lemma LeadsOn(s: Pool, a: seq<Action>, t: Pool, b: seq<Action>, u: Pool)
    requires Leads(s, a, t) && Leads(t, b, u)
    ensures Leads(s, a + b, u)
  {
    RunFromJoin(s, a, b);
  }

  lemma LeadsStep(s: Pool, a: Action)
    requires !a.Call?
    ensures Leads(s, [a], Next(s, a))
  {
    assert [a][..0] == [];
    assert RunFrom(s, [a]) == Next(RunFrom(s, []), a);
  }

  /** One action first, then the rest. */
  lemma LeadsFirst(s: Pool, a: Action, b: seq<Action>, u: Pool)
    requires !a.Call? && Leads(Next(s, a), b, u)
    ensures Leads(s, [a] + b, u)
  {
    LeadsStep(s, a);
    LeadsOn(s, [a], Next(s, a), b, u);
  }

  lemma ReturnedNext(s: Pool, a: Action)
    requires !s.stale && AllReturned(s) && !a.Call?
    ensures !Next(s, a).stale && AllReturned(Next(s, a))
  {
    assert !Touches(s, a);
  }

  lemma {:induction false} StaysReturned(s: Pool, acts: seq<Action>)
    requires !s.stale && AllReturned(s) && NoCalls(acts)
    ensures !RunFrom(s, acts).stale && AllReturned(RunFrom(s, acts))
  {
    if acts != [] {
      var pre, a := acts[..|acts| - 1], acts[|acts| - 1];
      StaysReturned(s, pre);
      assert !a.Call?;
      ReturnedNext(RunFrom(s, pre), a);
    }
  }

  /** A state in which `threadpool_destroy` can be called. `RunSafe` says every reachable one is safe. */
  ghost predicate Open(s: Pool) {
    Safe(s) && !s.stale && s.destroyer == Absent
  }

  // ---------------------------------------------------------- the schedule to the freed pool

  /** Past the broadcast; every thread is awake, and caller `j` has not returned. */
  ghost predicate Closing(s: Pool, j: nat) {
    Safe(s) && AllAwake(s) && !s.stale && s.destroyer == Joining && j < |s.adders| && s.adders[j] != Done
  }

  /** How many steps a thread that meets the shutdown is from its exit. */
  function ToExit(t: Thread): nat {
    match t
    case Exited => 0
    case Leaving => 1
    case Checking => 2
    case Testing => 3
    case Locking => 4
    case Woken => 4
    case Running(_) => 5
    case Unlocking(_) => 6
    case Dequeuing => 7
    case Taking => 8
    case Deciding => 9
    case Waiting => 9
  }

  ghost predicate MayStep(s: Pool, i: nat) {
    i < |s.threads| && (s.lock == Free || s.lock == ByThread(i))
  }

  lemma NearerExit(s: Pool, i: nat, j: nat)
    requires Closing(s, j) && MayStep(s, i) && s.threads[i] != Exited
    ensures var t := Next(s, Work(i));
      && Closing(t, j) && MayStep(t, i) && ToExit(t.threads[i]) < ToExit(s.threads[i])
      && t.threads == s.threads[i := t.threads[i]] && t.adders == s.adders
  {
    SafeNext(s, Work(i));
    assert ThreadOk(s, i);
  }

  /** A thread that has the lock, or can have it, walks out. */
  lemma {:induction false} WalkOut(s: Pool, i: nat, j: nat) returns (acts: seq<Action>, t: Pool)
    requires Closing(s, j) && MayStep(s, i)
    ensures Leads(s, acts, t) && Closing(t, j) && t.lock == Free && t.threads == s.threads[i := Exited]
    decreases ToExit(s.threads[i])
  {
    if s.threads[i] == Exited {
      acts, t := [], s;
    } else {
      NearerExit(s, i, j);
      acts, t := WalkOut(Next(s, Work(i)), i, j);
      LeadsFirst(s, Work(i), acts, t);
      acts := [Work(i)] + acts;
    }
  }

  /** The destroying caller and the threads stand where they stood, and so far as returning goes, the callers. */
  ghost predicate OthersStand(s: Pool, t: Pool) {
    && t.threads == s.threads && t.destroyer == s.destroyer && t.shutdown == s.shutdown && |t.adders| == |s.adders|
    && forall x :: 0 <= x < |s.adders| ==> (t.adders[x] == Done <==> s.adders[x] == Done)
  }

  /** A caller that holds the lock goes on until it has released it. */
  lemma {:induction false} LetGo(s: Pool, k: nat) returns (acts: seq<Action>, t: Pool)
    requires Safe(s) && !s.stale && s.destroyer != Destroyed && k < |s.adders| && HoldsA(s.adders[k])
    ensures Leads(s, acts, t) && Safe(t) && !t.stale && t.lock == Free && OthersStand(s, t)
    ensures t.adders == s.adders[k := Signalling]
    decreases match s.adders[k] { case Enqueuing(_) => 2 case Counting => 1 case _ => 0 }
  {
    SafeNext(s, Add(k));
    var u := Next(s, Add(k));
    if s.adders[k] == Releasing {
      LeadsStep(s, Add(k));
      acts, t := [Add(k)], u;
    } else {
      acts, t := LetGo(u, k);
      LeadsFirst(s, Add(k), acts, t);
      acts := [Add(k)] + acts;
    }
  }

  /** Whoever has the lock gives it back. */
  lemma Unlock(s: Pool, j: nat) returns (acts: seq<Action>, t: Pool)
    requires Closing(s, j)
    ensures Leads(s, acts, t) && Closing(t, j) && t.lock == Free && |t.threads| == |s.threads|
  {
    match s.lock
    case Free => acts, t := [], s;
    case ByThread(i) => acts, t := WalkOut(s, i, j);
    case ByAdder(k) => acts, t := LetGo(s, k);
  }

  /** With the lock free, the threads walk out one by one. */
  lemma {:induction false} AllWalkOut(s: Pool, k: nat, j: nat) returns (acts: seq<Action>, t: Pool)
    requires Closing(s, j) && s.lock == Free && k <= |s.threads|
    requires forall i :: 0 <= i < k ==> s.threads[i] == Exited
    ensures Leads(s, acts, t) && Closing(t, j) && AllExited(t)
    decreases |s.threads| - k
  {
    if k == |s.threads| {
      acts, t := [], s;
    } else {
      var a, u := WalkOut(s, k, j);
      var b;
      b, t := AllWalkOut(u, k + 1, j);
      LeadsOn(s, a, u, b, t);
      acts := a + b;
    }
  }

  /** The queue is drained and the pool freed, though caller `j` has not returned. */
  lemma {:induction false} Drained(s: Pool, j: nat) returns (acts: seq<Action>, t: Pool)
    requires !s.stale && s.destroyer == Draining && j < |s.adders| && s.adders[j] != Done
    ensures Leads(s, acts, t) && !t.stale && t.destroyer == Destroyed && t.adders == s.adders
    decreases |s.queue|
  {
    if s.queue == [] {
      LeadsStep(s, Destroy);
      acts, t := [Destroy], Next(s, Destroy);
    } else {
      acts, t := Drained(Next(s, Destroy), j);
      LeadsFirst(s, Destroy, acts, t);
      acts := [Destroy] + acts;
    }
  }

  lemma FreedUnderCaller(s: Pool, j: nat) returns (acts: seq<Action>, t: Pool)
    requires Closing(s, j)
    ensures Leads(s, acts, t) && !t.stale && t.destroyer == Destroyed && j < |t.adders| && t.adders[j] != Done
  {
    var a, u := Unlock(s, j);
    var b, v := AllWalkOut(u, 0, j);
    LeadsOn(s, a, u, b, v);
    var c;
    c, t := Drained(Next(v, Destroy), j);
    LeadsFirst(v, Destroy, c, t);
    LeadsOn(s, a + b, v, [Destroy] + c, t);
    acts := a + b + ([Destroy] + c);
  }

  /** A thread about to wait does so. */
  lemma EnterWait(s: Pool) returns (acts: seq<Action>, t: Pool)
    requires Safe(s) && !s.stale && s.destroyer == Broadcasting
    ensures Leads(s, acts, t) && Safe(t) && !t.stale && t.destroyer == Broadcasting && t.adders == s.adders
    ensures forall i :: 0 <= i < |t.threads| ==> t.threads[i] != Deciding
  {
    acts, t := [], s;
    if s.lock.ByThread? && s.threads[s.lock.i] == Deciding {
      acts, t := [Work(s.lock.i)], Next(s, Work(s.lock.i));
      SafeNext(s, Work(s.lock.i));
      LeadsStep(s, Work(s.lock.i));
    }
  }

  lemma BroadcastCloses(s: Pool, j: nat)
    requires Safe(s) && !s.stale && s.destroyer == Broadcasting && j < |s.adders| && s.adders[j] != Done
    requires forall i :: 0 <= i < |s.threads| ==> s.threads[i] != Deciding
    ensures Closing(Next(s, Destroy), j)
  {
    SafeNext(s, Destroy);
  }

  /** The flag is set and the broadcast reaches every thread: one about to wait does so in between. */
  lemma ReachClosing(s: Pool, j: nat) returns (acts: seq<Action>, t: Pool)
    requires Open(s) && j < |s.adders| && s.adders[j] != Done
    ensures Leads(s, acts, t) && Closing(t, j)
  {
    SafeNext(s, Destroy);
    var a, u := EnterWait(Next(s, Destroy));
    LeadsFirst(s, Destroy, a, u);
    BroadcastCloses(u, j);
    LeadsStep(u, Destroy);
    t := Next(u, Destroy);
    LeadsOn(s, [Destroy] + a, u, [Destroy], t);
    acts := [Destroy] + a + [Destroy];
  }

  lemma TouchesFreed(s: Pool, j: nat) returns (a: Action)
    requires s.destroyer == Destroyed && !s.stale && j < |s.adders| && s.adders[j] != Done
    ensures !a.Call? && Next(s, a).stale
  {
    a := if s.adders[j] == Signalling then Signal(j, 0) else Add(j);
  }

  /** A call of `threadpool_add_worker` that has not returned can come to touch the freed pool. */
  lemma CanGoStale(s: Pool, j: nat) returns (acts: seq<Action>)
    requires Open(s) && j < |s.adders| && s.adders[j] != Done
    ensures NoCalls(acts) && RunFrom(s, acts).stale
  {
    var a, u := ReachClosing(s, j);
    var b, v := FreedUnderCaller(u, j);
    LeadsOn(s, a, u, b, v);
    var last := TouchesFreed(v, j);
    LeadsStep(v, last);
    LeadsOn(s, a + b, v, [last], Next(v, last));
    acts := a + b + [last];
  }

  /** `threadpool_destroy` waits for its threads and for no caller. Judged when it is called: no call of
      `threadpool_add_worker` already begun can come to touch the freed pool if and only if all of them
      have returned. It does not matter how far the others are, what is queued, or what the threads do. */
  lemma StaleUseIff(s: Pool)
    requires Open(s)
    ensures (forall acts :: NoCalls(acts) ==> !RunFrom(s, acts).stale) <==> AllReturned(s)
  {
    if j: nat :| j < |s.adders| && s.adders[j] != Done {
      var acts := CanGoStale(s, j);
    } else {
      forall acts | NoCalls(acts) ensures !RunFrom(s, acts).stale { StaysReturned(s, acts); }
    }
  }

  /** A pool in which one call has begun, in the course of its shutdown. */
  function OneCall(ts: seq<Thread>, lock: Owner, destroyer: Destroyer): Pool {
    Pool(ts, [Entering(7)], destroyer, lock, [], 0, destroyer != Absent, [], [], [], [], false)
  }

  lemma OneThreadWorks(t: Thread, lock: Owner, u: Thread, after: Owner)
    requires (t, u) in {(Locking, Testing), (Testing, Checking), (Checking, Leaving), (Leaving, Exited)}
    requires lock == (if t == Locking then Free else ByThread(0)) && after == if u == Exited then Free else ByThread(0)
    ensures Next(OneCall([t], lock, Joining), Work(0)) == OneCall([u], after, Joining)
  {
    assert [t][0 := u] == [u];
  }

  lemma OneCallDestroys(ts: seq<Thread>, d: Destroyer, e: Destroyer)
    requires forall i :: 0 <= i < |ts| ==> ts[i] != Waiting && (d == Joining ==> ts[i] == Exited)
    requires (d, e) in {(Absent, Broadcasting), (Broadcasting, Joining), (Joining, Draining), (Draining, Destroyed)}
    ensures Next(OneCall(ts, Free, d), Destroy) == OneCall(ts, Free, e)
  {
    if d == Broadcasting { assert WakeAll(ts) == ts; }
  }

  /** `s` is where the list leads; one more action. */
  lemma OneMore(n: nat, acts: seq<Action>, s: Pool, a: Action, t: Pool)
    requires Run(n, acts) == s && Next(s, a) == t
    ensures Run(n, acts + [a]) == t
  {
    RunExtends(n, acts, a);
  }

  lemma CallBegins(n: nat)
    ensures Run(n, [Call(7)]) == OneCall(Init(n).threads, Free, Absent)
  {
    assert [Call(7)][..0] == [] && Run(n, [Call(7)]) == Next(Run(n, []), Call(7));
    assert Init(n).adders + [Entering(7)] == [Entering(7)];
  }

  lemma ShutsDown(n: nat)
    ensures Run(n, [Call(7)] + [Destroy] + [Destroy]) == OneCall(Init(n).threads, Free, Joining)
  {
    var ts := Init(n).threads;
    CallBegins(n);
    OneCallDestroys(ts, Absent, Broadcasting);
    OneMore(n, [Call(7)], OneCall(ts, Free, Absent), Destroy, OneCall(ts, Free, Broadcasting));
    OneCallDestroys(ts, Broadcasting, Joining);
    OneMore(n, [Call(7)] + [Destroy], OneCall(ts, Free, Broadcasting), Destroy, OneCall(ts, Free, Joining));
  }

  lemma FreedThenTouched(n: nat, acts: seq<Action>, ts: seq<Thread>)
    requires Run(n, acts) == OneCall(ts, Free, Joining) && forall i :: 0 <= i < |ts| ==> ts[i] == Exited
    ensures Run(n, acts + [Destroy] + [Destroy] + [Add(0)]).stale
  {
    OneCallDestroys(ts, Joining, Draining);
    OneMore(n, acts, OneCall(ts, Free, Joining), Destroy, OneCall(ts, Free, Draining));
    OneCallDestroys(ts, Draining, Destroyed);
    OneMore(n, acts + [Destroy], OneCall(ts, Free, Draining), Destroy, OneCall(ts, Free, Destroyed));
    RunExtends(n, acts + [Destroy] + [Destroy], Add(0));
  }

  lemma ThreadLeaves(acts: seq<Action>)
    requires Run(1, acts) == OneCall([Locking], Free, Joining)
    ensures Run(1, acts + [Work(0)] + [Work(0)] + [Work(0)] + [Work(0)]) == OneCall([Exited], Free, Joining)
  {
    var a, b, c := OneCall([Testing], ByThread(0), Joining), OneCall([Checking], ByThread(0), Joining),
                   OneCall([Leaving], ByThread(0), Joining);
    OneThreadWorks(Locking, Free, Testing, ByThread(0));
    OneMore(1, acts, OneCall([Locking], Free, Joining), Work(0), a);
    OneThreadWorks(Testing, ByThread(0), Checking, ByThread(0));
    OneMore(1, acts + [Work(0)], a, Work(0), b);
    OneThreadWorks(Checking, ByThread(0), Leaving, ByThread(0));
    OneMore(1, acts + [Work(0)] + [Work(0)], b, Work(0), c);
    OneThreadWorks(Leaving, ByThread(0), Exited, Free);
    OneMore(1, acts + [Work(0)] + [Work(0)] + [Work(0)], c, Work(0), OneCall([Exited], Free, Joining));
  }

  /** Concretely, without threads: a call begins, the pool is destroyed, the call goes on. */
  lemma StaleRun()
    ensures Run(0, [Call(7)] + [Destroy] + [Destroy] + [Destroy] + [Destroy] + [Add(0)]).stale
  {
    ShutsDown(0);
    FreedThenTouched(0, [Call(7)] + [Destroy] + [Destroy], Init(0).threads);
  }

  /** With one thread, which leaves properly: the call is still overtaken. */
  lemma StaleRunOneThread()
    ensures Run(1, [Call(7)] + [Destroy] + [Destroy] + [Work(0)] + [Work(0)] + [Work(0)] + [Work(0)]
                   + [Destroy] + [Destroy] + [Add(0)]).stale
  {
    var a := [Call(7)] + [Destroy] + [Destroy];
    ShutsDown(1);
    assert Init(1).threads == [Locking];
    ThreadLeaves(a);
    FreedThenTouched(1, a + [Work(0)] + [Work(0)] + [Work(0)] + [Work(0)], [Exited]);
  }

  // ------------------------------------------------------------ a shutdown that never ends

  /** Neither a new call nor a wake-up without a signal. */
  ghost predicate Quiet(acts: seq<Action>) {
    forall i :: 0 <= i < |acts| ==> !acts[i].Call? && !acts[i].Spurious?
  }

  /** The threads are joined, and whatever they and the callers do, the join never ends. */
  ghost predicate Hangs(s: Pool) {
    forall acts :: Quiet(acts) ==> RunFrom(s, acts).destroyer == Joining
  }

  /** Thread `i` sleeps past the broadcast, and nobody is left to signal. */
  ghost predicate SleepsOn(s: Pool, i: nat) {
    !s.stale && s.destroyer == Joining && AllReturned(s) && i < |s.threads| && s.threads[i] == Waiting
  }

  lemma SleepsNext(s: Pool, i: nat, a: Action)
    requires SleepsOn(s, i) && !a.Call? && !a.Spurious?
    ensures SleepsOn(Next(s, a), i)
  {
  }

  lemma {:induction false} SleepsAlways(s: Pool, i: nat, acts: seq<Action>)
    requires SleepsOn(s, i) && Quiet(acts)
    ensures SleepsOn(RunFrom(s, acts), i)
  {
    if acts != [] {
      var pre, a := acts[..|acts| - 1], acts[|acts| - 1];
      SleepsAlways(s, i, pre);
      assert !a.Call? && !a.Spurious?;
      SleepsNext(RunFrom(s, pre), i, a);
    }
  }

  lemma SleeperHangs(s: Pool, i: nat)
    requires SleepsOn(s, i)
    ensures Hangs(s)
  {
    forall acts | Quiet(acts) ensures RunFrom(s, acts).destroyer == Joining { SleepsAlways(s, i, acts); }
  }

  /** How many steps the holder of the lock is from releasing it, as long as nobody shuts down. */
  function ToRelease(t: Thread): nat {
    match t
    case Testing => 5
    case Checking => 4
    case Taking => 3
    case Dequeuing => 2
    case Unlocking(_) => 1
    case Deciding => 1
    case _ => 0
  }

  lemma {:induction false} ThreadReleases(s: Pool, i: nat) returns (acts: seq<Action>, t: Pool)
    requires Open(s) && i < |s.threads| && s.lock == ByThread(i)
    ensures Leads(s, acts, t) && Open(t) && t.lock == Free && t.adders == s.adders && |t.threads| == |s.threads|
    decreases ToRelease(s.threads[i])
  {
    SafeNext(s, Work(i));
    assert ThreadOk(s, i) && HoldsT(s.threads[i]);
    var u := Next(s, Work(i));
    if u.lock == Free {
      LeadsStep(s, Work(i));
      acts, t := [Work(i)], u;
    } else {
      acts, t := ThreadReleases(u, i);
      LeadsFirst(s, Work(i), acts, t);
      acts := [Work(i)] + acts;
    }
  }

  lemma Release(s: Pool) returns (acts: seq<Action>, t: Pool)
    requires Open(s)
    ensures Leads(s, acts, t) && Open(t) && t.lock == Free
    ensures |t.threads| == |s.threads| && |t.adders| == |s.adders|
    ensures forall x :: 0 <= x < |s.adders| && s.adders[x] == Done ==> t.adders[x] == Done
  {
    match s.lock
    case Free => acts, t := [], s;
    case ByThread(i) => acts, t := ThreadReleases(s, i);
    case ByAdder(k) => acts, t := LetGo(s, k);
  }

  /** A caller past the lock signals and returns. */
  lemma Signals(s: Pool, j: nat) returns (a: Action)
    requires Open(s) && s.lock == Free && j < |s.adders| && s.adders[j] == Signalling
    ensures !a.Call? && var t := Next(s, a);
      Open(t) && t.lock == Free && t.adders == s.adders[j := Done] && |t.threads| == |s.threads|
  {
    if k: nat :| k < |s.threads| && s.threads[k] == Waiting {
      a := Signal(j, k);
    } else {
      a := Signal(j, 0);
    }
    SafeNext(s, a);
  }

  /** With the lock free a caller goes through to its end. */
  lemma CallerReturns(s: Pool, j: nat) returns (acts: seq<Action>, t: Pool)
    requires Open(s) && s.lock == Free && j < |s.adders|
    ensures Leads(s, acts, t) && Open(t) && t.lock == Free && |t.threads| == |s.threads|
    ensures t.adders == s.adders[j := Done]
  {
    acts, t := [], s;
    if s.adders[j].Entering? {
      var u := Next(s, Add(j));
      SafeNext(s, Add(j));
      acts, t := LetGo(u, j);
      LeadsFirst(s, Add(j), acts, t);
      acts := [Add(j)] + acts;
    }
    if t.adders[j] == Signalling {
      var a := Signals(t, j);
      LeadsStep(t, a);
      LeadsOn(s, acts, t, [a], Next(t, a));
      acts, t := acts + [a], Next(t, a);
    }
  }

  lemma {:induction false} CallersReturn(s: Pool, k: nat) returns (acts: seq<Action>, t: Pool)
    requires Open(s) && s.lock == Free && k <= |s.adders| && forall j :: 0 <= j < k ==> s.adders[j] == Done
    ensures Leads(s, acts, t) && Open(t) && t.lock == Free && AllReturned(t) && |t.threads| == |s.threads|
    decreases |s.adders| - k
  {
    if k == |s.adders| {
      acts, t := [], s;
    } else {
      var a, u := CallerReturns(s, k);
      var b;
      b, t := CallersReturn(u, k + 1);
      LeadsOn(s, a, u, b, t);
      acts := a + b;
    }
  }

  /** How far the thread is from deciding to wait, or from its next task. */
  function ToDecision(t: Thread): nat {
    match t
    case Deciding => 0
    case Dequeuing => 1
    case Taking => 2
    case Checking => 3
    case Testing => 4
    case Locking => 5
    case Woken => 5
    case Waiting => 6
    case Running(_) => 7
    case Unlocking(_) => 8
    case Leaving => 9
    case Exited => 9
  }

  lemma NearerDecision(s: Pool, i: nat) returns (a: Action)
    requires Open(s) && AllReturned(s) && MayStep(s, i) && s.threads[i] != Deciding
    ensures !a.Call? && var t := Next(s, a);
      && Open(t) && AllReturned(t) && MayStep(t, i)
      && (|t.queue| < |s.queue| || (t.queue == s.queue && ToDecision(t.threads[i]) < ToDecision(s.threads[i])))
  {
    a := if s.threads[i] == Waiting then Spurious(i) else Work(i);
    SafeNext(s, a);
    assert ThreadOk(s, i);
  }

  /** A thread works off the queue and decides to wait. */
  lemma {:induction false} Decides(s: Pool, i: nat) returns (acts: seq<Action>, t: Pool)
    requires Open(s) && AllReturned(s) && MayStep(s, i)
    ensures Leads(s, acts, t) && Open(t) && AllReturned(t) && i < |t.threads| && t.threads[i] == Deciding
    decreases |s.queue|, ToDecision(s.threads[i])
  {
    if s.threads[i] == Deciding {
      acts, t := [], s;
    } else {
      var a := NearerDecision(s, i);
      acts, t := Decides(Next(s, a), i);
      LeadsFirst(s, a, acts, t);
      acts := [a] + acts;
    }
  }

  /** From there flag and broadcast go by before the thread waits. */
  lemma MissesBoth(s: Pool, i: nat) returns (acts: seq<Action>, t: Pool)
    requires Open(s) && AllReturned(s) && i < |s.threads| && s.threads[i] == Deciding
    ensures Leads(s, acts, t) && SleepsOn(t, i)
  {
    var u := Next(s, Destroy);
    var v := Next(u, Destroy);
    t := Next(v, Work(i));
    LeadsStep(v, Work(i));
    LeadsFirst(u, Destroy, [Work(i)], t);
    LeadsFirst(s, Destroy, [Destroy] + [Work(i)], t);
    acts := [Destroy] + ([Destroy] + [Work(i)]);
  }

  lemma CanHang(s: Pool) returns (acts: seq<Action>)
    requires Open(s) && s.threads != []
    ensures NoCalls(acts) && Hangs(RunFrom(s, acts))
  {
    var a, u := Release(s);
    var b, v := CallersReturn(u, 0);
    LeadsOn(s, a, u, b, v);
    var c, w := Decides(v, 0);
    LeadsOn(s, a + b, v, c, w);
    var d, x := MissesBoth(w, 0);
    LeadsOn(s, a + b + c, w, d, x);
    acts := a + b + c + d;
    SleeperHangs(x, 0);
  }

  /** Without threads the join is over at once. */
  ghost predicate NoThreads(s: Pool) {
    s.threads == [] && (s.stale ==> s.destroyer == Destroyed)
  }

  lemma {:induction false} NoThreadsEver(s: Pool, acts: seq<Action>)
    requires NoThreads(s)
    ensures NoThreads(RunFrom(s, acts))
  {
    if acts != [] { NoThreadsEver(s, acts[..|acts| - 1]); }
  }

  lemma JoinsAtOnce(s: Pool)
    requires NoThreads(s)
    ensures !Hangs(s)
  {
    LeadsStep(s, Destroy);
    assert Quiet([Destroy]) && Quiet([]) && RunFrom(s, []) == s;
    assert s.destroyer == Joining ==> RunFrom(s, [Destroy]).destroyer == Draining;
  }

  /** Judged when `threadpool_destroy` is called: some interleaving lets it hang for ever, all callers
      returned and short of a wake-up without a signal, if and only if the pool has a thread at all. */
  lemma HangsIffThreads(s: Pool)
    requires Open(s)
    ensures (exists acts :: NoCalls(acts) && Hangs(RunFrom(s, acts))) <==> s.threads != []
  {
    if s.threads != [] {
      var acts := CanHang(s);
    } else {
      forall acts ensures !Hangs(RunFrom(s, acts)) {
        NoThreadsEver(s, acts);
        JoinsAtOnce(RunFrom(s, acts));
      }
    }
  }
}
