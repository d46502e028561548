/** The order in which the broker serves its workers: whoever has waited longest comes first. */
module MdpOrder {
  import opened Frames
  import opened MdpBroker
  import opened MdpEffects
  import opened MdpInvariants
  import opened Options

  /** When each worker began to wait, as a number; later is larger. */
  type Rank = Id -> int

  ghost predicate Ranked(ws: seq<Id>, rank: Rank) {
    forall i, j :: 0 <= i < j < |ws| ==> rank(ws[i]) < rank(ws[j])
  }

  /** A request given to a worker went to one that had waited longer than any worker of that service who
      waits in `s`. */
  ghost predicate Longest(s: State, e: Event, rank: Rank) {
    e.Dispatched? ==>
      forall x :: x in s.waiting && BoundTo(s.workers, x, e.service) ==> rank(e.worker) < rank(x)
  }

  /** From `s` to `t` every request given went to the worker waiting longest, and the list stays in order. */
  ghost predicate Fair(s: State, t: State, rank: Rank) {
    && s.log <= t.log && Ranked(t.waiting, rank)
    && forall i :: |s.log| <= i < |t.log| ==> Longest(t, t.log[i], rank)
  }

  // ---------------------------------------------------------------------------- lists

  lemma {:induction false} RemoveRanked(ws: seq<Id>, w: Id, rank: Rank)
    requires Ranked(ws, rank)
    ensures Ranked(Remove(ws, w), rank)
  {
    if ws != [] {
      var t := ws[1..];
      assert Ranked(t, rank);
      RemoveRanked(t, w, rank);
      RemoveMembers(t, w);
      var r := Remove(t, w);
      forall i | 0 <= i < |r| ensures rank(ws[0]) < rank(r[i]) { assert r[i] in t; }
    }
  }

  lemma {:induction false} ProjRanked(ws: seq<Id>, workers: map<Id, Worker>, n: Name, rank: Rank)
    requires Ranked(ws, rank)
    ensures Ranked(Proj(ws, workers, n), rank)
  {
    if ws != [] {
      var t := ws[1..];
      ProjRanked(t, workers, n, rank);
      ProjMembers(t, workers, n);
      var p := Proj(t, workers, n);
      forall i | 0 <= i < |p| ensures rank(ws[0]) < rank(p[i]) { assert p[i] in t; }
    }
  }

  /** The rank of a worker not listed does not matter. */
  lemma RankedElsewhere(ws: seq<Id>, w: Id, rank: Rank, rank': Rank)
    requires Ranked(ws, rank) && w !in ws && forall x :: x != w ==> rank'(x) == rank(x)
    ensures Ranked(ws, rank')
  {
    forall i, j | 0 <= i < j < |ws| ensures rank'(ws[i]) < rank'(ws[j]) { assert ws[i] in ws && ws[j] in ws; }
  }

  // -------------------------------------------------------------------- purge and dispatch

  /** `t` lists nobody `s` does not, with no new binding. */
  ghost predicate Fewer(t: State, s: State) {
    Subset(t.workers, s.workers) && forall x :: x in t.waiting ==> x in s.waiting
  }

  lemma PurgeFewer(s: State, clock: nat -> int, rank: Rank)
    requires Sound(s) && Ranked(s.waiting, rank)
    ensures var t := Purge(s, clock); Ranked(t.waiting, rank) && Fewer(t, s) && t.log == s.log
  {
    var k := PurgeRemovesPrefix(s, clock);
    PurgeSubset(s, clock);
    PurgeSilent(s, clock);
    var ws := s.waiting[k..];
    assert forall i :: 0 <= i < |ws| ==> ws[i] == s.waiting[k + i];
  }

  lemma FewerFair(s: State, t: State, u: State, rank: Rank)
    requires Fair(s, t, rank) && Fewer(u, t) && u.log == t.log && Ranked(u.waiting, rank)
    ensures Fair(s, u, rank)
  {
    forall i | |s.log| <= i < |u.log| ensures Longest(u, u.log[i], rank) { assert Longest(t, t.log[i], rank); }
  }

  /** The head of a service's list has waited longest of all its waiting workers. */
  lemma HeadFirst(s: State, name: Name, x: Id, rank: Rank)
    requires Sound(s) && Ranked(s.waiting, rank) && name in s.services && s.services[name].waiting != []
    requires x in s.waiting && BoundTo(s.workers, x, name) && x != s.services[name].waiting[0]
    ensures rank(s.services[name].waiting[0]) < rank(x)
  {
    assert ServiceSound(s, name);
    ProjMembers(s.waiting, s.workers, name);
    ProjRanked(s.waiting, s.workers, name, rank);
    var i :| 0 <= i < |s.services[name].waiting| && s.services[name].waiting[i] == x;
  }

  lemma OneFair(s: State, name: Name, rank: Rank)
    requires Sound(s) && Ranked(s.waiting, rank)
    requires name in s.services && s.services[name].waiting != [] && s.services[name].requests != []
    ensures Fair(s, DispatchOne(s, name), rank) && Fewer(DispatchOne(s, name), s)
  {
    var t, w := DispatchOne(s, name), s.services[name].waiting[0];
    DispatchOneSound(s, name);
    RemoveMembers(s.waiting, w);
    RemoveRanked(s.waiting, w, rank);
    forall x | x in t.waiting && BoundTo(t.workers, x, name) ensures rank(w) < rank(x) { HeadFirst(s, name, x, rank); }
    assert t.log[|s.log|] == Dispatched(name, w, s.services[name].requests[0]);
  }

  lemma FairThen(s: State, t: State, u: State, rank: Rank)
    requires Fair(s, t, rank) && Fair(t, u, rank) && Fewer(u, t)
    ensures Fair(s, u, rank)
  {
    forall i | |s.log| <= i < |u.log| ensures Longest(u, u.log[i], rank) {
      if i < |t.log| { assert u.log[i] == t.log[i] && Longest(t, t.log[i], rank); }
    }
  }

  lemma {:induction false} LoopFair(s: State, name: Name, rank: Rank)
    requires Sound(s) && Ranked(s.waiting, rank) && name in s.services
    ensures Fair(s, DispatchLoop(s, name), rank) && Fewer(DispatchLoop(s, name), s)
    decreases |s.services[name].requests|
  {
    if s.services[name].waiting != [] && s.services[name].requests != [] {
      var t := DispatchOne(s, name);
      OneFair(s, name, rank);
      DispatchOneSound(s, name);
      LoopFair(t, name, rank);
      FairThen(s, t, DispatchLoop(t, name), rank);
    }
  }

  lemma DispatchFair(s: State, name: Name, msg: Option<Msg>, clock: nat -> int, rank: Rank)
    requires Sound(s) && Ranked(s.waiting, rank) && name in s.services
    ensures Fair(s, Dispatch(s, name, msg, clock), rank)
  {
    var e := Enqueue(s, name, msg);
    SoundIgnores(s, e);
    var p := Purge(e, clock);
    PurgeSound(e, clock);
    PurgeFewer(e, clock, rank);
    PurgeKeepsServices(e, clock);
    assert Fair(s, p, rank);
    LoopFair(p, name, rank);
    FairThen(s, p, DispatchLoop(p, name), rank);
  }

  // ------------------------------------------------------------------------- messages

  /** `w` begins to wait after everyone who waits in `s`. */
  ghost predicate Newest(s: State, w: Id, rank: Rank) {
    forall x :: x in s.waiting ==> rank(x) < rank(w)
  }

  lemma WaitingFair(s: State, w: Id, clock: nat -> int, rank: Rank)
    requires Sound(s) && w in s.workers && w !in s.waiting && Ranked(s.waiting, rank) && Newest(s, w, rank)
    ensures Fair(s, WorkerWaiting(s, w, clock), rank)
  {
    assert Serviced(s, w);
    ListedSound(s, w, clock);
    var l := Listed(s, w, clock);
    forall i, j | 0 <= i < j < |l.waiting| ensures rank(l.waiting[i]) < rank(l.waiting[j]) {
      assert s.waiting[i] in s.waiting;
    }
    DispatchFair(l, s.workers[w].service.value, None, clock, rank);
  }

  /** Going from `rank` to `rank'`, only `w` may have begun to wait anew, after everyone else. */
  ghost predicate Renewed(s: State, w: Id, rank: Rank, rank': Rank) {
    && Ranked(s.waiting, rank) && (forall x :: x != w ==> rank'(x) == rank(x))
    && forall x :: x in s.waiting && x != w ==> rank'(x) < rank'(w)
  }

  lemma DeletedFair(s: State, w: Id, disconnect: bool, rank: Rank, rank': Rank)
    requires Sound(s) && w in s.workers && Ranked(s.waiting, rank) && forall x :: x != w ==> rank'(x) == rank(x)
    ensures Fair(s, WorkerDelete(s, w, disconnect), rank')
  {
    RemoveMembers(s.waiting, w);
    RemoveRanked(s.waiting, w, rank);
    RankedElsewhere(Remove(s.waiting, w), w, rank, rank');
  }

  lemma TurnedAwayFair(s: State, w: Id, msg: Msg, clock: nat -> int, rank: Rank, rank': Rank)
    requires Sound(s) && w !in s.workers && msg != [] && Ranked(s.waiting, rank)
    requires msg[0] in {REPLY, HEARTBEAT, DISCONNECT} || (msg[0] == READY && StartsMmi(w))
    requires forall x :: x != w ==> rank'(x) == rank(x)
    ensures Fair(s, WorkerMsg(s, w, msg, clock), rank')
  {
    TurnedAway(s, w, msg, clock);
    RankedElsewhere(s.waiting, w, rank, rank');
  }

  /** READY and REPLY. */
  lemma FreeingFair(s: State, w: Id, msg: Msg, clock: nat -> int, rank: Rank, rank': Rank)
    requires Inv(s) && WorkerCompliant(s, w, msg) && msg[0] in {READY, REPLY} && Renewed(s, w, rank, rank')
    ensures Fair(s, WorkerMsg(s, w, msg, clock), rank')
  {
    Commands();
    if w !in s.workers && (msg[0] == REPLY || StartsMmi(w)) {
      TurnedAwayFair(s, w, msg, clock, rank, rank');
    } else if msg[0] == REPLY {
      assert Serviced(s, w);
      var f := Forward(s, w, msg[1..]);
      SoundIgnores(s, f);
      RankedElsewhere(s.waiting, w, rank, rank');
      WaitingFair(f, w, clock, rank');
      FairAfter(s, f, WorkerWaiting(f, w, clock), rank');
    } else if w in s.workers {
      DeletedFair(s, w, true, rank, rank');
    } else {
      BindSound(s, w, CString(msg[1]));
      RankedElsewhere(s.waiting, w, rank, rank');
      WaitingFair(Bind(WorkerRequire(s, w), w, CString(msg[1])), w, clock, rank');
    }
  }

  /** An answer to a client in between changes nothing. */
  lemma FairAfter(s: State, f: State, t: State, rank: Rank)
    requires Fair(f, t, rank) && |f.log| == |s.log| + 1 && s.log <= f.log && f.log[|s.log|].Answered?
    ensures Fair(s, t, rank)
  {
    forall i | |s.log| <= i < |t.log| ensures Longest(t, t.log[i], rank) {
      if i == |s.log| { assert t.log[i] == f.log[i]; }
    }
  }

  /** All other messages of a worker. */
  lemma OtherFair(s: State, w: Id, msg: Msg, clock: nat -> int, rank: Rank)
    requires Inv(s) && WorkerCompliant(s, w, msg) && msg[0] !in {READY, REPLY} && Ranked(s.waiting, rank)
    ensures Fair(s, WorkerMsg(s, w, msg, clock), rank)
  {
    Commands();
    if w in s.workers && msg[0] == DISCONNECT {
      DeletedFair(s, w, false, rank, rank);
    } else if w !in s.workers && msg[0] in {HEARTBEAT, DISCONNECT} {
      TurnedAwayFair(s, w, msg, clock, rank, rank);
    }
  }

  lemma ClientFair(s: State, c: Id, msg: Msg, clock: nat -> int, rank: Rank)
    requires Inv(s) && |msg| >= 2 && Ranked(s.waiting, rank)
    ensures Fair(s, ClientMsg(s, c, msg, clock), rank)
  {
    var s1 := ServiceRequire(s, CString(msg[0]));
    ServiceRequireSound(s, CString(msg[0]));
    if !StartsMmi(msg[0]) { DispatchFair(s1, CString(msg[0]), Some(Wrap(c, msg[1..])), clock, rank); }
  }

  lemma TimerFewer(t: State, clock: nat -> int, rank: Rank)
    requires Sound(t) && Ranked(t.waiting, rank)
    ensures var u := Timer(t, clock); Ranked(u.waiting, rank) && Fewer(u, t) && u.log == t.log
  {
    var t1 := t.(ticks := t.ticks + 1);
    SoundIgnores(t, t1);
    PurgeFewer(t1, clock, rank);
    HeartbeatAllSends(Purge(t1, clock), Purge(t1, clock).waiting);
  }

  lemma TimerFair(s: State, t: State, clock: nat -> int, rank: Rank)
    requires Sound(t) && Fair(s, t, rank)
    ensures Fair(s, Timer(t, clock), rank)
  {
    TimerFewer(t, clock, rank);
    FewerFair(s, t, Timer(t, clock), rank);
  }

  // ----------------------------------------------------------------------------- runs

  /** The message makes its sender wait for work. */
  predicate Frees(m: Option<Msg>, x: Id) {
    && m.Some? && |m.value| >= 4 && m.value[0] == x && m.value[2] == MDPW_WORKER
    && m.value[3] in {READY, REPLY}
  }

  /** The last turn that brought READY or REPLY from `x`, counting from 1; 0 if none. */
  function LastFreed(msgs: seq<Option<Msg>>, x: Id): (k: nat)
    ensures k <= |msgs|
  {
    if msgs == [] then 0
    else if Frees(msgs[|msgs| - 1], x) then |msgs|
    else LastFreed(msgs[..|msgs| - 1], x)
  }

  /** Going from `rank` to `rank'`, the sender of a message that frees it goes behind everyone who waits in
      `s`, and nothing else changes. */
  ghost predicate Moved(s: State, m: Option<Msg>, rank: Rank, rank': Rank) {
    && (forall x :: !Frees(m, x) ==> rank'(x) == rank(x))
    && (forall x, y :: Frees(m, x) && y in s.waiting && y != x ==> rank'(y) < rank'(x))
  }

  lemma ReceiveFair(s: State, m: Msg, clock: nat -> int, rank: Rank, rank': Rank)
    requires Inv(s) && Compliant(s, m) && Ranked(s.waiting, rank) && Moved(s, Some(m), rank, rank')
    ensures Fair(s, MdpBroker.Receive(s, m, clock), rank')
  {
    assert MDPC_CLIENT != MDPW_WORKER by { assert MDPC_CLIENT[3] != MDPW_WORKER[3]; }
    if m[2] == MDPW_WORKER && m[3..][0] in {READY, REPLY} {
      assert m[3..][0] == m[3] && Frees(Some(m), m[0]);
      FreeingFair(s, m[0], m[3..], clock, rank, rank');
    } else {
      assert m[2] == MDPW_WORKER ==> m[3..][0] == m[3];
      assert Ranked(s.waiting, rank');
      if m[2] == MDPC_CLIENT {
        ClientFair(s, m[0], m[3..], clock, rank');
      } else if m[2] == MDPW_WORKER {
        OtherFair(s, m[0], m[3..], clock, rank');
      }
    }
  }

  lemma TurnFair(s: State, m: Option<Msg>, clock: nat -> int, rank: Rank, rank': Rank)
    requires Inv(s) && (m.Some? ==> Compliant(s, m.value)) && Ranked(s.waiting, rank) && Moved(s, m, rank, rank')
    ensures Fair(s, Turn(s, m, clock), rank')
  {
    if m.Some? {
      ReceiveFair(s, m.value, clock, rank, rank');
      ReceiveKeepsInv(s, m.value, clock);
      TimerFair(s, MdpBroker.Receive(s, m.value, clock), clock, rank');
    } else {
      TimerFair(s, s, clock, rank');
    }
  }

  /** In every run the workers wait in the order of their last READY or REPLY, and in every turn a request
      given to a worker goes to the one waiting longest of those registered for that service. */
  lemma {:induction false} ServesLongestWaiting(msgs: seq<Option<Msg>>, clock: nat -> int)
    requires CompliantRun(msgs, clock)
    ensures var rank := x => LastFreed(msgs, x);
      && Ranked(Run(msgs, clock).waiting, rank)
      && (msgs != [] ==> Fair(Run(msgs[..|msgs| - 1], clock), Run(msgs, clock), rank))
  {
    if msgs != [] {
      var pre, m := msgs[..|msgs| - 1], msgs[|msgs| - 1];
      CompliantSoFar(msgs, clock);
      ServesLongestWaiting(pre, clock);
      RunInv(pre, clock);
      TurnFair(Run(pre, clock), m, clock, x => LastFreed(pre, x), x => LastFreed(msgs, x));
    }
  }
}
