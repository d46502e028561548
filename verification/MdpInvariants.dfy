/** What every turn of the broker keeps. */
module MdpInvariants {
  import opened Frames
  import opened MdpBroker
  import opened Options

  ghost predicate Distinct(ws: seq<Id>) {
    forall i, j :: 0 <= i < j < |ws| ==> ws[i] != ws[j]
  }

  predicate BoundTo(workers: map<Id, Worker>, w: Id, n: Name) {
    w in workers && workers[w].service == Some(n)
  }

  /** The members of `ws` bound to service `n`, in order. */
  ghost function Proj(ws: seq<Id>, workers: map<Id, Worker>, n: Name): seq<Id> {
    if ws == [] then []
    else (if BoundTo(workers, ws[0], n) then [ws[0]] else []) + Proj(ws[1..], workers, n)
  }

  ghost function Bound(workers: map<Id, Worker>, n: Name): set<Id> {
    set w | w in workers && BoundTo(workers, w, n)
  }

  /** Service `n` lists exactly its own waiting workers in the broker's order, and counts its own. */
  ghost predicate ServiceSound(s: State, n: Name) {
    n in s.services ==>
      && s.services[n].waiting == Proj(s.waiting, s.workers, n)
      && s.services[n].workers == |Bound(s.workers, n)|
  }

  ghost predicate Serviced(s: State, w: Id) {
    w in s.workers ==> s.workers[w].service.Some? && s.workers[w].service.value in s.services
  }

  ghost predicate Sound(s: State) {
    && !s.dead
    && Distinct(s.waiting)
    && (forall w :: w in s.waiting ==> w in s.workers)
    && (forall w :: Serviced(s, w))
    && (forall n :: ServiceSound(s, n))
  }

  /** No service has both a waiting worker and a queued request. */
  ghost predicate NoneIdle(s: State, n: Name) {
    n in s.services ==> s.services[n].waiting == [] || s.services[n].requests == []
  }

  // ------------------------------------------------------------------- list facts

  lemma RemoveMembers(ws: seq<Id>, w: Id)
    requires Distinct(ws)
    ensures Distinct(Remove(ws, w))
    ensures forall x :: x in Remove(ws, w) <==> x in ws && x != w
  {
    if ws != [] {
      var t := ws[1..];
      assert forall i, j :: 0 <= i < j < |t| ==> t[i] == ws[i + 1] && t[j] == ws[j + 1];
      RemoveMembers(t, w);
      assert ws == [ws[0]] + t;
      assert ws[0] !in t;
    }
  }

  lemma RemoveAbsent(ws: seq<Id>, w: Id)
    requires w !in ws
    ensures Remove(ws, w) == ws
  {
    if ws != [] { RemoveAbsent(ws[1..], w); }
  }

  lemma ProjMembers(ws: seq<Id>, workers: map<Id, Worker>, n: Name)
    ensures forall x :: x in Proj(ws, workers, n) <==> x in ws && BoundTo(workers, x, n)
  {
    if ws != [] { ProjMembers(ws[1..], workers, n); }
  }

  lemma ProjEmpty(ws: seq<Id>, n: Name)
    ensures Proj(ws, map[], n) == []
  {
  }

  lemma ProjSame(ws: seq<Id>, a: map<Id, Worker>, b: map<Id, Worker>, n: Name)
    requires forall w :: w in ws ==> (BoundTo(a, w, n) <==> BoundTo(b, w, n))
    ensures Proj(ws, a, n) == Proj(ws, b, n)
  {
    if ws != [] { ProjSame(ws[1..], a, b, n); }
  }

  lemma ProjAppend(ws: seq<Id>, w: Id, workers: map<Id, Worker>, n: Name)
    ensures Proj(ws + [w], workers, n) == Proj(ws, workers, n) + if BoundTo(workers, w, n) then [w] else []
  {
    if ws != [] {
      assert (ws + [w])[1..] == ws[1..] + [w];
      ProjAppend(ws[1..], w, workers, n);
    }
  }

  lemma ProjRemove(ws: seq<Id>, w: Id, workers: map<Id, Worker>, n: Name)
    ensures Proj(Remove(ws, w), workers, n) ==
            if BoundTo(workers, w, n) then Remove(Proj(ws, workers, n), w) else Proj(ws, workers, n)
  {
    if ws != [] && ws[0] != w {
      ProjRemove(ws[1..], w, workers, n);
      var r := [ws[0]] + Remove(ws[1..], w);
      assert r[1..] == Remove(ws[1..], w);
      var p := Proj(ws[1..], workers, n);
      if BoundTo(workers, ws[0], n) {
        assert ([ws[0]] + p)[1..] == p;
      } else {
        assert [] + p == p && [] + Proj(r[1..], workers, n) == Proj(r[1..], workers, n);
      }
    } else if ws != [] && BoundTo(workers, w, n) {
      var p := [w] + Proj(ws[1..], workers, n);
      assert p[1..] == Proj(ws[1..], workers, n);
    }
  }

  // --------------------------------------------------------------- deleting, purging

  lemma DeleteServiceSound(s: State, w: Id, disconnect: bool, n: Name)
    requires Sound(s) && w in s.workers
    ensures ServiceSound(WorkerDelete(s, w, disconnect), n)
  {
    var t := WorkerDelete(s, w, disconnect);
    assert ServiceSound(s, n) && Serviced(s, w);
    if n in s.services {
      RemoveMembers(s.waiting, w);
      ProjSame(Remove(s.waiting, w), s.workers, t.workers, n);
      ProjRemove(s.waiting, w, s.workers, n);
      assert Bound(t.workers, n) == Bound(s.workers, n) - {w};
    }
  }

  lemma DeleteSound(s: State, w: Id, disconnect: bool)
    requires Sound(s) && w in s.workers
    ensures Sound(WorkerDelete(s, w, disconnect))
  {
    var t := WorkerDelete(s, w, disconnect);
    RemoveMembers(s.waiting, w);
    forall n ensures ServiceSound(t, n) { DeleteServiceSound(s, w, disconnect, n); }
    forall x ensures Serviced(t, x) { assert Serviced(s, x) && Serviced(s, w); }
  }

  lemma {:induction false} PurgeSound(s: State, clock: nat -> int)
    requires Sound(s)
    ensures Sound(Purge(s, clock))
    decreases |s.waiting|
  {
    if s.waiting != [] {
      var s1 := s.(ticks := s.ticks + 1);
      assert Sound(s1) by {
        forall n ensures ServiceSound(s1, n) { assert ServiceSound(s, n); }
        forall x ensures Serviced(s1, x) { assert Serviced(s, x); }
      }
      if clock(s.ticks) >= s.workers[s.waiting[0]].expiry {
        DeleteSound(s1, s.waiting[0], false);
        PurgeSound(WorkerDelete(s1, s.waiting[0], false), clock);
      }
    }
  }

  /** What one round of the purge leaves. */
  lemma PurgeRound(s: State)
    requires Sound(s) && s.waiting != []
    ensures var t := WorkerDelete(s.(ticks := s.ticks + 1), s.waiting[0], false);
      && Sound(t) && t.waiting == s.waiting[1..] && t.ticks == s.ticks + 1
      && forall x :: x in t.waiting ==> x in t.workers && t.workers[x] == s.workers[x]
  {
    var s1 := s.(ticks := s.ticks + 1);
    SoundIgnores(s, s1);
    DeleteSound(s1, s.waiting[0], false);
  }

  /** The purge that starts in `s` would find the worker in place `i` expired on reaching it. */
  ghost predicate Late(s: State, clock: nat -> int, i: nat) {
    i < |s.waiting| && s.waiting[i] in s.workers && clock(s.ticks + i) >= s.workers[s.waiting[i]].expiry
  }

  lemma LateShifts(s: State, t: State, clock: nat -> int, i: nat)
    requires s.waiting != [] && t.waiting == s.waiting[1..] && t.ticks == s.ticks + 1
    requires forall x :: x in s.waiting ==> x in s.workers
    requires forall x :: x in t.waiting ==> x in t.workers && t.workers[x] == s.workers[x]
    ensures Late(t, clock, i) == Late(s, clock, i + 1)
  {
    assert t.ticks + i == s.ticks + (i + 1);
    if i < |t.waiting| { assert t.waiting[i] == s.waiting[i + 1] && t.waiting[i] in t.waiting; }
  }

  /** The purge removes exactly the longest prefix found expired, each by its own clock reading. */
  lemma {:induction false} PurgeRemovesPrefix(s: State, clock: nat -> int) returns (k: nat)
    requires Sound(s)
    ensures k <= |s.waiting| && Purge(s, clock).waiting == s.waiting[k..]
    ensures forall i: nat :: i < k ==> Late(s, clock, i)
    ensures !Late(s, clock, k)
    decreases |s.waiting|
  {
    k := 0;
    if s.waiting != [] && clock(s.ticks) >= s.workers[s.waiting[0]].expiry {
      PurgeRound(s);
      var t := WorkerDelete(s.(ticks := s.ticks + 1), s.waiting[0], false);
      var j := PurgeRemovesPrefix(t, clock);
      k := j + 1;
      LateShifts(s, t, clock, j);
      forall i: nat | i < k ensures Late(s, clock, i) {
        if i > 0 { LateShifts(s, t, clock, i - 1); }
      }
    }
  }

  ghost function Expired(s: State, now: int): set<Id> {
    set w | w in s.workers && now >= s.workers[w].expiry
  }

  lemma CutCompleteIff(ws: seq<Id>, bad: set<Id>, k: nat)
    requires k <= |ws| && (forall i :: 0 <= i < k ==> ws[i] in bad) && (k < |ws| ==> ws[k] !in bad)
    ensures (forall w :: w in ws[k..] ==> w !in bad) <==>
            (forall i, j :: 0 <= i < j < |ws| && ws[j] in bad ==> ws[i] in bad)
  {
    if w :| w in ws[k..] && w in bad {
      var i :| 0 <= i < |ws[k..]| && ws[k..][i] == w;
      assert ws[k + i] in bad && ws[k] !in bad;
    } else {
      assert forall j :: k <= j < |ws| ==> ws[j] in ws[k..];
    }
  }

  /** At a standing clock: nobody expired is left if and only if no fresh worker stood before an
      expired one. Heartbeats refresh in place, so both orders occur (`MdpBrokerRuns.ExpiredRemains`). */
  lemma PurgeCompleteIffOrdered(s: State, now: int)
    requires Sound(s)
    ensures (forall w :: w in Purge(s, _ => now).waiting ==> w !in Expired(s, now)) <==>
            (forall i, j :: 0 <= i < j < |s.waiting| && s.waiting[j] in Expired(s, now) ==>
                            s.waiting[i] in Expired(s, now))
  {
    var k := PurgeRemovesPrefix(s, _ => now);
    forall i | 0 <= i < k ensures s.waiting[i] in Expired(s, now) { assert Late(s, _ => now, i); }
    CutCompleteIff(s.waiting, Expired(s, now), k);
  }

  // -------------------------------------------------------------------- dispatching

  lemma SoundIgnores(s: State, t: State)
    requires Sound(s) && !t.dead && t.waiting == s.waiting && t.workers == s.workers
    requires t.services.Keys == s.services.Keys
    requires forall n :: n in s.services ==>
      t.services[n].waiting == s.services[n].waiting && t.services[n].workers == s.services[n].workers
    ensures Sound(t)
  {
    forall n ensures ServiceSound(t, n) { assert ServiceSound(s, n); }
    forall w ensures Serviced(t, w) { assert Serviced(s, w); }
  }

  /** The loop hands the head request to the head worker, who is registered for that very
      service and stops waiting. */
  lemma DispatchOneSound(s: State, name: Name)
    requires Sound(s) && name in s.services && s.services[name].waiting != [] && s.services[name].requests != []
    ensures Sound(DispatchOne(s, name))
    ensures var w := s.services[name].waiting[0];
      BoundTo(s.workers, w, name) && w in s.waiting && w !in DispatchOne(s, name).waiting
  {
    var t, v := DispatchOne(s, name), s.services[name];
    var w := v.waiting[0];
    assert ServiceSound(s, name);
    ProjMembers(s.waiting, s.workers, name);
    assert w in v.waiting;
    RemoveMembers(s.waiting, w);
    forall n ensures ServiceSound(t, n) {
      assert ServiceSound(s, n);
      ProjRemove(s.waiting, w, s.workers, n);
    }
    forall x ensures Serviced(t, x) { assert Serviced(s, x); }
  }

  lemma {:induction false} DispatchLoopSound(s: State, name: Name)
    requires Sound(s) && name in s.services
    ensures Sound(DispatchLoop(s, name))
    decreases |s.services[name].requests|
  {
    if s.services[name].waiting != [] && s.services[name].requests != [] {
      DispatchOneSound(s, name);
      DispatchLoopSound(DispatchOne(s, name), name);
    }
  }

  lemma DispatchSound(s: State, name: Name, msg: Option<Msg>, clock: nat -> int)
    requires Sound(s) && name in s.services
    ensures Sound(Dispatch(s, name, msg, clock))
  {
    var s1 := Enqueue(s, name, msg);
    SoundIgnores(s, s1);
    PurgeSound(s1, clock);
    PurgeKeepsServices(s1, clock);
    DispatchLoopSound(Purge(s1, clock), name);
  }

  // ---------------------------------------------------------------- worker messages

  lemma ListedServiceSound(s: State, w: Id, clock: nat -> int, n: Name)
    requires Sound(s) && w in s.workers && Serviced(s, w) && w !in s.waiting
    ensures ServiceSound(Listed(s, w, clock), n)
  {
    var t := Listed(s, w, clock);
    assert ServiceSound(s, n);
    ProjAppend(s.waiting, w, t.workers, n);
    ProjSame(s.waiting, s.workers, t.workers, n);
    assert Bound(t.workers, n) == Bound(s.workers, n);
  }

  lemma ListedSound(s: State, w: Id, clock: nat -> int)
    requires Sound(s) && w in s.workers && Serviced(s, w) && w !in s.waiting
    ensures Sound(Listed(s, w, clock))
  {
    var t := Listed(s, w, clock);
    forall n ensures ServiceSound(t, n) { ListedServiceSound(s, w, clock, n); }
    forall x ensures Serviced(t, x) { assert Serviced(s, x); }
  }

  lemma ServiceRequireSound(s: State, name: Name)
    requires Sound(s)
    ensures Sound(ServiceRequire(s, name))
  {
    var t := ServiceRequire(s, name);
    forall n ensures ServiceSound(t, n) {
      assert ServiceSound(s, n);
      if n !in s.services {
        forall w | w in s.workers ensures !BoundTo(s.workers, w, n) { assert Serviced(s, w); }
        assert Bound(s.workers, n) == {};
        ProjSame(s.waiting, s.workers, map[], n);
        ProjEmpty(s.waiting, n);
      }
    }
    forall x ensures Serviced(t, x) { assert Serviced(s, x); }
  }

  lemma BindServiceSound(s: State, w: Id, name: Name, n: Name)
    requires Sound(s) && name in s.services && w !in s.workers
    ensures ServiceSound(Bind(WorkerRequire(s, w), w, name), n)
  {
    var t := Bind(WorkerRequire(s, w), w, name);
    assert ServiceSound(s, n) && t.waiting == s.waiting && t.workers == s.workers[w := Worker(Some(name), 0)];
    ProjSame(s.waiting, s.workers, t.workers, n);
    assert Bound(t.workers, n) == Bound(s.workers, n) + if n == name then {w} else {};
  }

  /** READY from a newcomer. */
  lemma BindSound(s: State, w: Id, name: Name)
    requires Sound(s) && w !in s.workers
    ensures Sound(Bind(WorkerRequire(s, w), w, name))
  {
    var r := ServiceRequire(s, name);
    ServiceRequireSound(s, name);
    var t := Bind(WorkerRequire(r, w), w, name);
    assert t == Bind(WorkerRequire(s, w), w, name);
    forall n ensures ServiceSound(t, n) { BindServiceSound(r, w, name, n); }
    forall x ensures Serviced(t, x) { assert Serviced(r, x); }
  }

  /** A stranger is registered and deleted again: only the disconnect it is sent remains. */
  lemma StrangerSound(s: State, w: Id, disconnect: bool)
    requires Sound(s) && w !in s.workers
    ensures var t := WorkerDelete(WorkerRequire(s, w), w, disconnect);
      t == (if disconnect then WorkerSend(s, w, DISCONNECT, []) else s) && Sound(t)
  {
    RemoveAbsent(s.waiting, w);
    var t := WorkerDelete(WorkerRequire(s, w), w, disconnect);
    assert t.workers == s.workers;
    SoundIgnores(s, t);
  }

  /** The worker messages the broker can take: the third line is the one the code does not guard. */
  ghost predicate WorkerCompliant(s: State, sender: Id, msg: Msg) {
    && msg != []
    && (msg[0] == READY ==> sender in s.workers || StartsMmi(sender) || |msg| > 1)
    && (msg[0] == REPLY && sender in s.workers ==> sender !in s.waiting && |msg| > 1)
    && (msg[0] !in {READY, REPLY, HEARTBEAT, DISCONNECT} ==> sender in s.workers)
  }

  /** A heartbeat refreshes the expiry in place and moves nobody. */
  lemma HeartbeatSound(s: State, w: Id, clock: nat -> int)
    requires Sound(s) && w in s.workers
    ensures Sound(WorkerMsg(s, w, [HEARTBEAT], clock))
  {
    var t := WorkerMsg(s, w, [HEARTBEAT], clock);
    forall n ensures ServiceSound(t, n) {
      assert ServiceSound(s, n);
      ProjSame(s.waiting, s.workers, t.workers, n);
      assert Bound(t.workers, n) == Bound(s.workers, n);
    }
    forall x ensures Serviced(t, x) { assert Serviced(s, x); }
  }

  // --------------------------------------------------- requests: conserved, in order

  ghost function AcceptedFor(log: seq<Event>, n: Name): seq<Msg> {
    if log == [] then []
    else
      var e := log[|log| - 1];
      AcceptedFor(log[..|log| - 1], n) + if e.Accepted? && e.service == n then [e.msg] else []
  }

  ghost function DispatchedFor(log: seq<Event>, n: Name): seq<Msg> {
    if log == [] then []
    else
      var e := log[|log| - 1];
      DispatchedFor(log[..|log| - 1], n) + if e.Dispatched? && e.service == n then [e.msg] else []
  }

  ghost function QueueOf(s: State, n: Name): seq<Msg> {
    if n in s.services then s.services[n].requests else []
  }

  /** The requests accepted for `n` are those dispatched, then those queued, in arrival order. */
  ghost predicate Fifo(s: State, n: Name) {
    AcceptedFor(s.log, n) == DispatchedFor(s.log, n) + QueueOf(s, n)
  }

  /** The whole invariant of the main loop. */
  ghost predicate Inv(s: State) {
    && Sound(s)
    && (forall n :: NoneIdle(s, n))
    && (forall n :: Fifo(s, n))
  }

  /** From `s` to `t` no request moved and no service gained a waiting worker. */
  ghost predicate Quiet(s: State, t: State) {
    && (t.log == s.log || exists c :: t.log == s.log + [Answered(c)])
    && (forall n :: QueueOf(t, n) == QueueOf(s, n))
    && (forall n :: n in t.services && t.services[n].waiting != [] ==> n in s.services && s.services[n].waiting != [])
  }

  lemma QuietKeeps(s: State, t: State, n: Name)
    requires Quiet(s, t)
    ensures NoneIdle(s, n) ==> NoneIdle(t, n)
    ensures Fifo(s, n) <==> Fifo(t, n)
  {
    assert QueueOf(t, n) == QueueOf(s, n);
    if t.log != s.log {
      var c :| t.log == s.log + [Answered(c)];
      LogAppend(s.log, Answered(c), n);
      assert AcceptedFor(t.log, n) == AcceptedFor(s.log, n) && DispatchedFor(t.log, n) == DispatchedFor(s.log, n);
    }
  }

  lemma DeleteQuiet(s: State, w: Id, disconnect: bool)
    requires w in s.workers
    ensures Quiet(s, WorkerDelete(s, w, disconnect))
  {
  }

  lemma {:induction false} PurgeQuiet(s: State, clock: nat -> int)
    ensures Quiet(s, Purge(s, clock)) && Purge(s, clock).log == s.log
    decreases |s.waiting|
  {
    if s.waiting != [] && s.waiting[0] in s.workers && clock(s.ticks) >= s.workers[s.waiting[0]].expiry {
      var s1 := s.(ticks := s.ticks + 1);
      var t := WorkerDelete(s1, s.waiting[0], false);
      DeleteQuiet(s1, s.waiting[0], false);
      PurgeQuiet(t, clock);
      var u := Purge(t, clock);
      forall n ensures QueueOf(u, n) == QueueOf(s, n) {
        assert QueueOf(u, n) == QueueOf(t, n) && QueueOf(t, n) == QueueOf(s1, n);
      }
    }
  }

  lemma LogAppend(log: seq<Event>, e: Event, n: Name)
    ensures AcceptedFor(log + [e], n) ==
            AcceptedFor(log, n) + if e.Accepted? && e.service == n then [e.msg] else []
    ensures DispatchedFor(log + [e], n) ==
            DispatchedFor(log, n) + if e.Dispatched? && e.service == n then [e.msg] else []
  {
    assert (log + [e])[..|log|] == log;
  }

  lemma HeadMoves(done: seq<Msg>, queue: seq<Msg>)
    requires queue != []
    ensures done + queue == (done + [queue[0]]) + queue[1..]
  {
  }

  lemma DispatchOneFifo(s: State, name: Name, n: Name)
    requires name in s.services && s.services[name].waiting != [] && s.services[name].requests != [] && Fifo(s, n)
    ensures Fifo(DispatchOne(s, name), n)
  {
    var v, t := s.services[name], DispatchOne(s, name);
    LogAppend(s.log, Dispatched(name, v.waiting[0], v.requests[0]), n);
    assert AcceptedFor(t.log, n) == AcceptedFor(s.log, n);
    if n == name {
      HeadMoves(DispatchedFor(s.log, n), v.requests);
      assert QueueOf(t, n) == v.requests[1..];
    } else {
      assert QueueOf(t, n) == QueueOf(s, n);
    }
  }

  /** The loop leaves its service with no worker or no request, touches no other, and keeps FIFO. */
  lemma {:induction false} DispatchLoopSettles(s: State, name: Name, n: Name)
    requires Sound(s) && name in s.services && Fifo(s, n)
    requires n != name ==> NoneIdle(s, n)
    ensures var t := DispatchLoop(s, name); NoneIdle(t, n) && Fifo(t, n)
    decreases |s.services[name].requests|
  {
    if s.services[name].waiting != [] && s.services[name].requests != [] {
      DispatchOneSound(s, name);
      DispatchOneFifo(s, name, n);
      DispatchLoopSettles(DispatchOne(s, name), name, n);
    }
  }

  lemma EnqueueFifo(s: State, name: Name, msg: Option<Msg>, n: Name)
    requires name in s.services && Fifo(s, n)
    ensures Fifo(Enqueue(s, name, msg), n)
  {
    if msg.Some? { LogAppend(s.log, Accepted(name, msg.value), n); }
  }

  lemma DispatchInv(s: State, name: Name, msg: Option<Msg>, clock: nat -> int)
    requires Sound(s) && name in s.services
    requires forall n :: Fifo(s, n)
    requires forall n :: n != name ==> NoneIdle(s, n)
    ensures Inv(Dispatch(s, name, msg, clock))
  {
    DispatchSound(s, name, msg, clock);
    var s1 := Enqueue(s, name, msg);
    SoundIgnores(s, s1);
    PurgeSound(s1, clock);
    PurgeKeepsServices(s1, clock);
    PurgeQuiet(s1, clock);
    var s2 := Purge(s1, clock);
    forall n ensures NoneIdle(DispatchLoop(s2, name), n) && Fifo(DispatchLoop(s2, name), n) {
      EnqueueFifo(s, name, msg, n);
      QuietKeeps(s1, s2, n);
      assert n != name ==> NoneIdle(s, n);
      DispatchLoopSettles(s2, name, n);
    }
  }

  lemma WaitingInv(s: State, w: Id, clock: nat -> int)
    requires Inv(s) && w in s.workers && w !in s.waiting
    ensures Inv(WorkerWaiting(s, w, clock))
  {
    assert Serviced(s, w);
    ListedSound(s, w, clock);
    var t := Listed(s, w, clock);
    var name := s.workers[w].service.value;
    forall n ensures Fifo(t, n) { assert Fifo(s, n); }
    forall n | n != name ensures NoneIdle(t, n) { assert NoneIdle(s, n); }
    DispatchInv(t, name, None, clock);
  }

  lemma QuietInv(s: State, t: State)
    requires Inv(s) && Sound(t) && Quiet(s, t)
    ensures Inv(t)
  {
    forall n ensures NoneIdle(t, n) && Fifo(t, n) {
      assert NoneIdle(s, n) && Fifo(s, n);
      QuietKeeps(s, t, n);
    }
  }

  // ------------------------------------------------------------- turns and whole runs

  lemma NewcomerInv(s: State, w: Id, name: Name, clock: nat -> int)
    requires Inv(s) && w !in s.workers
    ensures Inv(WorkerWaiting(Bind(WorkerRequire(s, w), w, name), w, clock))
  {
    BindSound(s, w, name);
    var s1 := Bind(WorkerRequire(s, w), w, name);
    forall n ensures QueueOf(s1, n) == QueueOf(s, n) { }
    QuietInv(s, s1);
    WaitingInv(s1, w, clock);
  }

  lemma ReplyInv(s: State, w: Id, rest: Msg, clock: nat -> int)
    requires Inv(s) && w in s.workers && w !in s.waiting && rest != []
    ensures s.workers[w].service.Some? && Inv(WorkerWaiting(Forward(s, w, rest), w, clock))
  {
    assert Serviced(s, w);
    var s1 := Forward(s, w, rest);
    SoundIgnores(s, s1);
    QuietInv(s, s1);
    WaitingInv(s1, w, clock);
  }

  lemma DeleteInv(s: State, w: Id, disconnect: bool)
    requires Inv(s)
    ensures Inv(WorkerDelete(WorkerRequire(s, w), w, disconnect))
  {
    var t := WorkerDelete(WorkerRequire(s, w), w, disconnect);
    if w in s.workers {
      DeleteSound(s, w, disconnect);
      DeleteQuiet(s, w, disconnect);
    } else {
      StrangerSound(s, w, disconnect);
    }
    QuietInv(s, t);
  }

  lemma WorkerMsgInv(s: State, sender: Id, msg: Msg, clock: nat -> int)
    requires Inv(s) && WorkerCompliant(s, sender, msg)
    ensures Inv(WorkerMsg(s, sender, msg, clock))
  {
    var command, rest, ready := msg[0], msg[1..], sender in s.workers;
    if command == READY {
      if ready || StartsMmi(sender) {
        DeleteInv(s, sender, true);
      } else {
        NewcomerInv(s, sender, CString(rest[0]), clock);
      }
    } else if command == REPLY {
      if ready { ReplyInv(s, sender, rest, clock); } else { DeleteInv(s, sender, true); }
    } else if command == HEARTBEAT {
      if ready {
        HeartbeatSound(s, sender, clock);
        QuietInv(s, WorkerMsg(s, sender, [HEARTBEAT], clock));
      } else {
        DeleteInv(s, sender, true);
      }
    } else if command == DISCONNECT {
      DeleteInv(s, sender, false);
    }
  }

  lemma ClientMsgInv(s: State, sender: Id, msg: Msg, clock: nat -> int)
    requires Inv(s) && |msg| >= 2
    ensures Inv(ClientMsg(s, sender, msg, clock))
  {
    var t, name := ClientMsg(s, sender, msg, clock), CString(msg[0]);
    var s1 := ServiceRequire(s, name);
    ServiceRequireSound(s, name);
    QuietInv(s, s1);
    if StartsMmi(msg[0]) {
      SoundIgnores(s1, t);
      QuietInv(s1, t);
    } else {
      DispatchInv(s1, name, Some(Wrap(sender, msg[1..])), clock);
    }
  }

  lemma HeartbeatAllSends(s: State, ws: seq<Id>)
    ensures HeartbeatAll(s, ws) == s.(sent := HeartbeatAll(s, ws).sent)
    decreases ws
  {
    if ws != [] { HeartbeatAllSends(WorkerSend(s, ws[0], HEARTBEAT, []), ws[1..]); }
  }

  lemma TimerInv(s: State, clock: nat -> int)
    requires Inv(s)
    ensures Inv(Timer(s, clock))
  {
    var s1, t := s.(ticks := s.ticks + 1), Timer(s, clock);
    SoundIgnores(s, s1);
    QuietInv(s, s1);
    PurgeSound(s1, clock);
    PurgeQuiet(s1, clock);
    var s2 := Purge(s1, clock);
    QuietInv(s1, s2);
    if clock(s.ticks) > s.heartbeatAt {
      HeartbeatAllSends(s2, s2.waiting);
      SoundIgnores(s2, t);
      QuietInv(s2, t);
    }
  }

  /** The messages the broker survives in state `s`. */
  ghost predicate Compliant(s: State, msg: Msg) {
    && |msg| >= 3
    && (msg[2] == MDPC_CLIENT ==> |msg| >= 5)
    && (msg[2] == MDPW_WORKER ==> WorkerCompliant(s, msg[0], msg[3..]))
  }

  lemma ReceiveKeepsInv(s: State, msg: Msg, clock: nat -> int)
    requires Inv(s) && Compliant(s, msg)
    ensures Inv(Receive(s, msg, clock))
  {
    if msg[2] == MDPC_CLIENT {
      ClientMsgInv(s, msg[0], msg[3..], clock);
    } else if msg[2] == MDPW_WORKER {
      WorkerMsgInv(s, msg[0], msg[3..], clock);
    }
  }

  /** A turn on a compliant message, or on none, keeps the invariant. */
  lemma TurnKeepsInv(s: State, msg: Option<Msg>, clock: nat -> int)
    requires Inv(s) && (msg.Some? ==> Compliant(s, msg.value))
    ensures Inv(Turn(s, msg, clock))
  {
    if msg.Some? { ReceiveKeepsInv(s, msg.value, clock); }
    var s1 := if msg.None? then s else Receive(s, msg.value, clock);
    TimerInv(s1, clock);
  }

  function Run(msgs: seq<Option<Msg>>, clock: nat -> int): State {
    if msgs == [] then Init(clock)
    else Turn(Run(msgs[..|msgs| - 1], clock), msgs[|msgs| - 1], clock)
  }

  /** Every message of the run is compliant in the state it meets. */
  ghost predicate CompliantRun(msgs: seq<Option<Msg>>, clock: nat -> int) {
    forall i :: 0 <= i < |msgs| && msgs[i].Some? ==> Compliant(Run(msgs[..i], clock), msgs[i].value)
  }

  lemma InitInv(clock: nat -> int)
    ensures Inv(Init(clock))
  {
    forall n ensures Fifo(Init(clock), n) && NoneIdle(Init(clock), n) && ServiceSound(Init(clock), n) { }
    forall w ensures Serviced(Init(clock), w) { }
  }

  /** In every state reached by compliant messages, whatever the clock says: the waiting lists
      agree, the counters are exact, no service has both worker and request, requests are FIFO. */
  lemma {:induction false} RunInv(msgs: seq<Option<Msg>>, clock: nat -> int)
    requires CompliantRun(msgs, clock)
    ensures Inv(Run(msgs, clock))
  {
    if msgs == [] {
      InitInv(clock);
    } else {
      var n := |msgs| - 1;
      var pre := msgs[..n];
      forall i | 0 <= i < n && pre[i].Some? ensures Compliant(Run(pre[..i], clock), pre[i].value) {
        assert pre[..i] == msgs[..i];
      }
      RunInv(pre, clock);
      TurnKeepsInv(Run(pre, clock), msgs[n], clock);
    }
  }

  /** In a sound state the management interface tells the truth. */
  lemma MmiTruthful(s: State, arg: Frame, n: Name)
    requires Sound(s) && n == CString(arg)
    ensures MmiCode(s, "mmi.service", arg) == "200" <==> exists w :: BoundTo(s.workers, w, n)
  {
    assert ServiceSound(s, n);
    if exists w :: BoundTo(s.workers, w, n) {
      var w :| BoundTo(s.workers, w, n);
      assert Serviced(s, w);
      assert w in Bound(s.workers, n);
      assert |Bound(s.workers, n)| != 0;
    } else {
      assert Bound(s.workers, n) == {};
    }
  }

  // ----------------------------------------------- compliance is exactly what is needed

  function Occurs(ws: seq<Id>, w: Id): nat {
    if ws == [] then 0 else (if ws[0] == w then 1 else 0) + Occurs(ws[1..], w)
  }

  lemma OccursRemove(ws: seq<Id>, x: Id, w: Id)
    ensures Occurs(Remove(ws, x), w) == if x == w && Occurs(ws, w) > 0 then Occurs(ws, w) - 1 else Occurs(ws, w)
  {
  }

  lemma OccursAppend(ws: seq<Id>, w: Id)
    ensures Occurs(ws + [w], w) == Occurs(ws, w) + 1
  {
    if ws != [] { assert (ws + [w])[1..] == ws[1..] + [w]; }
  }

  lemma OccursMember(ws: seq<Id>, w: Id)
    ensures w in ws <==> Occurs(ws, w) > 0
    ensures Distinct(ws) ==> Occurs(ws, w) <= 1
  {
    if ws != [] {
      var t := ws[1..];
      OccursMember(t, w);
      if Distinct(ws) {
        assert forall i, j :: 0 <= i < j < |t| ==> t[i] == ws[i + 1] && t[j] == ws[j + 1];
        assert ws[0] !in t;
      }
    }
  }

  /** Worker `w` is listed twice, or listed though freed, or the broker has failed. */
  ghost predicate Broken(s: State, w: Id) {
    s.dead || Occurs(s.waiting, w) >= 2 || (Occurs(s.waiting, w) > 0 && w !in s.workers)
  }

  lemma BrokenUnsound(s: State, w: Id)
    requires Broken(s, w)
    ensures !Sound(s)
  {
    OccursMember(s.waiting, w);
  }

  /** Deleting expired workers never heals a double entry. */
  lemma {:induction false} PurgeStaysBroken(s: State, w: Id, clock: nat -> int)
    requires Broken(s, w)
    ensures Broken(Purge(s, clock), w)
    decreases |s.waiting|
  {
    if s.waiting != [] && s.waiting[0] in s.workers && clock(s.ticks) >= s.workers[s.waiting[0]].expiry {
      OccursRemove(s.waiting, s.waiting[0], w);
      PurgeStaysBroken(WorkerDelete(s.(ticks := s.ticks + 1), s.waiting[0], false), w, clock);
    }
  }

  /** A registered worker that is not waiting is left alone by the purge. */
  lemma {:induction false} PurgeSpares(s: State, w: Id, clock: nat -> int)
    requires Occurs(s.waiting, w) == 0 && w in s.workers
    ensures var t := Purge(s, clock); Occurs(t.waiting, w) == 0 && w in t.workers && t.workers[w] == s.workers[w]
    decreases |s.waiting|
  {
    if s.waiting != [] && s.waiting[0] in s.workers && clock(s.ticks) >= s.workers[s.waiting[0]].expiry {
      OccursRemove(s.waiting, s.waiting[0], w);
      PurgeSpares(WorkerDelete(s.(ticks := s.ticks + 1), s.waiting[0], false), w, clock);
    }
  }

  lemma TimerStaysBroken(s: State, w: Id, clock: nat -> int)
    requires Broken(s, w)
    ensures Broken(Timer(s, clock), w)
  {
    var s1 := s.(ticks := s.ticks + 1);
    PurgeStaysBroken(s1, w, clock);
    HeartbeatAllSends(Purge(s1, clock), Purge(s1, clock).waiting);
  }

  /** A second REPLY from a worker that is already waiting. */
  lemma SecondReplyBreaks(s: State, w: Id, rest: Msg, clock: nat -> int)
    requires Inv(s) && w in s.waiting && rest != []
    ensures Broken(WorkerMsg(s, w, [REPLY] + rest, clock), w)
  {
    assert Serviced(s, w);
    var name := s.workers[w].service.value;
    var s1 := Forward(s, w, rest);
    var q := Listed(s1, w, clock);
    OccursMember(s.waiting, w);
    OccursAppend(s.waiting, w);
    assert NoneIdle(s, name) && ServiceSound(s, name);
    ProjMembers(s.waiting, s.workers, name);
    assert w in s.services[name].waiting;
    assert QueueOf(q, name) == [];
    PurgeQuiet(q, clock);
    PurgeKeepsServices(q, clock);
    PurgeStaysBroken(q, w, clock);
    assert QueueOf(Purge(q, clock), name) == [];
    assert ([REPLY] + rest)[1..] == rest;
    assert WorkerMsg(s, w, [REPLY] + rest, clock) == Dispatch(q, name, None, clock);
  }

  /** An unknown command from a stranger leaves a worker bound to no service. */
  lemma UnknownCommandBreaks(s: State, w: Id, msg: Msg, clock: nat -> int)
    requires Inv(s) && w !in s.workers && msg != [] && msg[0] !in {READY, REPLY, HEARTBEAT, DISCONNECT}
    ensures !Sound(Timer(WorkerMsg(s, w, msg, clock), clock))
  {
    var s1 := WorkerMsg(s, w, msg, clock);
    var s2 := s1.(ticks := s1.ticks + 1);
    OccursMember(s.waiting, w);
    PurgeSpares(s2, w, clock);
    HeartbeatAllSends(Purge(s2, clock), Purge(s2, clock).waiting);
    assert !Serviced(Timer(s1, clock), w);
  }

  lemma WorkerMsgBreaks(s: State, w: Id, msg: Msg, clock: nat -> int)
    requires Inv(s) && !WorkerCompliant(s, w, msg)
    ensures var t := WorkerMsg(s, w, msg, clock); t.dead || !Sound(Timer(t, clock))
  {
    if msg != [] && msg[0] == REPLY && |msg| > 1 {
      assert msg == [REPLY] + msg[1..];
      SecondReplyBreaks(s, w, msg[1..], clock);
      var t := WorkerMsg(s, w, msg, clock);
      TimerStaysBroken(t, w, clock);
      BrokenUnsound(Timer(t, clock), w);
    } else if msg != [] && msg[0] !in {READY, REPLY, HEARTBEAT, DISCONNECT} {
      UnknownCommandBreaks(s, w, msg, clock);
    } else if msg != [] && msg[0] == REPLY {
      assert msg[1..] == [];
    }
  }

  /** From any invariant state the next turn keeps the invariant if and only if the message
      it takes is compliant. */
  lemma InvIffCompliant(s: State, msg: Msg, clock: nat -> int)
    requires Inv(s)
    ensures Inv(Turn(s, Some(msg), clock)) <==> Compliant(s, msg)
  {
    if Compliant(s, msg) {
      TurnKeepsInv(s, Some(msg), clock);
    } else if |msg| >= 3 && msg[2] == MDPW_WORKER {
      WorkerMsgBreaks(s, msg[0], msg[3..], clock);
    }
  }
}
