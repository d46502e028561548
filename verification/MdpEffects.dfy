/** What the broker does with each message, as its peers can see it: what it sends, whom it registers
    and until when, and which requests it has taken. */
module MdpEffects {
  import opened Frames
  import opened MdpBroker
  import opened MdpInvariants
  import opened Options

  // ----------------------------------------------------------------------- the timer

  lemma {:induction false} PurgeSilent(s: State, clock: nat -> int)
    ensures Purge(s, clock).sent == s.sent && Purge(s, clock).log == s.log
    ensures Purge(s, clock).heartbeatAt == s.heartbeatAt && Purge(s, clock).ticks >= s.ticks
    decreases |s.waiting|
  {
    if s.waiting != [] && s.waiting[0] in s.workers && clock(s.ticks) >= s.workers[s.waiting[0]].expiry {
      PurgeSilent(WorkerDelete(s.(ticks := s.ticks + 1), s.waiting[0], false), clock);
    }
  }

  /** One heartbeat each for `ws`, in order, and nothing else. */
  ghost predicate BeatEach(before: seq<Msg>, after: seq<Msg>, ws: seq<Id>) {
    && |after| == |before| + |ws| && before <= after
    && forall i :: 0 <= i < |ws| ==> after[|before| + i] == [ws[i], "", MDPW_WORKER, HEARTBEAT]
  }

  lemma BeatMore(before: seq<Msg>, w: Id, after: seq<Msg>, ws: seq<Id>)
    requires ws != [] && ws[0] == w && BeatEach(before + [[w, "", MDPW_WORKER, HEARTBEAT]], after, ws[1..])
    ensures BeatEach(before, after, ws)
  {
    var b := before + [[w, "", MDPW_WORKER, HEARTBEAT]];
    assert after[..|b|] == b && after[|before|] == b[|before|];
    forall i | 0 <= i < |ws| ensures after[|before| + i] == [ws[i], "", MDPW_WORKER, HEARTBEAT] {
      if i > 0 { assert after[|b| + (i - 1)] == [ws[1..][i - 1], "", MDPW_WORKER, HEARTBEAT]; }
    }
    assert before <= b;
  }

  lemma {:induction false} HeartbeatAllBeats(s: State, ws: seq<Id>)
    ensures BeatEach(s.sent, HeartbeatAll(s, ws).sent, ws)
    decreases |ws|
  {
    if ws != [] {
      HeartbeatAllBeats(WorkerSend(s, ws[0], HEARTBEAT, []), ws[1..]);
      assert Wrap(ws[0], [MDPW_WORKER, HEARTBEAT] + []) == [ws[0], "", MDPW_WORKER, HEARTBEAT];
      BeatMore(s.sent, ws[0], HeartbeatAll(s, ws).sent, ws);
    }
  }

  /** When a beat is due every worker still waiting after the purge gets one heartbeat, in order, and the
      next is due 2500 ms after the last reading of the clock; until then nothing is sent. */
  lemma TimerSends(s: State, clock: nat -> int)
    ensures var t := Timer(s, clock);
      if clock(s.ticks) <= s.heartbeatAt then t == s.(ticks := s.ticks + 1)
      else !t.dead ==>
        BeatEach(s.sent, t.sent, t.waiting) && t.ticks > 0 && t.heartbeatAt == clock(t.ticks - 1) + 2500
  {
    if clock(s.ticks) > s.heartbeatAt {
      var u := Purge(s.(ticks := s.ticks + 1), clock);
      PurgeSilent(s.(ticks := s.ticks + 1), clock);
      HeartbeatAllSends(u, u.waiting);
      HeartbeatAllBeats(u, u.waiting);
    }
  }

  // -------------------------------------------------------- the management interface

  /** What a request to the management interface is told: whether any worker is bound to the service its
      last frame names, or that there is no such function. */
  ghost function Truth(s: State, service: Frame, arg: Frame): Frame {
    if service != "mmi.service" then "501"
    else if exists w :: BoundTo(s.workers, w, CString(arg)) then "200" else "404"
  }

  lemma MmiCodeTrue(s: State, service: Frame, arg: Frame)
    requires Sound(s)
    ensures MmiCode(s, service, arg) == Truth(s, service, arg)
  {
    MmiTruthful(s, arg, CString(arg));
  }

  /** The one message it gets back is its own request with the last frame replaced by the truth; nothing
      else is sent, and no worker is touched. */
  lemma MmiAnswer(s: State, sender: Id, msg: Msg, clock: nat -> int)
    requires Sound(s) && |msg| >= 2 && StartsMmi(msg[0])
    ensures var t := ClientMsg(s, sender, msg, clock); var last := |msg| - 1;
      && t.sent == s.sent + [[sender, "", MDPC_CLIENT] + msg[..last] + [Truth(s, msg[0], msg[last])]]
      && t.workers == s.workers && t.waiting == s.waiting && !t.dead
  {
    var service, body := msg[0], msg[1..];
    var s1 := ServiceRequire(s, CString(service));
    ServiceRequireSound(s, CString(service));
    MmiCodeTrue(s1, service, body[|body| - 1]);
    var code := Truth(s, service, msg[|msg| - 1]);
    assert body[|body| - 1] == msg[|msg| - 1] && [service] + body[..|body| - 1] == msg[..|msg| - 1];
    assert Wrap(sender, [MDPC_CLIENT, service] + body[..|body| - 1] + [code]) ==
           [sender, "", MDPC_CLIENT] + msg[..|msg| - 1] + [code];
  }

  // --------------------------------------------------------- what worker messages bring about

  lemma Commands()
    ensures READY != REPLY && READY != HEARTBEAT && READY != DISCONNECT && REPLY != HEARTBEAT
    ensures REPLY != DISCONNECT && HEARTBEAT != DISCONNECT
  {
    assert READY[0] != REPLY[0] && READY[0] != HEARTBEAT[0] && READY[0] != DISCONNECT[0];
    assert REPLY[0] != HEARTBEAT[0] && REPLY[0] != DISCONNECT[0] && HEARTBEAT[0] != DISCONNECT[0];
  }

  /** A reply or a heartbeat from someone not registered, and READY from someone whose name starts with
      "mmi.", is answered with DISCONNECT, and that is all; DISCONNECT is not answered. */
  lemma TurnedAway(s: State, w: Id, msg: Msg, clock: nat -> int)
    requires Sound(s) && w !in s.workers && msg != []
    requires msg[0] in {REPLY, HEARTBEAT, DISCONNECT} || (msg[0] == READY && StartsMmi(w))
    ensures WorkerMsg(s, w, msg, clock) ==
            if msg[0] == DISCONNECT then s else s.(sent := s.sent + [[w, "", MDPW_WORKER, DISCONNECT]])
  {
    Commands();
    RemoveAbsent(s.waiting, w);
    assert s.workers[w := Worker(None, 0)] - {w} == s.workers;
    assert Wrap(w, [MDPW_WORKER, DISCONNECT] + []) == [w, "", MDPW_WORKER, DISCONNECT];
  }

  /** A worker that says DISCONNECT, or READY a second time, is registered no more, waits nowhere, and is
      told to disconnect in the second case only; no other worker is touched. */
  lemma Unregisters(s: State, w: Id, msg: Msg, clock: nat -> int)
    requires Sound(s) && w in s.workers && msg != [] && msg[0] in {READY, DISCONNECT}
    ensures var t := WorkerMsg(s, w, msg, clock);
      && t.workers == s.workers - {w} && w !in t.waiting && !t.dead
      && (forall x :: x != w ==> (x in t.waiting <==> x in s.waiting))
      && (forall n :: n in t.services ==> w !in t.services[n].waiting)
      && t.sent == s.sent + if msg[0] == READY then [[w, "", MDPW_WORKER, DISCONNECT]] else []
  {
    Commands();
    var t := WorkerDelete(s, w, msg[0] == READY);
    DeleteSound(s, w, msg[0] == READY);
    RemoveMembers(s.waiting, w);
    assert Wrap(w, [MDPW_WORKER, DISCONNECT] + []) == [w, "", MDPW_WORKER, DISCONNECT];
    forall n | n in t.services ensures w !in t.services[n].waiting {
      assert ServiceSound(t, n);
      ProjMembers(t.waiting, t.workers, n);
    }
  }

  /** A reply goes to the client it is addressed to, under the name of the worker's service, before
      anything else is sent. */
  lemma ForwardsReply(s: State, w: Id, client: Id, body: Msg, clock: nat -> int)
    requires Inv(s) && w in s.workers && w !in s.waiting
    ensures s.workers[w].service.Some?
    ensures var t := WorkerMsg(s, w, [REPLY] + Wrap(client, body), clock);
      s.sent + [[client, "", MDPC_CLIENT, s.workers[w].service.value] + body] <= t.sent
  {
    Commands();
    assert Serviced(s, w);
    var rest := Wrap(client, body);
    assert ([REPLY] + rest)[1..] == rest;
    WrapUnwrap(client, body);
    var f, n := Forward(s, w, rest), s.workers[w].service.value;
    assert Wrap(client, [MDPC_CLIENT, n] + body) == [client, "", MDPC_CLIENT, n] + body;
    assert f.sent == s.sent + [[client, "", MDPC_CLIENT, s.workers[w].service.value] + body];
    DispatchOnlySends(Listed(f, w, clock), f.workers[w].service.value, None, clock);
  }

  lemma {:induction false} LoopOnlySends(s: State, name: Name)
    requires name in s.services
    ensures s.sent <= DispatchLoop(s, name).sent && DispatchLoop(s, name).workers == s.workers
    decreases |s.services[name].requests|
  {
    if !s.dead && s.services[name].waiting != [] && s.services[name].requests != [] {
      LoopOnlySends(DispatchOne(s, name), name);
    }
  }

  lemma DispatchOnlySends(s: State, name: Name, msg: Option<Msg>, clock: nat -> int)
    requires name in s.services
    ensures s.sent <= Dispatch(s, name, msg, clock).sent
    ensures Dispatch(s, name, msg, clock).workers == Purge(Enqueue(s, name, msg), clock).workers
  {
    var e := Enqueue(s, name, msg);
    PurgeSilent(e, clock);
    PurgeKeepsServices(e, clock);
    LoopOnlySends(Purge(e, clock), name);
  }

  // ------------------------------------------------------------- until when a worker is kept

  /** Every worker of `t` was there in `s`, and is unchanged. */
  ghost predicate Subset(t: map<Id, Worker>, s: map<Id, Worker>) {
    forall x :: x in t ==> x in s && t[x] == s[x]
  }

  lemma {:induction false} PurgeSubset(s: State, clock: nat -> int)
    ensures Subset(Purge(s, clock).workers, s.workers)
    decreases |s.waiting|
  {
    if s.waiting != [] && s.waiting[0] in s.workers && clock(s.ticks) >= s.workers[s.waiting[0]].expiry {
      PurgeSubset(WorkerDelete(s.(ticks := s.ticks + 1), s.waiting[0], false), clock);
    }
  }

  lemma DispatchSubset(s: State, name: Name, msg: Option<Msg>, clock: nat -> int)
    requires name in s.services
    ensures Subset(Dispatch(s, name, msg, clock).workers, s.workers)
  {
    DispatchOnlySends(s, name, msg, clock);
    PurgeSubset(Enqueue(s, name, msg), clock);
  }

  lemma TimerSubset(s: State, clock: nat -> int)
    ensures Subset(Timer(s, clock).workers, s.workers)
  {
    var s1 := s.(ticks := s.ticks + 1);
    PurgeSubset(s1, clock);
    HeartbeatAllSends(Purge(s1, clock), Purge(s1, clock).waiting);
  }

  /** The message keeps its sender: a registration, a reply or a heartbeat. */
  predicate Refreshes(m: Option<Msg>, x: Id) {
    && m.Some? && |m.value| >= 4 && m.value[0] == x && m.value[2] == MDPW_WORKER
    && m.value[3] in {READY, REPLY, HEARTBEAT}
  }

  /** A worker is the one it was, or it has just been heard and is kept for 7500 ms. */
  ghost predicate KeptAs(s: State, t: State, m: Option<Msg>, clock: nat -> int, x: Id) {
    x in t.workers ==>
      if Refreshes(m, x) then t.workers[x].expiry == clock(s.ticks) + 7500
      else x in s.workers && t.workers[x] == s.workers[x]
  }

  lemma WaitingKeeps(s: State, w: Id, clock: nat -> int, x: Id)
    requires w in s.workers && Serviced(s, w)
    ensures var t := WorkerWaiting(s, w, clock);
      x in t.workers ==>
        if x == w then t.workers[x].expiry == clock(s.ticks) + 7500 else x in s.workers && t.workers[x] == s.workers[x]
  {
    DispatchSubset(Listed(s, w, clock), s.workers[w].service.value, None, clock);
  }

  lemma ReadyKeeps(s: State, w: Id, rest: Msg, clock: nat -> int, x: Id)
    requires Inv(s) && w !in s.workers && !StartsMmi(w) && rest != []
    ensures var t := ReadyMsg(WorkerRequire(s, w), w, rest, false, clock);
      x in t.workers ==>
        if x == w then t.workers[x].expiry == clock(s.ticks) + 7500 else x in s.workers && t.workers[x] == s.workers[x]
  {
    WaitingKeeps(Bind(WorkerRequire(s, w), w, CString(rest[0])), w, clock, x);
  }

  lemma ReplyKeeps(s: State, w: Id, rest: Msg, clock: nat -> int, x: Id)
    requires Inv(s) && w in s.workers && rest != []
    ensures var t := ReplyMsg(s, w, rest, true, clock);
      x in t.workers ==>
        if x == w then t.workers[x].expiry == clock(s.ticks) + 7500 else x in s.workers && t.workers[x] == s.workers[x]
  {
    assert Serviced(s, w);
    assert Serviced(Forward(s, w, rest), w);
    WaitingKeeps(Forward(s, w, rest), w, clock, x);
  }

  lemma WorkerMsgKeeps(s: State, w: Id, msg: Msg, clock: nat -> int, x: Id)
    requires Inv(s) && WorkerCompliant(s, w, msg)
    ensures KeptAs(s, WorkerMsg(s, w, msg, clock), Some([w, "", MDPW_WORKER] + msg), clock, x)
  {
    Commands();
    var m := [w, "", MDPW_WORKER] + msg;
    assert m[3] == msg[0] && (Refreshes(Some(m), x) <==> x == w && msg[0] in {READY, REPLY, HEARTBEAT});
    if msg[0] == READY && w !in s.workers && !StartsMmi(w) {
      ReadyKeeps(s, w, msg[1..], clock, x);
    } else if msg[0] == REPLY && w in s.workers {
      ReplyKeeps(s, w, msg[1..], clock, x);
    }
  }

  lemma ReceiveKeeps(s: State, m: Msg, clock: nat -> int, x: Id)
    requires Inv(s) && Compliant(s, m)
    ensures KeptAs(s, MdpBroker.Receive(s, m, clock), Some(m), clock, x)
  {
    if m[2] == MDPC_CLIENT {
      assert MDPC_CLIENT != MDPW_WORKER by { assert MDPC_CLIENT[3] != MDPW_WORKER[3]; }
      var s1 := ServiceRequire(s, CString(m[3..][0]));
      if !StartsMmi(m[3..][0]) {
        DispatchSubset(s1, CString(m[3..][0]), Some(Wrap(m[0], m[3..][1..])), clock);
      }
    } else if m[2] == MDPW_WORKER {
      WorkerMsgKeeps(s, m[0], m[3..], clock, x);
      var n := [m[0], "", MDPW_WORKER] + m[3..];
      assert n[3..] == m[3..] && (Refreshes(Some(m), x) <==> Refreshes(Some(n), x));
    }
  }

  lemma TurnKeeps(s: State, m: Option<Msg>, clock: nat -> int, x: Id)
    requires Inv(s) && (m.Some? ==> Compliant(s, m.value))
    ensures KeptAs(s, Turn(s, m, clock), m, clock, x)
  {
    if m.Some? { ReceiveKeeps(s, m.value, clock, x); }
    TimerSubset(if m.None? then s else MdpBroker.Receive(s, m.value, clock), clock);
  }

  /** The last turn that brought a message keeping `x`, counting from 1; 0 if none. */
  function LastKept(msgs: seq<Option<Msg>>, x: Id): nat {
    if msgs == [] then 0
    else if Refreshes(msgs[|msgs| - 1], x) then |msgs|
    else LastKept(msgs[..|msgs| - 1], x)
  }

  lemma CompliantSoFar(msgs: seq<Option<Msg>>, clock: nat -> int)
    requires msgs != [] && CompliantRun(msgs, clock)
    ensures var n := |msgs| - 1;
      && CompliantRun(msgs[..n], clock)
      && (msgs[n].Some? ==> Compliant(Run(msgs[..n], clock), msgs[n].value))
  {
    var n := |msgs| - 1;
    forall i | 0 <= i < n && msgs[..n][i].Some? ensures Compliant(Run(msgs[..n][..i], clock), msgs[..n][i].value) {
      assert msgs[..n][..i] == msgs[..i];
    }
  }

  /** In every run each registered worker has been heard, and its time is 7500 ms after the first clock
      reading of the turn in which it was heard last. */
  lemma {:induction false} RunKeeps(msgs: seq<Option<Msg>>, clock: nat -> int, x: Id)
    requires CompliantRun(msgs, clock) && x in Run(msgs, clock).workers
    ensures var k := LastKept(msgs, x);
      0 < k <= |msgs| && Run(msgs, clock).workers[x].expiry == clock(Run(msgs[..k - 1], clock).ticks) + 7500
  {
    var n := |msgs| - 1;
    var pre := msgs[..n];
    CompliantSoFar(msgs, clock);
    RunInv(pre, clock);
    TurnKeeps(Run(pre, clock), msgs[n], clock, x);
    if !Refreshes(msgs[n], x) {
      RunKeeps(pre, clock, x);
      var k := LastKept(msgs, x);
      assert pre[..k - 1] == msgs[..k - 1];
    }
  }

  // ------------------------------------------------------------ who is not thrown out

  /** No reading of the clock from `from` on reaches `time`. */
  ghost predicate NotReached(clock: nat -> int, from: nat, time: int) {
    forall i: nat :: i >= from ==> clock(i) < time
  }

  lemma {:induction false} PurgeKeepsFresh(s: State, clock: nat -> int, x: Id)
    requires x in s.workers && NotReached(clock, s.ticks, s.workers[x].expiry)
    ensures x in Purge(s, clock).workers && Purge(s, clock).workers[x] == s.workers[x]
    decreases |s.waiting|
  {
    if s.waiting != [] && s.waiting[0] in s.workers && clock(s.ticks) >= s.workers[s.waiting[0]].expiry {
      PurgeKeepsFresh(WorkerDelete(s.(ticks := s.ticks + 1), s.waiting[0], false), clock, x);
    }
  }

  lemma DispatchKeepsFresh(s: State, name: Name, msg: Option<Msg>, clock: nat -> int, x: Id)
    requires name in s.services && x in s.workers && NotReached(clock, s.ticks, s.workers[x].expiry)
    ensures var t := Dispatch(s, name, msg, clock); x in t.workers && t.workers[x] == s.workers[x]
  {
    DispatchOnlySends(s, name, msg, clock);
    PurgeKeepsFresh(Enqueue(s, name, msg), clock, x);
  }

  /** A newcomer with a proper name is registered for the service it names, unless its own 7500 ms are over
      within the turn. */
  lemma ReadyRegisters(s: State, w: Id, rest: Msg, clock: nat -> int)
    requires Inv(s) && w !in s.workers && !StartsMmi(w) && rest != []
    requires NotReached(clock, s.ticks, clock(s.ticks) + 7500)
    ensures var t := WorkerMsg(s, w, [READY] + rest, clock);
      w in t.workers && t.workers[w] == Worker(Some(CString(rest[0])), clock(s.ticks) + 7500)
  {
    Commands();
    var b := Bind(WorkerRequire(s, w), w, CString(rest[0]));
    assert ([READY] + rest)[1..] == rest;
    DispatchKeepsFresh(Listed(b, w, clock), CString(rest[0]), None, clock, w);
  }

  /** The message unregisters its sender. */
  predicate Expels(m: Option<Msg>, x: Id) {
    && m.Some? && |m.value| >= 4 && m.value[0] == x && m.value[2] == MDPW_WORKER
    && m.value[3] in {READY, DISCONNECT}
  }

  lemma WorkerMsgSpares(s: State, w: Id, msg: Msg, clock: nat -> int, x: Id)
    requires Inv(s) && WorkerCompliant(s, w, msg) && x in s.workers && !(x == w && msg[0] in {READY, DISCONNECT})
    requires NotReached(clock, s.ticks, s.workers[x].expiry) && NotReached(clock, s.ticks, clock(s.ticks) + 7500)
    ensures x in WorkerMsg(s, w, msg, clock).workers
  {
    Commands();
    if msg[0] == READY && w !in s.workers && !StartsMmi(w) {
      var b := Bind(WorkerRequire(s, w), w, CString(msg[1]));
      DispatchKeepsFresh(Listed(b, w, clock), CString(msg[1]), None, clock, x);
    } else if msg[0] == REPLY && w in s.workers {
      assert Serviced(s, w);
      var f := Forward(s, w, msg[1..]);
      DispatchKeepsFresh(Listed(f, w, clock), f.workers[w].service.value, None, clock, x);
    }
  }

  lemma ReceiveSpares(s: State, m: Msg, clock: nat -> int, x: Id)
    requires Inv(s) && Compliant(s, m) && x in s.workers && !Expels(Some(m), x)
    requires NotReached(clock, s.ticks, s.workers[x].expiry) && NotReached(clock, s.ticks, clock(s.ticks) + 7500)
    ensures x in MdpBroker.Receive(s, m, clock).workers
  {
    if m[2] == MDPC_CLIENT {
      var s1 := ServiceRequire(s, CString(m[3..][0]));
      if !StartsMmi(m[3..][0]) {
        DispatchKeepsFresh(s1, CString(m[3..][0]), Some(Wrap(m[0], m[3..][1..])), clock, x);
      }
    } else if m[2] == MDPW_WORKER {
      assert m[3..][0] == m[3];
      WorkerMsgSpares(s, m[0], m[3..], clock, x);
    }
  }

  // ---------------------------------------------------------------- who is thrown out

  /** The worker at `j`, and everyone listed before it, is found expired, each by its own clock reading. */
  ghost predicate LateTo(s: State, clock: nat -> int, j: nat) {
    j < |s.waiting| && forall i: nat :: i <= j ==> Late(s, clock, i)
  }

  lemma {:induction false} PurgeExpels(s: State, clock: nat -> int, j: nat)
    requires Sound(s) && LateTo(s, clock, j)
    ensures s.waiting[j] !in Purge(s, clock).workers
    decreases |s.waiting|
  {
    assert Late(s, clock, 0);
    PurgeRound(s);
    var t := WorkerDelete(s.(ticks := s.ticks + 1), s.waiting[0], false);
    if j == 0 {
      PurgeSubset(t, clock);
    } else {
      forall i: nat | i <= j - 1 ensures Late(t, clock, i) { LateShifts(s, t, clock, i); }
      PurgeExpels(t, clock, j - 1);
    }
  }

  /** A request first throws out the expired workers at the front of the list: none of them is given it. */
  lemma RequestPurges(s: State, c: Id, msg: Msg, clock: nat -> int, j: nat)
    requires Inv(s) && |msg| >= 2 && !StartsMmi(msg[0]) && LateTo(s, clock, j)
    ensures s.waiting[j] !in ClientMsg(s, c, msg, clock).workers
  {
    var s1, name := ServiceRequire(s, CString(msg[0])), CString(msg[0]);
    var e := Enqueue(s1, name, Some(Wrap(c, msg[1..])));
    ServiceRequireSound(s, name);
    SoundIgnores(s1, e);
    assert forall i: nat :: Late(e, clock, i) == Late(s, clock, i);
    PurgeExpels(e, clock, j);
    DispatchOnlySends(s1, name, Some(Wrap(c, msg[1..])), clock);
  }

  /** So does a worker that says READY or REPLY. */
  lemma WaitingPurges(s: State, w: Id, clock: nat -> int, j: nat)
    requires Sound(s) && w in s.workers && w !in s.waiting && j < |s.waiting|
    requires LateTo(s.(ticks := s.ticks + 1), clock, j)
    ensures s.waiting[j] !in WorkerWaiting(s, w, clock).workers
  {
    assert Serviced(s, w);
    var l, s1 := Listed(s, w, clock), s.(ticks := s.ticks + 1);
    ListedSound(s, w, clock);
    forall i: nat | i <= j ensures Late(l, clock, i) {
      assert Late(s1, clock, i);
      assert l.waiting[i] == s.waiting[i] && s.waiting[i] in s.waiting;
    }
    PurgeExpels(l, clock, j);
    DispatchOnlySends(l, s.workers[w].service.value, None, clock);
  }

  /** And so does the timer, when heartbeats are due. */
  lemma TimerPurges(s: State, clock: nat -> int, j: nat)
    requires Sound(s) && clock(s.ticks) > s.heartbeatAt && LateTo(s.(ticks := s.ticks + 1), clock, j)
    ensures s.waiting[j] !in Timer(s, clock).workers
  {
    var s1 := s.(ticks := s.ticks + 1);
    SoundIgnores(s, s1);
    PurgeExpels(s1, clock, j);
    HeartbeatAllSends(Purge(s1, clock), Purge(s1, clock).waiting);
  }

  lemma {:induction false} LoopGives(s: State, name: Name)
    requires Sound(s) && name in s.services
    ensures var t := DispatchLoop(s, name);
      && s.log <= t.log && t.workers == s.workers
      && forall i :: |s.log| <= i < |t.log| ==> t.log[i].Dispatched? && BoundTo(t.workers, t.log[i].worker, name)
    decreases |s.services[name].requests|
  {
    if s.services[name].waiting != [] && s.services[name].requests != [] {
      DispatchOneSound(s, name);
      LoopGives(DispatchOne(s, name), name);
    }
  }

  /** Whoever is given a request is still registered after it, and for that very service. */
  lemma DispatchGives(s: State, name: Name, msg: Option<Msg>, clock: nat -> int)
    requires Sound(s) && name in s.services
    ensures var t := Dispatch(s, name, msg, clock);
      && s.log <= t.log
      && forall i :: |s.log| <= i < |t.log| && t.log[i].Dispatched? ==> BoundTo(t.workers, t.log[i].worker, name)
  {
    var e := Enqueue(s, name, msg);
    SoundIgnores(s, e);
    PurgeSilent(e, clock);
    PurgeSound(e, clock);
    PurgeKeepsServices(e, clock);
    LoopGives(Purge(e, clock), name);
  }

  // ---------------------------------------------------- which requests have been taken, and given

  /** The request in a message, by its frames alone: the service and what is to reach a worker. */
  function RequestIn(m: Option<Msg>): seq<(Name, Msg)> {
    if m.Some? && |m.value| >= 5 && m.value[2] == MDPC_CLIENT && !StartsMmi(m.value[3]) then
      [(CString(m.value[3]), [m.value[0], ""] + m.value[4..])]
    else []
  }

  function RequestsIn(msgs: seq<Option<Msg>>): seq<(Name, Msg)> {
    if msgs == [] then [] else RequestsIn(msgs[..|msgs| - 1]) + RequestIn(msgs[|msgs| - 1])
  }

  /** The requests accepted, and those given to a worker, by the log. */
  function Taken(log: seq<Event>): seq<(Name, Msg)> {
    if log == [] then []
    else
      var e := log[|log| - 1];
      Taken(log[..|log| - 1]) + if e.Accepted? then [(e.service, e.msg)] else []
  }

  function Given(log: seq<Event>): seq<(Id, Msg)> {
    if log == [] then []
    else
      var e := log[|log| - 1];
      Given(log[..|log| - 1]) + if e.Dispatched? then [(e.worker, e.msg)] else []
  }

  /** The REQUEST messages sent, with whom they went to. */
  function Sent(sent: seq<Msg>): seq<(Id, Msg)> {
    if sent == [] then []
    else
      var m := sent[|sent| - 1];
      Sent(sent[..|sent| - 1]) + if |m| >= 4 && m[1..4] == ["", MDPW_WORKER, REQUEST] then [(m[0], m[4..])] else []
  }

  lemma LogMore(log: seq<Event>, e: Event)
    ensures Taken(log + [e]) == Taken(log) + if e.Accepted? then [(e.service, e.msg)] else []
    ensures Given(log + [e]) == Given(log) + if e.Dispatched? then [(e.worker, e.msg)] else []
  {
    assert (log + [e])[..|log|] == log;
  }

  lemma SentMore(sent: seq<Msg>, m: Msg)
    ensures Sent(sent + [m]) ==
            Sent(sent) + if |m| >= 4 && m[1..4] == ["", MDPW_WORKER, REQUEST] then [(m[0], m[4..])] else []
  {
    assert (sent + [m])[..|sent|] == sent;
  }

  /** What has been taken is `taken`, and what has been sent to workers is what the log says was given. */
  ghost predicate Told(s: State, taken: seq<(Name, Msg)>) {
    Taken(s.log) == taken && Sent(s.sent) == Given(s.log)
  }

  /** Messages to workers other than REQUEST, and messages to clients, are none of these. */
  lemma ToldSend(s: State, m: Msg, taken: seq<(Name, Msg)>)
    requires Told(s, taken) && |m| >= 4 && (m[2] == MDPC_CLIENT || m[3] in {HEARTBEAT, DISCONNECT})
    ensures Told(s.(sent := s.sent + [m]), taken)
  {
    SentMore(s.sent, m);
    assert m[1..4][1] == m[2] && m[1..4][2] == m[3];
    assert MDPC_CLIENT[3] != MDPW_WORKER[3] && REQUEST[0] != HEARTBEAT[0] && REQUEST[0] != DISCONNECT[0];
  }

  lemma ToldDelete(s: State, w: Id, disconnect: bool, taken: seq<(Name, Msg)>)
    requires Told(s, taken) && w in s.workers
    ensures Told(WorkerDelete(s, w, disconnect), taken)
  {
    if disconnect { ToldSend(s, Wrap(w, [MDPW_WORKER, DISCONNECT] + []), taken); }
  }

  lemma ToldOne(s: State, name: Name, taken: seq<(Name, Msg)>)
    requires Told(s, taken) && name in s.services && s.services[name].waiting != [] && s.services[name].requests != []
    requires s.services[name].waiting[0] in s.workers
    ensures Told(DispatchOne(s, name), taken)
  {
    var w, m := s.services[name].waiting[0], s.services[name].requests[0];
    var frames := Wrap(w, [MDPW_WORKER, REQUEST] + m);
    LogMore(s.log, Dispatched(name, w, m));
    SentMore(s.sent, frames);
    assert frames[1..4] == ["", MDPW_WORKER, REQUEST] && frames[4..] == m;
  }

  lemma {:induction false} ToldLoop(s: State, name: Name, taken: seq<(Name, Msg)>)
    requires Sound(s) && Told(s, taken) && name in s.services
    ensures Told(DispatchLoop(s, name), taken)
    decreases |s.services[name].requests|
  {
    if s.services[name].waiting != [] && s.services[name].requests != [] {
      var w := s.services[name].waiting[0];
      assert ServiceSound(s, name);
      ProjMembers(s.waiting, s.workers, name);
      assert w in s.services[name].waiting;
      ToldOne(s, name, taken);
      DispatchOneSound(s, name);
      ToldLoop(DispatchOne(s, name), name, taken);
    }
  }

  lemma ToldDispatch(s: State, name: Name, msg: Option<Msg>, clock: nat -> int, taken: seq<(Name, Msg)>)
    requires Sound(s) && Told(s, taken) && name in s.services
    ensures Told(Dispatch(s, name, msg, clock), taken + if msg.Some? then [(name, msg.value)] else [])
  {
    var e := Enqueue(s, name, msg);
    if msg.Some? {
      LogMore(s.log, Accepted(name, msg.value));
      SoundIgnores(s, e);
    } else {
      assert taken + [] == taken;
    }
    PurgeSilent(e, clock);
    PurgeSound(e, clock);
    PurgeKeepsServices(e, clock);
    ToldLoop(Purge(e, clock), name, taken + if msg.Some? then [(name, msg.value)] else []);
  }

  lemma ToldWaiting(s: State, w: Id, clock: nat -> int, taken: seq<(Name, Msg)>)
    requires Sound(s) && Told(s, taken) && w in s.workers && w !in s.waiting
    ensures Told(WorkerWaiting(s, w, clock), taken)
  {
    assert Serviced(s, w);
    ListedSound(s, w, clock);
    ToldDispatch(Listed(s, w, clock), s.workers[w].service.value, None, clock, taken);
    assert taken + [] == taken;
  }

  lemma ToldForward(s: State, w: Id, rest: Msg, taken: seq<(Name, Msg)>)
    requires Told(s, taken) && w in s.workers && s.workers[w].service.Some? && rest != []
    ensures Told(Forward(s, w, rest), taken)
  {
    var (client, body) := Unwrap(rest);
    ToldSend(s, Wrap(client, [MDPC_CLIENT, s.workers[w].service.value] + body), taken);
    LogMore(s.log, Answered(client));
  }

  lemma ToldWorker(s: State, w: Id, msg: Msg, clock: nat -> int, taken: seq<(Name, Msg)>)
    requires Inv(s) && WorkerCompliant(s, w, msg) && Told(s, taken)
    ensures Told(WorkerMsg(s, w, msg, clock), taken)
  {
    Commands();
    var s1 := WorkerRequire(s, w);
    if msg[0] == READY && w !in s.workers && !StartsMmi(w) {
      BindSound(s, w, CString(msg[1]));
      ToldWaiting(Bind(s1, w, CString(msg[1])), w, clock, taken);
    } else if msg[0] == REPLY && w in s.workers {
      assert Serviced(s, w);
      var f := Forward(s, w, msg[1..]);
      ToldForward(s, w, msg[1..], taken);
      SoundIgnores(s, f);
      ToldWaiting(f, w, clock, taken);
    } else if msg[0] in {READY, REPLY, DISCONNECT} || (msg[0] == HEARTBEAT && w !in s.workers) {
      ToldDelete(s1, w, msg[0] != DISCONNECT, taken);
    }
  }

  lemma ToldClient(s: State, c: Id, msg: Msg, clock: nat -> int, taken: seq<(Name, Msg)>)
    requires Inv(s) && |msg| >= 2 && Told(s, taken)
    ensures Told(ClientMsg(s, c, msg, clock),
                 taken + if StartsMmi(msg[0]) then [] else [(CString(msg[0]), [c, ""] + msg[1..])])
  {
    var service, body := msg[0], msg[1..];
    var s1 := ServiceRequire(s, CString(service));
    ServiceRequireSound(s, CString(service));
    if StartsMmi(service) {
      var code := MmiCode(s1, service, body[|body| - 1]);
      ToldSend(s1, Wrap(c, [MDPC_CLIENT, service] + body[..|body| - 1] + [code]), taken);
      LogMore(s1.log, Answered(c));
      assert taken + [] == taken;
    } else {
      ToldDispatch(s1, CString(service), Some(Wrap(c, body)), clock, taken);
    }
  }

  lemma {:induction false} ToldBeats(s: State, ws: seq<Id>, taken: seq<(Name, Msg)>)
    requires Told(s, taken)
    ensures Told(HeartbeatAll(s, ws), taken)
    decreases |ws|
  {
    if ws != [] {
      ToldSend(s, Wrap(ws[0], [MDPW_WORKER, HEARTBEAT] + []), taken);
      ToldBeats(WorkerSend(s, ws[0], HEARTBEAT, []), ws[1..], taken);
    }
  }

  lemma ToldTimer(s: State, clock: nat -> int, taken: seq<(Name, Msg)>)
    requires Told(s, taken)
    ensures Told(Timer(s, clock), taken)
  {
    var u := Purge(s.(ticks := s.ticks + 1), clock);
    PurgeSilent(s.(ticks := s.ticks + 1), clock);
    ToldBeats(u, u.waiting, taken);
  }

  lemma ToldReceive(s: State, m: Msg, clock: nat -> int, taken: seq<(Name, Msg)>)
    requires Inv(s) && Compliant(s, m) && Told(s, taken)
    ensures Told(MdpBroker.Receive(s, m, clock), taken + RequestIn(Some(m)))
  {
    assert taken + [] == taken;
    assert MDPC_CLIENT != MDPW_WORKER by { assert MDPC_CLIENT[3] != MDPW_WORKER[3]; }
    if m[2] == MDPC_CLIENT {
      ToldClient(s, m[0], m[3..], clock, taken);
      assert m[3..][0] == m[3] && m[3..][1..] == m[4..];
    } else if m[2] == MDPW_WORKER {
      ToldWorker(s, m[0], m[3..], clock, taken);
    }
  }

  /** In every run: the requests accepted are those the messages brought, in order, none lost and none made
      up; and the REQUEST messages sent are those the log says were given to workers, in order, each to the
      worker it says. */
  lemma {:induction false} RunTold(msgs: seq<Option<Msg>>, clock: nat -> int)
    requires CompliantRun(msgs, clock)
    ensures Taken(Run(msgs, clock).log) == RequestsIn(msgs)
    ensures Sent(Run(msgs, clock).sent) == Given(Run(msgs, clock).log)
  {
    if msgs != [] {
      var n := |msgs| - 1;
      var pre, m := msgs[..n], msgs[n];
      var s, taken := Run(pre, clock), RequestsIn(pre);
      CompliantSoFar(msgs, clock);
      RunTold(pre, clock);
      RunInv(pre, clock);
      assert taken + [] == taken;
      if m.Some? { ToldReceive(s, m.value, clock, taken); }
      ToldTimer(if m.None? then s else MdpBroker.Receive(s, m.value, clock), clock, taken + RequestIn(m));
    }
  }

  // ----------------------------------------------------------------- whom the broker writes to

  /** Whatever has been sent since goes to one of `ids`. */
  ghost predicate AddsFor(before: seq<Msg>, after: seq<Msg>, ids: set<Id>) {
    before <= after && forall i :: |before| <= i < |after| ==> after[i] != [] && after[i][0] in ids
  }

  lemma AddsMore(a: seq<Msg>, b: seq<Msg>, c: seq<Msg>, ids: set<Id>)
    requires AddsFor(a, b, ids) && AddsFor(b, c, ids)
    ensures AddsFor(a, c, ids)
  {
    assert forall i :: 0 <= i < |b| ==> c[i] == b[i];
  }

  lemma {:induction false} LoopAdds(s: State, name: Name, ids: set<Id>)
    requires Sound(s) && name in s.services && s.workers.Keys <= ids
    ensures AddsFor(s.sent, DispatchLoop(s, name).sent, ids)
    decreases |s.services[name].requests|
  {
    if s.services[name].waiting != [] && s.services[name].requests != [] {
      var t := DispatchOne(s, name);
      assert ServiceSound(s, name);
      ProjMembers(s.waiting, s.workers, name);
      assert s.services[name].waiting[0] in s.services[name].waiting;
      DispatchOneSound(s, name);
      LoopAdds(t, name, ids);
      AddsMore(s.sent, t.sent, DispatchLoop(s, name).sent, ids);
    }
  }

  lemma DispatchAdds(s: State, name: Name, msg: Option<Msg>, clock: nat -> int, ids: set<Id>)
    requires Sound(s) && name in s.services && s.workers.Keys <= ids
    ensures AddsFor(s.sent, Dispatch(s, name, msg, clock).sent, ids)
  {
    var e := Enqueue(s, name, msg);
    if msg.Some? { SoundIgnores(s, e); }
    PurgeSilent(e, clock);
    PurgeSound(e, clock);
    PurgeSubset(e, clock);
    PurgeKeepsServices(e, clock);
    LoopAdds(Purge(e, clock), name, ids);
  }

  lemma WaitingAdds(s: State, w: Id, clock: nat -> int, ids: set<Id>)
    requires Sound(s) && w in s.workers && w !in s.waiting && s.workers.Keys <= ids
    ensures AddsFor(s.sent, WorkerWaiting(s, w, clock).sent, ids)
  {
    assert Serviced(s, w);
    ListedSound(s, w, clock);
    DispatchAdds(Listed(s, w, clock), s.workers[w].service.value, None, clock, ids);
  }

  /** The client a reply is for. */
  function ReplyFor(msg: Msg): set<Id> {
    if |msg| > 1 && msg[0] == REPLY then {Unwrap(msg[1..]).0} else {}
  }

  lemma WorkerMsgAdds(s: State, w: Id, msg: Msg, clock: nat -> int, ids: set<Id>)
    requires Inv(s) && WorkerCompliant(s, w, msg) && s.workers.Keys + {w} + ReplyFor(msg) <= ids
    ensures AddsFor(s.sent, WorkerMsg(s, w, msg, clock).sent, ids)
  {
    Commands();
    if msg[0] == READY && w !in s.workers && !StartsMmi(w) {
      BindSound(s, w, CString(msg[1]));
      WaitingAdds(Bind(WorkerRequire(s, w), w, CString(msg[1])), w, clock, ids);
    } else if msg[0] == REPLY && w in s.workers {
      assert Serviced(s, w);
      var f := Forward(s, w, msg[1..]);
      SoundIgnores(s, f);
      WaitingAdds(f, w, clock, ids);
      assert AddsFor(s.sent, f.sent, ids);
      AddsMore(s.sent, f.sent, WorkerMsg(s, w, msg, clock).sent, ids);
    }
  }

  lemma ClientMsgAdds(s: State, c: Id, msg: Msg, clock: nat -> int, ids: set<Id>)
    requires Inv(s) && |msg| >= 2 && s.workers.Keys + {c} <= ids
    ensures AddsFor(s.sent, ClientMsg(s, c, msg, clock).sent, ids)
  {
    ServiceRequireSound(s, CString(msg[0]));
    if !StartsMmi(msg[0]) {
      DispatchAdds(ServiceRequire(s, CString(msg[0])), CString(msg[0]), Some(Wrap(c, msg[1..])), clock, ids);
    }
  }

  lemma TimerAdds(s: State, clock: nat -> int, ids: set<Id>)
    requires Sound(s) && s.workers.Keys <= ids
    ensures AddsFor(s.sent, Timer(s, clock).sent, ids)
  {
    var u := Purge(s.(ticks := s.ticks + 1), clock);
    TimerSends(s, clock);
    SoundIgnores(s, s.(ticks := s.ticks + 1));
    PurgeSound(s.(ticks := s.ticks + 1), clock);
    PurgeSubset(s.(ticks := s.ticks + 1), clock);
    HeartbeatAllSends(u, u.waiting);
    if clock(s.ticks) > s.heartbeatAt { BeatsGoTo(s.sent, Timer(s, clock).sent, u.waiting, ids); }
  }

  lemma BeatsGoTo(before: seq<Msg>, after: seq<Msg>, ws: seq<Id>, ids: set<Id>)
    requires BeatEach(before, after, ws) && forall i :: 0 <= i < |ws| ==> ws[i] in ids
    ensures AddsFor(before, after, ids)
  {
    forall i | |before| <= i < |after| ensures after[i] != [] && after[i][0] in ids {
      assert after[|before| + (i - |before|)] == [ws[i - |before|], "", MDPW_WORKER, HEARTBEAT];
    }
  }

  lemma ReceiveAdds(s: State, m: Msg, clock: nat -> int, ids: set<Id>)
    requires Inv(s) && Compliant(s, m) && s.workers.Keys + {m[0]} <= ids
    requires m[2] == MDPW_WORKER ==> ReplyFor(m[3..]) <= ids
    ensures AddsFor(s.sent, MdpBroker.Receive(s, m, clock).sent, ids)
  {
    assert MDPC_CLIENT != MDPW_WORKER by { assert MDPC_CLIENT[3] != MDPW_WORKER[3]; }
    if m[2] == MDPC_CLIENT {
      ClientMsgAdds(s, m[0], m[3..], clock, ids);
    } else if m[2] == MDPW_WORKER {
      WorkerMsgAdds(s, m[0], m[3..], clock, ids);
    }
  }

  /** In a turn the broker writes to registered workers, to whoever wrote to it, and to the client a reply is
      for, and to nobody else. */
  lemma TurnAdds(s: State, m: Option<Msg>, clock: nat -> int, ids: set<Id>)
    requires Inv(s) && s.workers.Keys <= ids
    requires m.Some? ==>
      && Compliant(s, m.value) && m.value[0] in ids && (m.value[2] == MDPW_WORKER ==> ReplyFor(m.value[3..]) <= ids)
    ensures AddsFor(s.sent, Turn(s, m, clock).sent, ids)
  {
    if m.None? {
      TimerAdds(s, clock, ids);
    } else {
      var t := MdpBroker.Receive(s, m.value, clock);
      ReceiveAdds(s, m.value, clock, ids);
      ReceiveKeepsInv(s, m.value, clock);
      forall x | x in t.workers ensures x in ids { ReceiveKeeps(s, m.value, clock, x); }
      TimerAdds(t, clock, ids);
      AddsMore(s.sent, t.sent, Turn(s, m, clock).sent, ids);
    }
  }

  // ------------------------------------------------------------------- heartbeats, turn by turn

  /** From `s` to `t` the clock has gone on, perhaps, and the next heartbeats are due as before. */
  ghost predicate SameDeadline(s: State, t: State) {
    t.heartbeatAt == s.heartbeatAt && t.ticks >= s.ticks
  }

  lemma {:induction false} LoopDeadline(s: State, name: Name)
    requires name in s.services
    ensures SameDeadline(s, DispatchLoop(s, name))
    decreases |s.services[name].requests|
  {
    if !s.dead && s.services[name].waiting != [] && s.services[name].requests != [] {
      LoopDeadline(DispatchOne(s, name), name);
    }
  }

  lemma DispatchDeadline(s: State, name: Name, msg: Option<Msg>, clock: nat -> int)
    requires name in s.services
    ensures SameDeadline(s, Dispatch(s, name, msg, clock))
  {
    var e := Enqueue(s, name, msg);
    PurgeSilent(e, clock);
    PurgeKeepsServices(e, clock);
    LoopDeadline(Purge(e, clock), name);
  }

  lemma WaitingDeadline(s: State, w: Id, clock: nat -> int)
    requires w in s.workers
    ensures SameDeadline(s, WorkerWaiting(s, w, clock))
  {
    var sv := s.workers[w].service;
    if sv.Some? && sv.value in s.services { DispatchDeadline(Listed(s, w, clock), sv.value, None, clock); }
  }

  lemma ReceiveDeadline(s: State, m: Msg, clock: nat -> int)
    ensures SameDeadline(s, MdpBroker.Receive(s, m, clock))
  {
    if |m| >= 3 && m[2] == MDPC_CLIENT && |m| >= 5 && !StartsMmi(m[3]) {
      DispatchDeadline(ServiceRequire(s, CString(m[3])), CString(m[3]), Some(Wrap(m[0], m[3..][1..])), clock);
    } else if |m| >= 4 && m[2] == MDPW_WORKER {
      var w, rest := m[0], m[3..][1..];
      var s1 := WorkerRequire(s, w);
      if m[3] == READY && rest != [] {
        WaitingDeadline(Bind(s1, w, CString(rest[0])), w, clock);
      } else if m[3] == REPLY && rest != [] && s1.workers[w].service.Some? {
        WaitingDeadline(Forward(s1, w, rest), w, clock);
      }
    }
  }

  lemma TimerTicks(s: State, clock: nat -> int)
    ensures Timer(s, clock).ticks > s.ticks
  {
    var u := Purge(s.(ticks := s.ticks + 1), clock);
    PurgeSilent(s.(ticks := s.ticks + 1), clock);
    HeartbeatAllSends(u, u.waiting);
  }

  /** Everyone the broker might write to on receiving `m`. */
  ghost function AllIds(s: State, m: Msg): set<Id>
    requires |m| >= 3
  {
    s.workers.Keys + {m[0]} + ReplyFor(m[3..])
  }

  lemma ReceiveFirst(s: State, m: Msg, clock: nat -> int)
    requires Inv(s) && Compliant(s, m)
    ensures var r := MdpBroker.Receive(s, m, clock); Inv(r) && s.sent <= r.sent && SameDeadline(s, r)
  {
    ReceiveDeadline(s, m, clock);
    ReceiveAdds(s, m, clock, AllIds(s, m));
    ReceiveKeepsInv(s, m, clock);
  }

  /** If reading `k` is past the deadline `at`, the last things sent are one heartbeat to each worker waiting,
      in order, with the next due 2500 ms after the last reading. If not, it is the last reading, and nothing
      of this happens. */
  ghost predicate Beaten(mid: seq<Msg>, t: State, at: int, clock: nat -> int, k: nat) {
    && k < t.ticks
    && if clock(k) > at then BeatEach(mid, t.sent, t.waiting) && t.heartbeatAt == clock(t.ticks - 1) + 2500
       else t.sent == mid && t.heartbeatAt == at && k == t.ticks - 1
  }

  lemma TimerBeats(s: State, clock: nat -> int)
    requires Inv(s)
    ensures Beaten(s.sent, Timer(s, clock), s.heartbeatAt, clock, s.ticks)
  {
    TimerInv(s, clock);
    TimerSends(s, clock);
    TimerTicks(s, clock);
  }

  /** In every turn, with a message or without, the clock is read for the heartbeats, after the message has
      been dealt with. */
  lemma TurnBeats(s: State, m: Option<Msg>, clock: nat -> int) returns (mid: seq<Msg>, k: nat)
    requires Inv(s) && (m.Some? ==> Compliant(s, m.value))
    ensures s.sent <= mid && s.ticks <= k && Beaten(mid, Turn(s, m, clock), s.heartbeatAt, clock, k)
  {
    var r := if m.None? then s else MdpBroker.Receive(s, m.value, clock);
    if m.Some? { ReceiveFirst(s, m.value, clock); }
    mid, k := r.sent, r.ticks;
    TimerBeats(r, clock);
  }
}
