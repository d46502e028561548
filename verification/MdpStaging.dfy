/** What leads a calm system, step by step, through any calls a client may make on its connection. */
module MdpStaging {
  import opened Frames
  import opened MdpBroker
  import opened MdpInvariants
  import opened ClientCalls
  import opened MdpSystem
  import opened MdpDelivery
  import opened Options

  // --------------------------------------------- the broker at a standing clock, idle workers

  function Still(n: nat): int {
    0
  }

  /** Nothing is queued, nobody but perhaps `w` is about to expire, and the timer is not due. */
  ghost predicate CalmBut(b: State, w: Id) {
    && b.heartbeatAt > 0
    && (forall x :: x in b.workers && x != w ==> b.workers[x].expiry > 0)
    && (forall n :: QueueOf(b, n) == [])
  }

  ghost predicate Calm(b: State) {
    && b.heartbeatAt > 0
    && (forall x :: x in b.workers ==> b.workers[x].expiry > 0)
    && (forall n :: QueueOf(b, n) == [])
  }

  lemma PurgeStill(b: State)
    requires Sound(b) && forall w :: w in b.workers ==> b.workers[w].expiry > 0
    ensures Purge(b, Still) == b.(ticks := Purge(b, Still).ticks)
  {
    if b.waiting != [] { assert b.waiting[0] in b.waiting; }
  }

  /** What a turn leaves, the clock reading of its timer aside, is what the handler leaves. */
  lemma TurnStill(b: State, m: Msg)
    requires var t := MdpBroker.Receive(b, m, Still); !t.dead && Calm(t)
    ensures var t, u := MdpBroker.Receive(b, m, Still), Turn(b, Some(m), Still);
      Calm(u) && u.sent == t.sent && u.waiting == t.waiting
  {
    var t, u := MdpBroker.Receive(b, m, Still), Turn(b, Some(m), Still);
    forall n ensures QueueOf(u, n) == [] { assert QueueOf(t, n) == []; }
  }

  /** Listing a worker for a service without requests dispatches nothing. */
  lemma WaitingStill(b: State, w: Id)
    requires Sound(b) && CalmBut(b, w) && w in b.workers && Serviced(b, w) && w !in b.waiting
    ensures var t := WorkerWaiting(b, w, Still);
      Calm(t) && !t.dead && t.sent == b.sent && t.waiting == b.waiting + [w]
  {
    var l, n := Listed(b, w, Still), b.workers[w].service.value;
    ListedSound(b, w, Still);
    forall x ensures QueueOf(l, x) == [] { assert QueueOf(b, x) == []; }
    PurgeStill(l);
    var p := Purge(l, Still);
    forall x ensures QueueOf(p, x) == [] { assert QueueOf(l, x) == []; }
    assert QueueOf(p, n) == [] && DispatchLoop(p, n) == p;
  }

  /** READY from a newcomer. */
  lemma HelloTurn(b: State, w: Id, n: Name)
    requires Inv(b) && Calm(b) && w !in b.workers && w !in b.waiting && !StartsMmi(w) && NoNul(n)
    ensures var t := Turn(b, Some([w, "", MDPW_WORKER, READY, n]), Still);
      Calm(t) && t.sent == b.sent && t.waiting == b.waiting + [w]
  {
    var m := [w, "", MDPW_WORKER, READY, n];
    CStringWhole(n);
    BindSound(b, w, n);
    var s1 := Bind(WorkerRequire(b, w), w, n);
    forall x ensures QueueOf(s1, x) == [] { assert QueueOf(b, x) == []; }
    assert m[3..] == [READY, n] && m[3..][1..] == [n];
    WaitingStill(s1, w);
    assert MdpBroker.Receive(b, m, Still) == WorkerWaiting(s1, w, Still);
    TurnStill(b, m);
  }

  /** A dispatched request leaves nothing queued. */
  lemma DispatchStill(b: State, n: Name, m: Msg)
    requires Sound(b) && Calm(b) && n in b.services && b.services[n].waiting != []
    ensures var t, w := Dispatch(b, n, Some(m), Still), b.services[n].waiting[0];
      && Calm(t) && !t.dead && t.sent == b.sent + [Wrap(w, [MDPW_WORKER, REQUEST] + m)]
      && t.waiting == MdpBroker.Remove(b.waiting, w)
  {
    var e, w := Enqueue(b, n, Some(m)), b.services[n].waiting[0];
    assert QueueOf(b, n) == [];
    SoundIgnores(b, e);
    PurgeStill(e);
    var p := Purge(e, Still);
    PurgeSound(e, Still);
    DispatchOneSound(p, n);
    var d := DispatchOne(p, n);
    assert p.services[n].requests == [m] && d.services[n].requests == [];
    assert DispatchLoop(p, n) == DispatchLoop(d, n) == d;
    forall x ensures QueueOf(d, x) == [] { assert QueueOf(b, x) == []; }
  }

  /** A request for a service with a waiting worker. */
  lemma RequestTurn(b: State, c: Id, n: Name, body: Msg)
    requires Inv(b) && Calm(b) && n in b.services && b.services[n].waiting != []
    requires NoNul(n) && !StartsMmi(n) && body != []
    ensures var t, w := Turn(b, Some([c, "", MDPC_CLIENT, n] + body), Still), b.services[n].waiting[0];
      && Calm(t) && t.sent == b.sent + [Wrap(w, [MDPW_WORKER, REQUEST] + Wrap(c, body))]
      && t.waiting == MdpBroker.Remove(b.waiting, w)
  {
    var m := [c, "", MDPC_CLIENT, n] + body;
    CStringWhole(n);
    assert m[3..] == [n] + body && m[3..][1..] == body;
    DispatchStill(b, n, Wrap(c, body));
    assert MdpBroker.Receive(b, m, Still) == Dispatch(b, n, Some(Wrap(c, body)), Still);
    TurnStill(b, m);
  }

  /** A request to the management interface. */
  lemma MmiTurn(b: State, c: Id, n: Name, body: Msg)
    requires Inv(b) && Calm(b) && StartsMmi(n) && body != []
    ensures var t := Turn(b, Some([c, "", MDPC_CLIENT, n] + body), Still);
      && Calm(t) && t.waiting == b.waiting
      && |t.sent| == |b.sent| + 1 && t.sent[..|b.sent|] == b.sent && To(t.sent[|b.sent|], c)
  {
    var m := [c, "", MDPC_CLIENT, n] + body;
    assert m[3..] == [n] + body && m[3..][1..] == body;
    var t := MdpBroker.Receive(b, m, Still);
    forall x ensures QueueOf(t, x) == [] { assert QueueOf(b, x) == []; }
    TurnStill(b, m);
  }

  /** A reply from a worker that is not waiting. */
  lemma ReplyTurn(b: State, w: Id, c: Id, body: Msg)
    requires Inv(b) && Calm(b) && w in b.workers && w !in b.waiting
    ensures var t := Turn(b, Some([w, "", MDPW_WORKER, REPLY] + Wrap(c, body)), Still);
      && Calm(t) && t.waiting == b.waiting + [w]
      && |t.sent| == |b.sent| + 1 && t.sent[..|b.sent|] == b.sent && To(t.sent[|b.sent|], c)
  {
    var m := [w, "", MDPW_WORKER, REPLY] + Wrap(c, body);
    assert m[3..] == [REPLY] + Wrap(c, body) && m[3..][1..] == Wrap(c, body);
    WrapUnwrap(c, body);
    assert Serviced(b, w);
    var f := Forward(b, w, Wrap(c, body));
    SoundIgnores(b, f);
    forall x ensures QueueOf(f, x) == [] { assert QueueOf(b, x) == []; }
    WaitingStill(f, w);
    assert MdpBroker.Receive(b, m, Still) == WorkerWaiting(f, w, Still);
    TurnStill(b, m);
  }

  // ------------------------------------------------------- a run for every log of calls

  /** The worker that serves `n`. */
  function Server(n: Name): Id {
    "w" + n
  }

  /** Clients are told from workers by their names. */
  predicate ClientName(c: Id) {
    c != "" && c[0] == 'c'
  }

  ghost predicate ClientNames(y: System) {
    forall x :: x in y.cs ==> ClientName(x)
  }

  lemma Servers(n: Name, m: Name)
    ensures !ClientName(Server(n)) && !StartsMmi(Server(n)) && (Server(n) == Server(m) ==> n == m)
  {
    assert Server(n)[1..] == n && Server(m)[1..] == m && Server(n)[0] == 'w';
    assert |Server(n)| >= 4 ==> Server(n)[..4][0] == 'w';
    assert "mmi."[0] == 'm';
  }

  /** Every worker serves its own service and waits. */
  ghost predicate Resting(y: System) {
    forall w :: w in y.ws ==>
      w == Server(y.ws[w].service) && y.ws[w].hands == Idle && y.ws[w].outbox == [] && w in y.b.waiting
  }

  /** Client `c` has made the calls `h`, and the answer it is owed, if any, is there. */
  ghost predicate Staged(y: System, c: Id, h: seq<CallEvent>) {
    && SystemInv(y, Echo) && Books(y, c) && Calm(y.b) && Resting(y)
    && ClientNames(y) && c in y.cs && y.cs[c].calls == h
    && (y.cs[c].pending.Some? ==>
          && !y.cs[c].unsent && y.cs[c].taken < |y.b.sent| && To(y.b.sent[|y.b.sent| - 1], c))
  }

  lemma StepKeeps(y: System, c: Id, s: Step)
    requires SystemInv(y, Echo) && Books(y, c)
    ensures SystemInv(Act(y, s, Still, Echo), Echo) && Books(Act(y, s, Still, Echo), c)
  {
    ActInv(y, s, Still, Echo);
    BooksAct(y, s, Still, Echo, c);
  }

  lemma {:induction false} StepsKeep(y: System, c: Id, steps: seq<Step>)
    requires SystemInv(y, Echo) && Books(y, c)
    ensures SystemInv(ActAll(y, steps, Still, Echo), Echo) && Books(ActAll(y, steps, Still, Echo), c)
  {
    if steps != [] {
      StepsKeep(y, c, steps[..|steps| - 1]);
      StepKeeps(ActAll(y, steps[..|steps| - 1], Still, Echo), c, steps[|steps| - 1]);
    }
  }

  function Staffing(y: System, n: Name): seq<Step> {
    if Server(n) in y.ws then [] else [NewWorker(Server(n), n), TakeWorker(Server(n), 0)]
  }

  lemma NewWorkerIs(y: System, w: Id, n: Name)
    requires w !in y.ws && w !in y.cs && NoNul(n)
    ensures Act(y, NewWorker(w, n), Still, Echo) == y.(ws := y.ws[w := WorkerConn(n, |y.b.sent|, Idle, [Hello])])
  {
  }

  lemma HelloIs(y: System, w: Id, n: Name, t: nat)
    requires w in y.ws && y.ws[w] == WorkerConn(n, t, Idle, [Hello])
    ensures Act(y, TakeWorker(w, 0), Still, Echo) ==
            y.(ws := y.ws[w := WorkerConn(n, t, Idle, [])],
               b := Turn(y.b, Some([w, "", MDPW_WORKER, READY, n]), Still))
  {
    assert [Hello][1..] == [];
  }

  lemma NotHired(y: System, w: Id)
    requires SystemInv(y, Echo) && w !in y.ws
    ensures Inv(y.b) && w !in y.b.workers && w !in y.b.waiting
  {
  }

  lemma StaffedRests(y: System, w: Id, n: Name, t: nat, b: State)
    requires Resting(y) && w == Server(n) && b.waiting == y.b.waiting + [w]
    ensures Resting(y.(ws := y.ws[w := WorkerConn(n, t, Idle, [])], b := b))
  {
  }

  function StaffedState(y: System, n: Name): System {
    var w := Server(n);
    y.(ws := y.ws[w := WorkerConn(n, |y.b.sent|, Idle, [])],
       b := Turn(y.b, Some([w, "", MDPW_WORKER, READY, n]), Still))
  }

  lemma StaffingIs(y: System, n: Name)
    requires Server(n) !in y.ws && Server(n) !in y.cs && NoNul(n)
    ensures ActAll(y, Staffing(y, n), Still, Echo) == StaffedState(y, n)
  {
    var w, t := Server(n), |y.b.sent|;
    var y1 := Act(y, NewWorker(w, n), Still, Echo);
    TwoSteps(y, NewWorker(w, n), TakeWorker(w, 0), Still, Echo);
    NewWorkerIs(y, w, n);
    HelloIs(y1, w, n, t);
    assert y1.ws[w := WorkerConn(n, t, Idle, [])] == y.ws[w := WorkerConn(n, t, Idle, [])];
  }

  /** A worker for `n` can be had without disturbing anything. */
  lemma Staffed(y: System, c: Id, h: seq<CallEvent>, n: Name)
    requires Staged(y, c, h) && Owing(h).None? && NoNul(n)
    ensures var z := ActAll(y, Staffing(y, n), Still, Echo);
      Staged(z, c, h) && Server(n) in z.ws && z.ws[Server(n)].service == n && z.b.sent == y.b.sent
  {
    var w := Server(n);
    Servers(n, n);
    StepsKeep(y, c, Staffing(y, n));
    if w in y.ws {
      Servers(n, y.ws[w].service);
    } else {
      StaffingIs(y, n);
      NotHired(y, w);
      HelloTurn(y.b, w, n);
      StaffedRests(y, w, n, |y.b.sent|, StaffedState(y, n).b);
    }
  }

  /** In a staged state the worker of a service is the one the broker will choose. */
  lemma ServerFirst(y: System, c: Id, h: seq<CallEvent>, n: Name)
    requires Staged(y, c, h) && Server(n) in y.ws && y.ws[Server(n)].service == n
    ensures n in y.b.services && y.b.services[n].waiting != [] && y.b.services[n].waiting[0] == Server(n)
    ensures Server(n) in y.b.workers
  {
    var w := Server(n);
    assert w in y.b.waiting && Serviced(y.b, w) && ServiceSound(y.b, n);
    assert BoundTo(y.b.workers, w, n);
    ProjMembers(y.b.waiting, y.b.workers, n);
    var v := y.b.services[n].waiting;
    assert w in v && v[0] in v;
    assert BoundTo(y.b.workers, v[0], n) && v[0] in y.ws && y.ws[v[0]].service == n;
  }

  /** The request goes to the broker and on to its worker. */
  function Handing(c: Id, r: Request, at: nat): seq<Step> {
    [Submit(c, r), TakeClient(c)] + [Receive(Server(r.service), at)]
  }

  /** So it does, and the worker answers. */
  function Serving(c: Id, r: Request, at: nat): seq<Step> {
    Handing(c, r, at) + [Answer(Server(r.service), r.body)] + [TakeWorker(Server(r.service), 0)]
  }

  /** The client's connection once the broker has its request `r`. */
  function Sent(k: ClientConn, r: Request): ClientConn {
    Asking(k, r).(unsent := false)
  }

  lemma SubmitIs(y: System, c: Id, r: Request)
    requires c in y.cs && AtLeisure(y.cs[c].calls) && Askable(r) && y.cs[c].pending.None?
    ensures var y1 := Act(y, Submit(c, r), Still, Echo);
      Act(y1, TakeClient(c), Still, Echo) ==
      y.(cs := y.cs[c := Sent(y.cs[c], r)],
         b := Turn(y.b, Some([c, "", MDPC_CLIENT, r.service] + r.body), Still))
  {
    var y1 := Act(y, Submit(c, r), Still, Echo);
    assert y1 == y.(cs := y.cs[c := Asking(y.cs[c], r)]);
    assert y1.cs[c := Sent(y.cs[c], r)] == y.cs[c := Sent(y.cs[c], r)];
  }

  lemma SentCalls(k: ClientConn, r: Request)
    requires k.pending.None?
    ensures var k' := Sent(k, r);
      k'.calls == k.calls + [Asked(r)] && k'.pending == Some(r) && !k'.unsent && k'.taken == k.taken
  {
  }

  lemma HandedOver(y: System, c: Id, w: Id, t: nat, body: Msg)
    requires w in y.ws && y.ws[w].hands == Idle && y.ws[w].taken <= t < |y.b.sent|
    requires y.b.sent[t] == Wrap(w, [MDPW_WORKER, REQUEST] + Wrap(c, body))
    ensures Act(y, Receive(w, t), Still, Echo) ==
            y.(ws := y.ws[w := y.ws[w].(taken := t + 1, hands := Busy(c, body))])
  {
    var m := y.b.sent[t];
    assert m[4..] == Wrap(c, body);
    WrapUnwrap(c, body);
  }

  lemma AnswerIs(y: System, c: Id, w: Id, body: Msg)
    requires w in y.ws && y.ws[w].hands == Busy(c, body) && y.ws[w].outbox == [] && body != []
    ensures Act(y, Answer(w, body), Still, Echo) ==
            y.(ws := y.ws[w := y.ws[w].(hands := Idle, outbox := [Reply(c, body)])])
  {
    assert Accepts(Echo, y.ws[w].service, body, body);
    assert y.ws[w].outbox + [Reply(c, body)] == [Reply(c, body)];
  }

  lemma ReplyIs(y: System, c: Id, w: Id, body: Msg)
    requires w in y.ws && y.ws[w].outbox == [Reply(c, body)]
    ensures Act(y, TakeWorker(w, 0), Still, Echo) ==
            y.(ws := y.ws[w := y.ws[w].(outbox := [])],
               b := Turn(y.b, Some([w, "", MDPW_WORKER, REPLY] + Wrap(c, body)), Still))
  {
    assert y.ws[w].outbox[1..] == [];
  }

  /** What the broker state and the two connections have to offer for the service to be given. */
  lemma StagedOffers(y: System, c: Id, h: seq<CallEvent>, n: Name)
    requires Staged(y, c, h) && Owing(h).None? && Server(n) in y.ws && y.ws[Server(n)].service == n
    ensures Inv(y.b) && y.cs[c].pending.None? && y.cs[c].taken <= |y.b.sent|
    ensures y.ws[Server(n)].taken <= |y.b.sent| && y.ws[Server(n)].hands == Idle && y.ws[Server(n)].outbox == []
    ensures Distinct(y.b.waiting)
  {
    assert WorkerOk(y, Server(n), Echo) && ClientOk(y, c, Echo);
  }

  /** The state of the system once the worker has the request in its hands. */
  function HandedState(y: System, c: Id, r: Request): System
    requires c in y.cs && Server(r.service) in y.ws
  {
    var w := Server(r.service);
    y.(cs := y.cs[c := Sent(y.cs[c], r)],
       ws := y.ws[w := y.ws[w].(taken := |y.b.sent| + 1, hands := Busy(c, r.body))],
       b := Turn(y.b, Some([c, "", MDPC_CLIENT, r.service] + r.body), Still))
  }

  /** The first three steps: the request is out, and in the hands of its worker. */
  lemma HandedIs(y: System, c: Id, r: Request)
    requires c in y.cs && AtLeisure(y.cs[c].calls) && Askable(r) && y.cs[c].pending.None?
    requires Server(r.service) in y.ws && y.ws[Server(r.service)].hands == Idle
    requires y.ws[Server(r.service)].taken <= |y.b.sent|
    requires Turn(y.b, Some([c, "", MDPC_CLIENT, r.service] + r.body), Still).sent ==
             y.b.sent + [Wrap(Server(r.service), [MDPW_WORKER, REQUEST] + Wrap(c, r.body))]
    ensures ActAll(y, Handing(c, r, |y.b.sent|), Still, Echo) == HandedState(y, c, r)
  {
    var w, t := Server(r.service), |y.b.sent|;
    var a := [Submit(c, r), TakeClient(c)];
    SubmitIs(y, c, r);
    TwoSteps(y, Submit(c, r), TakeClient(c), Still, Echo);
    ActAllAppend(y, a, Receive(w, t), Still, Echo);
    var y2 := ActAll(y, a, Still, Echo);
    assert y2.ws == y.ws && y2.b.sent[t] == Wrap(w, [MDPW_WORKER, REQUEST] + Wrap(c, r.body));
    HandedOver(y2, c, w, t, r.body);
  }

  lemma Handed(y: System, c: Id, h: seq<CallEvent>, r: Request)
    requires Staged(y, c, h) && Owing(h).None? && AtLeisure(h) && Askable(r) && !StartsMmi(r.service)
    requires Server(r.service) in y.ws && y.ws[Server(r.service)].service == r.service
    ensures ActAll(y, Handing(c, r, |y.b.sent|), Still, Echo) == HandedState(y, c, r)
    ensures var b := HandedState(y, c, r).b;
      && Inv(b) && Calm(b) && |b.sent| == |y.b.sent| + 1 && Server(r.service) in b.workers
      && b.waiting == MdpBroker.Remove(y.b.waiting, Server(r.service))
  {
    StagedOffers(y, c, h, r.service);
    ServerFirst(y, c, h, r.service);
    RequestTurn(y.b, c, r.service, r.body);
    HandedIs(y, c, r);
    StepsKeep(y, c, Handing(c, r, |y.b.sent|));
    assert WorkerOk(HandedState(y, c, r), Server(r.service), Echo);
  }

  /** The last two steps: the answer comes back, and the worker waits again. */
  function ReturnedState(y: System, c: Id, r: Request): System
    requires c in y.cs && Server(r.service) in y.ws
  {
    var w, z := Server(r.service), HandedState(y, c, r);
    z.(ws := z.ws[w := z.ws[w].(hands := Idle)],
       b := Turn(z.b, Some([w, "", MDPW_WORKER, REPLY] + Wrap(c, r.body)), Still))
  }

  lemma AnsweredIs(z: System, c: Id, w: Id, body: Msg)
    requires w in z.ws && z.ws[w].hands == Busy(c, body) && z.ws[w].outbox == [] && body != []
    ensures Act(Act(z, Answer(w, body), Still, Echo), TakeWorker(w, 0), Still, Echo) ==
            z.(ws := z.ws[w := z.ws[w].(hands := Idle)],
               b := Turn(z.b, Some([w, "", MDPW_WORKER, REPLY] + Wrap(c, body)), Still))
  {
    AnswerIs(z, c, w, body);
    var z1 := z.(ws := z.ws[w := z.ws[w].(hands := Idle, outbox := [Reply(c, body)])]);
    ReplyIs(z1, c, w, body);
    assert z1.ws[w := z1.ws[w].(outbox := [])] == z.ws[w := z.ws[w].(hands := Idle)];
  }

  lemma ReturnedIs(y: System, c: Id, r: Request)
    requires c in y.cs && Server(r.service) in y.ws && y.ws[Server(r.service)].outbox == [] && Askable(r)
    requires ActAll(y, Handing(c, r, |y.b.sent|), Still, Echo) == HandedState(y, c, r)
    ensures ActAll(y, Serving(c, r, |y.b.sent|), Still, Echo) == ReturnedState(y, c, r)
  {
    var w, a := Server(r.service), Handing(c, r, |y.b.sent|);
    ActAllAppend(y, a, Answer(w, r.body), Still, Echo);
    ActAllAppend(y, a + [Answer(w, r.body)], TakeWorker(w, 0), Still, Echo);
    AnsweredIs(HandedState(y, c, r), c, w, r.body);
  }

  /** What the last turn leaves: a calm broker, every worker at rest, and the answer on its way. */
  lemma ReturnedRests(y: System, c: Id, h: seq<CallEvent>, r: Request)
    requires Staged(y, c, h) && Owing(h).None? && AtLeisure(h) && Askable(r) && !StartsMmi(r.service)
    requires Server(r.service) in y.ws && y.ws[Server(r.service)].service == r.service
    ensures var e := ReturnedState(y, c, r);
      Calm(e.b) && Resting(e) && |e.b.sent| == |y.b.sent| + 2 && To(e.b.sent[|y.b.sent| + 1], c)
    ensures ActAll(y, Serving(c, r, |y.b.sent|), Still, Echo) == ReturnedState(y, c, r)
    ensures y.cs[c].pending.None? && y.cs[c].taken <= |y.b.sent|
  {
    var w, z := Server(r.service), HandedState(y, c, r);
    Handed(y, c, h, r);
    StagedOffers(y, c, h, r.service);
    ReturnedIs(y, c, r);
    RemoveMembers(y.b.waiting, w);
    ReplyTurn(z.b, w, c, r.body);
    RestsAgain(y, z, w, ReturnedState(y, c, r).b);
  }

  lemma RestsAgain(y: System, z: System, w: Id, b: State)
    requires Resting(y) && w in y.ws && z.ws.Keys == y.ws.Keys
    requires forall x :: x in y.ws && x != w ==> z.ws[x] == y.ws[x]
    requires z.ws[w].service == y.ws[w].service && z.ws[w].outbox == []
    requires forall x :: x in y.b.waiting && x != w ==> x in z.b.waiting
    requires b.waiting == z.b.waiting + [w]
    ensures Resting(z.(ws := z.ws[w := z.ws[w].(hands := Idle)], b := b))
  {
  }

  /** Enough for a state to be staged. */
  lemma StagedAfter(y: System, z: System, c: Id, h: seq<CallEvent>, r: Request)
    requires SystemInv(z, Echo) && Books(z, c) && Calm(z.b) && Resting(z)
    requires ClientNames(y) && c in y.cs && y.cs[c].calls == h && y.cs[c].pending.None?
    requires z.cs == y.cs[c := Sent(y.cs[c], r)] && y.cs[c].taken < |z.b.sent|
    requires To(z.b.sent[|z.b.sent| - 1], c)
    ensures Staged(z, c, h + [Asked(r)])
  {
    SentCalls(y.cs[c], r);
  }

  lemma ServedNow(y: System, c: Id, h: seq<CallEvent>, r: Request)
    requires Staged(y, c, h) && Owing(h).None? && AtLeisure(h) && Askable(r) && !StartsMmi(r.service)
    requires Server(r.service) in y.ws && y.ws[Server(r.service)].service == r.service
    ensures Staged(ActAll(y, Serving(c, r, |y.b.sent|), Still, Echo), c, h + [Asked(r)])
  {
    StepsKeep(y, c, Serving(c, r, |y.b.sent|));
    ReturnedRests(y, c, h, r);
    StagedAfter(y, ReturnedState(y, c, r), c, h, r);
  }

  function MmiState(y: System, c: Id, r: Request): System
    requires c in y.cs
  {
    y.(cs := y.cs[c := Sent(y.cs[c], r)],
       b := Turn(y.b, Some([c, "", MDPC_CLIENT, r.service] + r.body), Still))
  }

  lemma MmiIs(y: System, c: Id, r: Request)
    requires c in y.cs && AtLeisure(y.cs[c].calls) && Askable(r) && y.cs[c].pending.None?
    ensures ActAll(y, [Submit(c, r), TakeClient(c)], Still, Echo) == MmiState(y, c, r)
  {
    TwoSteps(y, Submit(c, r), TakeClient(c), Still, Echo);
    SubmitIs(y, c, r);
  }

  /** What that turn leaves: the answer is on its way, and nothing else has changed. */
  lemma MmiRests(y: System, c: Id, h: seq<CallEvent>, r: Request)
    requires Staged(y, c, h) && Owing(h).None? && Askable(r) && StartsMmi(r.service)
    ensures var e := MmiState(y, c, r);
      Calm(e.b) && Resting(e) && |e.b.sent| == |y.b.sent| + 1 && To(e.b.sent[|y.b.sent|], c)
    ensures y.cs[c].pending.None? && y.cs[c].taken <= |y.b.sent|
  {
    MmiTurn(y.b, c, r.service, r.body);
    assert ClientOk(y, c, Echo);
  }

  lemma MmiServed(y: System, c: Id, h: seq<CallEvent>, r: Request)
    requires Staged(y, c, h) && Owing(h).None? && AtLeisure(h) && Askable(r) && StartsMmi(r.service)
    ensures Staged(ActAll(y, [Submit(c, r), TakeClient(c)], Still, Echo), c, h + [Asked(r)])
  {
    StepsKeep(y, c, [Submit(c, r), TakeClient(c)]);
    MmiRests(y, c, h, r);
    MmiIs(y, c, r);
    StagedAfter(y, MmiState(y, c, r), c, h, r);
  }

  /** What leads from the calls `h`, made in state `y`, to one more event. */
  function NextAct(y: System, c: Id, h: seq<CallEvent>, e: CallEvent): seq<Step> {
    match e
    case Asked(r) =>
      if Owing(h).Some? then [Submit(c, r)]
      else if StartsMmi(r.service) then [Submit(c, r), TakeClient(c)]
      else Staffing(y, r.service) + Serving(c, r, |y.b.sent|)
    case GaveUp => [Abandon(c)]
    case Served => if |y.b.sent| > 0 then [Deliver(c, |y.b.sent| - 1)] else []
    case Crashed => if |y.b.sent| > 0 then [Deliver(c, |y.b.sent| - 1)] else []
  }

  /** Events that move nothing but the client's log, and what a delivery does. */
  lemma LogMoves(y: System, c: Id, h: seq<CallEvent>, s: Step, k: ClientConn)
    requires Staged(y, c, h) && Act(y, s, Still, Echo) == y.(cs := y.cs[c := k])
    requires k.pending.Some? ==> k.pending == y.cs[c].pending && !k.unsent && k.taken == y.cs[c].taken
    ensures Staged(ActAll(y, [s], Still, Echo), c, k.calls)
  {
    StepKeeps(y, c, s);
    ActAllAppend(y, [], s, Still, Echo);
    assert [] + [s] == [s];
  }

  lemma DeliverStaged(y: System, c: Id, h: seq<CallEvent>, e: CallEvent)
    requires Staged(y, c, h) && (e == Served || e == Crashed) && Proper(h + [e])
    ensures Staged(ActAll(y, NextAct(y, c, h, e), Still, Echo), c, h + [e])
  {
    assert (h + [e])[..|h|] == h;
    var i := |y.b.sent| - 1;
    AnswersOwing(y, c, i, Echo);
    var k := Answering(y.cs[c], y.b.sent[i], i);
    assert k.calls == h + [e];
    LogMoves(y, c, h, Deliver(c, i), k);
  }

  lemma AbandonStaged(y: System, c: Id, h: seq<CallEvent>)
    requires Staged(y, c, h) && Current(h).Some?
    ensures Staged(ActAll(y, [Abandon(c)], Still, Echo), c, h + [GaveUp])
  {
    LogMoves(y, c, h, Abandon(c), y.cs[c].(calls := h + [GaveUp]));
  }

  lemma AskStaged(y: System, c: Id, h: seq<CallEvent>, r: Request)
    requires Staged(y, c, h) && AtLeisure(h) && Askable(r)
    ensures Staged(ActAll(y, NextAct(y, c, h, Asked(r)), Still, Echo), c, h + [Asked(r)])
  {
    if Owing(h).Some? {
      LogMoves(y, c, h, Submit(c, r), Asking(y.cs[c], r));
    } else if StartsMmi(r.service) {
      MmiServed(y, c, h, r);
    } else {
      var a := Staffing(y, r.service);
      Staffed(y, c, h, r.service);
      ServedNow(ActAll(y, a, Still, Echo), c, h, r);
      ActAllJoin(y, a, Serving(c, r, |y.b.sent|), Still, Echo);
    }
  }

  /** A new connection, with whatever others there are. */
  lemma NewcomerStaged(y: System, c: Id)
    requires SystemInv(y, Echo) && Calm(y.b) && Resting(y) && ClientNames(y) && ClientName(c) && c !in y.cs
    ensures c !in y.ws && Staged(Act(y, NewClient(c), Still, Echo), c, [])
  {
    if c in y.ws { Servers(y.ws[c].service, y.ws[c].service); }
    ActInv(y, NewClient(c), Still, Echo);
  }

  lemma EventStaged(y: System, c: Id, h: seq<CallEvent>, e: CallEvent)
    requires Staged(y, c, h) && Proper(h + [e])
    ensures Staged(ActAll(y, NextAct(y, c, h, e), Still, Echo), c, h + [e])
  {
    assert (h + [e])[..|h|] == h;
    match e
    case Asked(r) => AskStaged(y, c, h, r);
    case GaveUp => AbandonStaged(y, c, h);
    case Served => DeliverStaged(y, c, h, e);
    case Crashed => DeliverStaged(y, c, h, e);
  }
}
