/** Clients, broker and workers over lossy in-order links: the client and worker APIs drive
    the broker, and every reply finds its way back. */
module MdpSystem {
  import opened Frames
  import opened MdpBroker
  import opened MdpInvariants
  import opened ClientCalls
  import opened CStrings
  import opened Options

  /** Which replies a service may give to which bodies. */
  type Rule = (Frame, Msg, Msg) -> bool

  /** What a worker process sends on its connection. */
  datatype WorkerOut = Hello | Beat | Reply(client: Id, body: Msg)

  /** A worker holds at most one request, with the address to answer to. */
  datatype Hands = Idle | Busy(client: Id, body: Msg)

  /** A worker connection: the messages of the broker up to `taken` are received or lost; `outbox`
      is on its way to the broker. Reconnecting makes a new connection. */
  datatype WorkerConn = WorkerConn(service: Name, taken: nat, hands: Hands, outbox: seq<WorkerOut>)

  /** A client connection. The request socket has at most one request `pending` and refuses another
      until a reply has come; `unsent` until the broker has taken it. `calls` are the calls made on the
      connection, and `sender` is the place of the one whose request is pending. */
  datatype ClientConn = ClientConn(
    taken: nat,
    pending: Option<Request>,
    unsent: bool,
    calls: seq<CallEvent>,
    sender: nat)

  /** The message, behind identity and delimiter, passes the assertions of `mdcli_send` for `service`. */
  predicate Passes(m: Msg, service: Frame) {
    |m| >= 5 && m[2] == MDPC_CLIENT && m[3] == service
  }

  datatype System = System(b: State, ws: map<Id, WorkerConn>, cs: map<Id, ClientConn>)

  /** The frames of `s_mdwrk_send_to_broker`, behind the identity the router adds. */
  function WorkerFrames(w: Id, service: Name, m: WorkerOut): Msg {
    match m
    case Hello => [w, "", MDPW_WORKER, READY, service]
    case Beat => [w, "", MDPW_WORKER, HEARTBEAT]
    case Reply(c, body) => [w, "", MDPW_WORKER, REPLY] + Wrap(c, body)
  }

  /** The frames of `mdcli_send`, behind the identity and the delimiter the sockets add. */
  function ClientFrames(c: Id, r: Request): Msg {
    [c, "", MDPC_CLIENT, r.service] + r.body
  }

  lemma CStringWhole(f: Frame)
    requires NoNul(f)
    ensures CString(f) == f
  {
    BeforeWhole(f, 0 as char);
  }

  predicate To(m: Msg, x: Id) {
    m != [] && m[0] == x
  }

  predicate IsRequest(m: Msg, w: Id) {
    To(m, w) && |m| >= 4 && m[3] == REQUEST
  }

  datatype Step =
    | NewWorker(w: Id, service: Name)
    | NewClient(c: Id)
    | Submit(c: Id, r: Request)    // client c calls mdcli_send
    | Abandon(c: Id)               // that call returns NULL
    | TakeClient(c: Id)            // the broker receives the request of client c
    | LoseClient(c: Id)            // that request is lost
    | TakeWorker(w: Id, i: nat)    // the broker receives outbox[i] of worker w; what came before is lost
    | Tick                         // the broker's poll times out
    | Receive(w: Id, i: nat)       // worker w receives message i of the broker; what came before is lost
    | Answer(w: Id, reply: Msg)    // worker w answers the request it holds
    | Heartbeat(w: Id)
    | Deliver(c: Id, i: nat)       // client c receives message i of the broker

  /** No connection has this identity yet. */
  predicate Unused(y: System, id: Id) {
    id !in y.ws && id !in y.cs
  }

  function Accepts(ok: Rule, service: Frame, body: Msg, reply: Msg): bool {
    ok(service, body, reply)
  }

  /** A call of `mdcli_send`: the request goes out unless the socket still waits for a reply. */
  function Asking(k: ClientConn, r: Request): ClientConn {
    var k1 := k.(calls := k.calls + [Asked(r)]);
    if k.pending.Some? then k1 else k1.(pending := Some(r), unsent := true, sender := |k.calls|)
  }

  /** The call going on receives message `i`, which is `m`. */
  function Answering(k: ClientConn, m: Msg, i: nat): ClientConn
    requires Current(k.calls).Some?
  {
    var e := if Passes(m, Current(k.calls).value.service) then Served else Crashed;
    k.(taken := i + 1, pending := None, unsent := false, calls := k.calls + [e])
  }

  function Act(y: System, step: Step, clock: nat -> int, ok: Rule): System {
    match step
    case NewWorker(w, service) =>
      if !Unused(y, w) || !NoNul(service) then y
      else y.(ws := y.ws[w := WorkerConn(service, |y.b.sent|, Idle, [Hello])])
    case NewClient(c) =>
      if !Unused(y, c) then y
      else y.(cs := y.cs[c := ClientConn(|y.b.sent|, None, false, [], 0)])
    case Submit(c, r) =>
      if c !in y.cs || !AtLeisure(y.cs[c].calls) || !Askable(r) then y
      else y.(cs := y.cs[c := Asking(y.cs[c], r)])
    case Abandon(c) =>
      if c !in y.cs || Current(y.cs[c].calls).None? then y
      else y.(cs := y.cs[c := y.cs[c].(calls := y.cs[c].calls + [GaveUp])])
    case LoseClient(c) =>
      if c !in y.cs then y else y.(cs := y.cs[c := y.cs[c].(unsent := false)])
    case TakeClient(c) =>
      if c !in y.cs || !y.cs[c].unsent || y.cs[c].pending.None? then y
      else y.(cs := y.cs[c := y.cs[c].(unsent := false)],
              b := Turn(y.b, Some(ClientFrames(c, y.cs[c].pending.value)), clock))
    case TakeWorker(w, i) =>
      if w !in y.ws || i >= |y.ws[w].outbox| then y
      else y.(ws := y.ws[w := y.ws[w].(outbox := y.ws[w].outbox[i + 1..])],
              b := Turn(y.b, Some(WorkerFrames(w, y.ws[w].service, y.ws[w].outbox[i])), clock))
    case Tick => y.(b := Turn(y.b, None, clock))
    case Receive(w, i) =>
      if w !in y.ws || y.ws[w].hands != Idle || !(y.ws[w].taken <= i < |y.b.sent|) || !To(y.b.sent[i], w) then y
      else
        var m, k := y.b.sent[i], y.ws[w].(taken := i + 1);
        if IsRequest(m, w) && |m| > 4 then
          y.(ws := y.ws[w := k.(hands := Busy(Unwrap(m[4..]).0, Unwrap(m[4..]).1))])
        else y.(ws := y.ws[w := k])
    case Answer(w, reply) =>
      if w !in y.ws || !y.ws[w].hands.Busy? || reply == []
         || !Accepts(ok, y.ws[w].service, y.ws[w].hands.body, reply) then y
      else y.(ws := y.ws[w := y.ws[w].(hands := Idle, outbox := y.ws[w].outbox + [Reply(y.ws[w].hands.client, reply)])])
    case Heartbeat(w) =>
      if w !in y.ws then y else y.(ws := y.ws[w := y.ws[w].(outbox := y.ws[w].outbox + [Beat])])
    case Deliver(c, i) =>
      if c !in y.cs || Current(y.cs[c].calls).None? || !(y.cs[c].taken <= i < |y.b.sent|) || !To(y.b.sent[i], c) then y
      else y.(cs := y.cs[c := Answering(y.cs[c], y.b.sent[i], i)])
  }

  // ------------------------------------------------------------ where a request is

  datatype Place = Nowhere | Queued(n: Name) | With(w: Id) | Back

  predicate About(e: Event, c: Id) {
    match e
    case Accepted(_, m) => To(m, c)
    case Dispatched(_, _, m) => To(m, c)
    case Answered(x) => x == c
  }

  function PlaceOf(e: Event): Place {
    match e
    case Accepted(n, _) => Queued(n)
    case Dispatched(_, w, _) => With(w)
    case Answered(_) => Back
  }

  /** The place the broker's log gives for the last request of client `c`. */
  function Holder(log: seq<Event>, c: Id): Place {
    if log == [] then Nowhere
    else if About(log[|log| - 1], c) then PlaceOf(log[|log| - 1])
    else Holder(log[..|log| - 1], c)
  }

  lemma HolderAppend(log: seq<Event>, e: Event, c: Id)
    ensures Holder(log + [e], c) == if About(e, c) then PlaceOf(e) else Holder(log, c)
  {
    assert (log + [e])[..|log|] == log;
  }

  /** Requests among the messages `from` on that go to `w`. */
  function Requests(sent: seq<Msg>, from: nat, w: Id): nat {
    if from >= |sent| then 0
    else Requests(sent[..|sent| - 1], from, w) + if IsRequest(sent[|sent| - 1], w) then 1 else 0
  }

  lemma RequestsAppend(sent: seq<Msg>, m: Msg, from: nat, w: Id)
    requires from <= |sent|
    ensures Requests(sent + [m], from, w) == Requests(sent, from, w) + if IsRequest(m, w) then 1 else 0
  {
    assert (sent + [m])[..|sent|] == sent;
  }

  lemma {:induction false} RequestsTake(sent: seq<Msg>, from: nat, i: nat, w: Id)
    requires from <= i < |sent|
    ensures Requests(sent, i + 1, w) + (if IsRequest(sent[i], w) then 1 else 0) <= Requests(sent, from, w)
    decreases |sent|
  {
    var n := |sent| - 1;
    if i < n { RequestsTake(sent[..n], from, i, w); }
  }

  /** Messages of a worker after which the broker lists it as waiting. */
  predicate Frees(m: WorkerOut) {
    m == Hello || m.Reply?
  }

  function Freeing(out: seq<WorkerOut>): nat {
    if out == [] then 0 else (if Frees(out[0]) then 1 else 0) + Freeing(out[1..])
  }

  lemma FreeingAppend(out: seq<WorkerOut>, m: WorkerOut)
    ensures Freeing(out + [m]) == Freeing(out) + if Frees(m) then 1 else 0
  {
    if out != [] { assert (out + [m])[1..] == out[1..] + [m]; }
  }

  lemma {:induction false} FreeingTake(out: seq<WorkerOut>, i: nat)
    requires i < |out|
    ensures Freeing(out[i + 1..]) + (if Frees(out[i]) then 1 else 0) <= Freeing(out)
    decreases i
  {
    if i > 0 {
      FreeingTake(out[1..], i - 1);
      assert out[1..][i..] == out[i + 1..];
    }
  }

  lemma {:induction false} FreeingMember(out: seq<WorkerOut>, m: WorkerOut)
    requires m in out && Frees(m)
    ensures Freeing(out) > 0
  {
    if out[0] != m { FreeingMember(out[1..], m); }
  }

  // --------------------------------------------------------------------- the invariant

  /** Worker `w` holds, or is being sent, the pending request of client `c`. */
  ghost predicate Carries(y: System, w: Id, c: Id, body: Msg) {
    && w in y.ws && c in y.cs && !y.cs[c].unsent
    && y.cs[c].pending == Some(Request(y.ws[w].service, body))
    && !StartsMmi(y.ws[w].service)
    && Holder(y.b.log, c) == With(w)
  }

  /** Worker `w` is sending client `c` an answer to its pending request. */
  ghost predicate Returns(y: System, w: Id, c: Id, reply: Msg, ok: Rule) {
    && w in y.ws && c in y.cs && y.cs[c].pending.Some?
    && Carries(y, w, c, y.cs[c].pending.value.body)
    && reply != [] && Accepts(ok, y.ws[w].service, y.cs[c].pending.value.body, reply)
  }

  /** A message of the broker on its way to worker `w`. */
  ghost predicate WorkerForm(y: System, m: Msg, w: Id) {
    && |m| >= 4 && m[..3] == [w, "", MDPW_WORKER]
    && (m[3] == REQUEST ==> |m| >= 6 && m[5] == "" && Carries(y, w, m[4], m[6..]))
  }

  function Tokens(y: System, w: Id): nat
    requires w in y.ws
  {
    Requests(y.b.sent, y.ws[w].taken, w) + (if y.ws[w].hands.Busy? then 1 else 0)
    + Freeing(y.ws[w].outbox) + (if w in y.b.waiting then 1 else 0)
  }

  /** One token per worker: it is waiting, or being sent a request, or holding one, or sending
      the message that makes it waiting again, and never two of these. */
  ghost predicate WorkerOk(y: System, w: Id, ok: Rule) {
    w in y.ws ==>
      && y.ws[w].taken <= |y.b.sent| && NoNul(y.ws[w].service)
      && Tokens(y, w) <= 1
      && (Hello in y.ws[w].outbox ==> w !in y.b.workers)
      && (Requests(y.b.sent, y.ws[w].taken, w) > 0 || y.ws[w].hands.Busy? ==> w in y.b.workers)
      && (forall m :: m in y.ws[w].outbox && m.Reply? ==> w in y.b.workers && Returns(y, w, m.client, m.body, ok))
      && (y.ws[w].hands.Busy? ==> Carries(y, w, y.ws[w].hands.client, y.ws[w].hands.body))
      && (forall i :: y.ws[w].taken <= i < |y.b.sent| && To(y.b.sent[i], w) ==> WorkerForm(y, y.b.sent[i], w))
  }

  /** An answer fit for request `r`: from a worker, or from the management interface. */
  ghost predicate Fits(r: Request, reply: Msg, ok: Rule) {
    && r.body != []
    && if StartsMmi(r.service) then
         exists code :: code in {"200", "404", "501"} && reply == r.body[..|r.body| - 1] + [code]
       else reply != [] && Accepts(ok, r.service, r.body, reply)
  }

  /** A message of the broker on its way to client `c`. */
  ghost predicate ClientForm(y: System, m: Msg, c: Id, ok: Rule) {
    && c in y.cs && y.cs[c].pending.Some? && !y.cs[c].unsent && Holder(y.b.log, c) == Back
    && |m| >= 4 && m[..4] == [c, "", MDPC_CLIENT, y.cs[c].pending.value.service]
    && Fits(y.cs[c].pending.value, m[4..], ok)
  }

  /** Nothing of client `c` is anywhere between its last answer and its next request. */
  ghost predicate Clear(y: System, c: Id) {
    && c in y.cs && (Holder(y.b.log, c) == Nowhere || Holder(y.b.log, c) == Back)
    && (forall i :: y.cs[c].taken <= i < |y.b.sent| ==> !To(y.b.sent[i], c))
  }

  ghost predicate ClientOk(y: System, c: Id, ok: Rule) {
    c in y.cs ==>
      && y.cs[c].taken <= |y.b.sent|
      && (y.cs[c].unsent ==> y.cs[c].pending.Some?)
      && (y.cs[c].pending.Some? ==> Askable(y.cs[c].pending.value))
      && (y.cs[c].pending.None? || y.cs[c].unsent ==> Clear(y, c))
      && (forall i :: y.cs[c].taken <= i < |y.b.sent| && To(y.b.sent[i], c) ==> ClientForm(y, y.b.sent[i], c, ok))
      && (forall i, j :: y.cs[c].taken <= i < j < |y.b.sent| && To(y.b.sent[i], c) ==> !To(y.b.sent[j], c))
  }

  /** A queued request is the pending one of its client. */
  ghost predicate QueuedForm(y: System, m: Msg, n: Name) {
    && |m| >= 2 && m[1] == "" && m[0] in y.cs && !y.cs[m[0]].unsent
    && y.cs[m[0]].pending == Some(Request(n, m[2..])) && !StartsMmi(n)
    && Holder(y.b.log, m[0]) == Queued(n)
  }

  ghost predicate QueueOk(y: System, n: Name) {
    && (forall i :: 0 <= i < |QueueOf(y.b, n)| ==> QueuedForm(y, QueueOf(y.b, n)[i], n))
    && (forall i, j :: 0 <= i < j < |QueueOf(y.b, n)| ==> QueueOf(y.b, n)[i][..1] != QueueOf(y.b, n)[j][..1])
  }

  ghost predicate IdsOk(y: System) {
    && (forall x :: !(x in y.ws && x in y.cs))
    && (forall w :: w in y.b.workers ==> w in y.ws && y.b.workers[w].service == Some(y.ws[w].service))
    && (forall c :: Holder(y.b.log, c) != Nowhere ==> c in y.cs)
  }

  ghost predicate Wired(y: System, ok: Rule) {
    && IdsOk(y)
    && (forall w :: WorkerOk(y, w, ok))
    && (forall c :: ClientOk(y, c, ok))
    && (forall n :: QueueOk(y, n))
  }

  // ------------------------------------------------- what changes of the broker leave alone

  /** `b'` has sent at most one message more than `b`. */
  ghost predicate SentMore(b: State, b': State, more: seq<Msg>) {
    |more| <= 1 && b'.sent == b.sent + more
  }

  lemma RequestsKept(sent: seq<Msg>, more: seq<Msg>, from: nat, w: Id)
    requires |more| <= 1 && from <= |sent| && (more != [] ==> !IsRequest(more[0], w))
    ensures Requests(sent + more, from, w) == Requests(sent, from, w)
  {
    if more == [] {
      assert sent + more == sent;
    } else {
      assert more == [more[0]];
      RequestsAppend(sent, more[0], from, w);
    }
  }

  lemma CarriesFrame(y: System, b': State, w: Id, c: Id, body: Msg)
    requires Carries(y, w, c, body) && (Holder(y.b.log, c) == With(w) ==> Holder(b'.log, c) == With(w))
    ensures Carries(y.(b := b'), w, c, body)
  {
  }

  lemma WorkerFormFrame(y: System, b': State, m: Msg, w: Id)
    requires WorkerForm(y, m, w)
    requires forall c :: Holder(y.b.log, c) == With(w) ==> Holder(b'.log, c) == With(w)
    ensures WorkerForm(y.(b := b'), m, w)
  {
    if m[3] == REQUEST { CarriesFrame(y, b', w, m[4], m[6..]); }
  }

  /** Worker `w` does not notice a broker change that neither lists nor registers it, sends it no
      request, and moves no request away from it. */
  lemma WorkerFrame(y: System, b': State, more: seq<Msg>, w: Id, ok: Rule)
    requires WorkerOk(y, w, ok) && SentMore(y.b, b', more)
    requires w in b'.workers <==> w in y.b.workers
    requires w in b'.waiting ==> w in y.b.waiting
    requires forall c :: Holder(y.b.log, c) == With(w) ==> Holder(b'.log, c) == With(w)
    requires w in y.ws && more != [] && To(more[0], w) ==> WorkerForm(y, more[0], w) && !IsRequest(more[0], w)
    ensures WorkerOk(y.(b := b'), w, ok)
  {
    if w in y.ws {
      var z, k := y.(b := b'), y.ws[w];
      RequestsKept(y.b.sent, more, k.taken, w);
      assert Tokens(z, w) <= 1;
      forall i | k.taken <= i < |b'.sent| && To(b'.sent[i], w) ensures WorkerForm(z, b'.sent[i], w) {
        assert b'.sent[i] == if i < |y.b.sent| then y.b.sent[i] else more[0];
        WorkerFormFrame(y, b', b'.sent[i], w);
      }
      forall m | m in k.outbox && m.Reply? ensures w in b'.workers && Returns(z, w, m.client, m.body, ok) {
        assert Returns(y, w, m.client, m.body, ok);
      }
    }
  }

  lemma ClientFrame(y: System, b': State, more: seq<Msg>, c: Id, ok: Rule)
    requires ClientOk(y, c, ok) && SentMore(y.b, b', more)
    requires Holder(b'.log, c) == Holder(y.b.log, c)
    requires c in y.cs && more != [] ==> !To(more[0], c)
    ensures ClientOk(y.(b := b'), c, ok)
  {
    if c in y.cs {
      var z := y.(b := b');
      assert forall i :: |y.b.sent| <= i < |b'.sent| ==> b'.sent[i] == more[0];
      forall i | y.cs[c].taken <= i < |b'.sent| && To(b'.sent[i], c)
        ensures i < |y.b.sent| && ClientForm(z, b'.sent[i], c, ok)
      {
        assert ClientForm(y, y.b.sent[i], c, ok);
      }
    }
  }

  lemma QueueFrame(y: System, b': State, n: Name)
    requires QueueOk(y, n) && QueueOf(b', n) == QueueOf(y.b, n)
    requires forall c :: Holder(y.b.log, c) == Queued(n) ==> Holder(b'.log, c) == Queued(n)
    ensures QueueOk(y.(b := b'), n)
  {
    var z := y.(b := b');
    forall i | 0 <= i < |QueueOf(b', n)| ensures QueuedForm(z, QueueOf(b', n)[i], n) {
      assert QueuedForm(y, QueueOf(y.b, n)[i], n);
    }
  }

  /** A broker change that sends nothing and leaves log, queues, registrations and waiting list
      as they are, or only shrinks the latter two together for workers at rest. */
  lemma QuietWired(y: System, b': State, ok: Rule)
    requires Wired(y, ok) && b'.sent == y.b.sent && b'.log == y.b.log && b'.waiting == y.b.waiting
    requires b'.workers.Keys == y.b.workers.Keys
    requires forall w :: w in b'.workers ==> b'.workers[w].service == y.b.workers[w].service
    requires forall n :: QueueOf(b', n) == QueueOf(y.b, n)
    ensures Wired(y.(b := b'), ok)
  {
    assert SentMore(y.b, b', []);
    forall w ensures WorkerOk(y.(b := b'), w, ok) { WorkerFrame(y, b', [], w, ok); }
    forall c ensures ClientOk(y.(b := b'), c, ok) { ClientFrame(y, b', [], c, ok); }
    forall n ensures QueueOk(y.(b := b'), n) { QueueFrame(y, b', n); }
  }

  /** The broker sends a worker something other than a request. */
  lemma SendWired(y: System, w: Id, command: Frame, ok: Rule)
    requires Wired(y, ok) && w in y.ws && command != REQUEST
    ensures Wired(y.(b := WorkerSend(y.b, w, command, [])), ok)
  {
    var b' := WorkerSend(y.b, w, command, []);
    var m := Wrap(w, [MDPW_WORKER, command] + []);
    assert SentMore(y.b, b', [m]) && To(m, w) && m[..3] == [w, "", MDPW_WORKER] && m[3] == command;
    forall x ensures WorkerOk(y.(b := b'), x, ok) { WorkerFrame(y, b', [m], x, ok); }
    forall c ensures ClientOk(y.(b := b'), c, ok) { ClientFrame(y, b', [m], c, ok); }
    forall n ensures QueueOk(y.(b := b'), n) { QueueFrame(y, b', n); }
  }

  // --------------------------------------------------------- one lemma per broker operation

  /** Worker `w` neither holds nor is being sent a request, and is not sending an answer. */
  ghost predicate AtRest(y: System, w: Id) {
    w in y.ws ==>
      && Requests(y.b.sent, y.ws[w].taken, w) == 0 && y.ws[w].hands == Idle
      && (forall m :: m in y.ws[w].outbox ==> !m.Reply?)
  }

  lemma WaitingRests(y: System, w: Id, ok: Rule)
    requires WorkerOk(y, w, ok) && w in y.b.waiting
    ensures AtRest(y, w)
  {
    if w in y.ws {
      forall m | m in y.ws[w].outbox && Frees(m) ensures Freeing(y.ws[w].outbox) > 0 {
        FreeingMember(y.ws[w].outbox, m);
      }
    }
  }

  /** Unregistering a worker at rest. */
  lemma DropWired(y: System, w: Id, b': State, ok: Rule)
    requires Sound(y.b) && Wired(y, ok) && AtRest(y, w)
    requires b'.sent == y.b.sent && b'.log == y.b.log
    requires b'.waiting == Remove(y.b.waiting, w) && b'.workers == y.b.workers - {w}
    requires forall n :: QueueOf(b', n) == QueueOf(y.b, n)
    ensures Wired(y.(b := b'), ok)
  {
    assert SentMore(y.b, b', []);
    RemoveMembers(y.b.waiting, w);
    forall x ensures WorkerOk(y.(b := b'), x, ok) {
      if x != w { WorkerFrame(y, b', [], x, ok); } else { assert WorkerOk(y, w, ok); DropSelf(y, w, b', ok); }
    }
    forall c ensures ClientOk(y.(b := b'), c, ok) { ClientFrame(y, b', [], c, ok); }
    forall n ensures QueueOk(y.(b := b'), n) { QueueFrame(y, b', n); }
  }

  lemma DropSelf(y: System, w: Id, b': State, ok: Rule)
    requires WorkerOk(y, w, ok) && AtRest(y, w) && b'.sent == y.b.sent && b'.log == y.b.log
    requires w !in b'.waiting && w !in b'.workers
    ensures WorkerOk(y.(b := b'), w, ok)
  {
    if w in y.ws {
      var z, k := y.(b := b'), y.ws[w];
      forall i | k.taken <= i < |b'.sent| && To(b'.sent[i], w) ensures WorkerForm(z, b'.sent[i], w) {
        WorkerFormFrame(y, b', b'.sent[i], w);
      }
    }
  }

  lemma DeleteWired(y: System, w: Id, disconnect: bool, ok: Rule)
    requires Sound(y.b) && Wired(y, ok) && w in y.b.workers && AtRest(y, w)
    ensures Wired(y.(b := WorkerDelete(y.b, w, disconnect)), ok)
  {
    var b', y1 := WorkerDelete(y.b, w, disconnect), y;
    DeleteQuiet(y.b, w, disconnect);
    if disconnect {
      y1 := y.(b := WorkerSend(y.b, w, DISCONNECT, []));
      SendWired(y, w, DISCONNECT, ok);
      SoundIgnores(y.b, y1.b);
      assert WorkerOk(y, w, ok);
      RequestsKept(y.b.sent, [Wrap(w, [MDPW_WORKER, DISCONNECT] + [])], y.ws[w].taken, w);
    }
    DropWired(y1, w, b', ok);
  }

  lemma PurgeOnceWired(y: System, ok: Rule)
    requires Sound(y.b) && Wired(y, ok) && y.b.waiting != []
    ensures var y' := y.(b := WorkerDelete(y.b, y.b.waiting[0], false)); Sound(y'.b) && Wired(y', ok)
  {
    var w := y.b.waiting[0];
    assert w in y.b.waiting && WorkerOk(y, w, ok);
    WaitingRests(y, w, ok);
    DeleteWired(y, w, false, ok);
    DeleteSound(y.b, w, false);
  }

  lemma TickWired(y: System, ok: Rule)
    requires Sound(y.b) && Wired(y, ok)
    ensures var z := y.(b := y.b.(ticks := y.b.ticks + 1)); Sound(z.b) && Wired(z, ok)
  {
    var b1 := y.b.(ticks := y.b.ticks + 1);
    QuietWired(y, b1, ok);
    SoundIgnores(y.b, b1);
  }

  /** The next state of the purge loop, if it goes on. */
  function PurgeStep(b: State): State
    requires b.waiting != [] && b.waiting[0] in b.workers
  {
    WorkerDelete(b.(ticks := b.ticks + 1), b.waiting[0], false)
  }

  lemma PurgeUnfolds(b: State, clock: nat -> int)
    requires b.waiting != [] && b.waiting[0] in b.workers
    ensures Purge(b, clock) == if clock(b.ticks) < b.workers[b.waiting[0]].expiry then b.(ticks := b.ticks + 1)
                               else Purge(PurgeStep(b), clock)
    ensures |PurgeStep(b).waiting| < |b.waiting|
  {
  }

  lemma {:induction false} PurgeWired(y: System, clock: nat -> int, ok: Rule)
    requires Sound(y.b) && Wired(y, ok)
    ensures Wired(y.(b := Purge(y.b, clock)), ok)
    decreases |y.b.waiting|
  {
    if y.b.waiting == [] {
      assert y.(b := Purge(y.b, clock)) == y;
    } else {
      PurgeUnfolds(y.b, clock);
      TickWired(y, ok);
      if clock(y.b.ticks) >= y.b.workers[y.b.waiting[0]].expiry {
        PurgeOnceWired(y.(b := y.b.(ticks := y.b.ticks + 1)), ok);
        PurgeWired(y.(b := PurgeStep(y.b)), clock, ok);
      }
    }
  }

  lemma {:induction false} HeartbeatAllWired(y: System, ws: seq<Id>, ok: Rule)
    requires Wired(y, ok) && forall w :: w in ws ==> w in y.ws
    ensures Wired(y.(b := HeartbeatAll(y.b, ws)), ok)
    decreases ws
  {
    if ws != [] {
      SendWired(y, ws[0], HEARTBEAT, ok);
      HeartbeatAllWired(y.(b := WorkerSend(y.b, ws[0], HEARTBEAT, [])), ws[1..], ok);
    }
  }

  lemma TimerWired(y: System, clock: nat -> int, ok: Rule)
    requires Inv(y.b) && Wired(y, ok)
    ensures Wired(y.(b := Timer(y.b, clock)), ok)
  {
    var b1 := y.b.(ticks := y.b.ticks + 1);
    QuietWired(y, b1, ok);
    SoundIgnores(y.b, b1);
    if clock(y.b.ticks) > y.b.heartbeatAt {
      var b2 := Purge(b1, clock);
      PurgeWired(y.(b := b1), clock, ok);
      PurgeSound(b1, clock);
      HeartbeatAllWired(y.(b := b2), b2.waiting, ok);
      HeartbeatAllSends(b2, b2.waiting);
      QuietWired(y.(b := HeartbeatAll(b2, b2.waiting)), Timer(y.b, clock), ok);
    }
  }

  /** What dispatching the head request of `name` does to the log, the link and the queue. */
  ghost predicate Moves(y: System, name: Name, w: Id, m: Msg, b': State) {
    && QueueOf(y.b, name) != [] && m == QueueOf(y.b, name)[0] && w in y.b.waiting && BoundTo(y.b.workers, w, name)
    && b'.sent == y.b.sent + [Wrap(w, [MDPW_WORKER, REQUEST] + m)]
    && b'.log == y.b.log + [Dispatched(name, w, m)]
    && b'.workers == y.b.workers && w !in b'.waiting && (forall x :: x in b'.waiting ==> x in y.b.waiting)
    && QueueOf(b', name) == QueueOf(y.b, name)[1..]
    && (forall n :: n != name ==> QueueOf(b', n) == QueueOf(y.b, n))
  }

  lemma MovesHolder(y: System, name: Name, w: Id, m: Msg, b': State, ok: Rule)
    requires Wired(y, ok) && Moves(y, name, w, m, b')
    ensures QueuedForm(y, m, name)
    ensures forall c :: Holder(b'.log, c) == if c == m[0] then With(w) else Holder(y.b.log, c)
  {
    assert QueueOk(y, name);
    forall c ensures Holder(b'.log, c) == if c == m[0] then With(w) else Holder(y.b.log, c) {
      HolderAppend(y.b.log, Dispatched(name, w, m), c);
    }
  }

  lemma MovesWorker(y: System, name: Name, w: Id, m: Msg, b': State, ok: Rule)
    requires Wired(y, ok) && Moves(y, name, w, m, b')
    ensures WorkerOk(y.(b := b'), w, ok)
  {
    MovesHolder(y, name, w, m, b', ok);
    assert WorkerOk(y, w, ok) && y.ws[w].service == name;
    WaitingRests(y, w, ok);
    var z, k, r := y.(b := b'), y.ws[w], Wrap(w, [MDPW_WORKER, REQUEST] + m);
    RequestsAppend(y.b.sent, r, k.taken, w);
    assert r[..3] == [w, "", MDPW_WORKER] && r[3] == REQUEST && r[4] == m[0] && r[5] == m[1] && r[6..] == m[2..];
    assert WorkerForm(z, r, w);
    forall i | k.taken <= i < |b'.sent| && To(b'.sent[i], w) ensures WorkerForm(z, b'.sent[i], w) {
      if i < |y.b.sent| { WorkerFormFrame(y, b', b'.sent[i], w); }
    }
  }

  /** While a client's request is queued or with a worker, no answer is on its way to it. */
  lemma NothingBack(y: System, c: Id, ok: Rule)
    requires ClientOk(y, c, ok) && c in y.cs && Holder(y.b.log, c) != Back
    ensures forall i :: y.cs[c].taken <= i < |y.b.sent| ==> !To(y.b.sent[i], c)
  {
  }

  lemma MovesClient(y: System, name: Name, w: Id, m: Msg, b': State, c: Id, ok: Rule)
    requires Wired(y, ok) && Moves(y, name, w, m, b')
    ensures ClientOk(y.(b := b'), c, ok)
  {
    MovesHolder(y, name, w, m, b', ok);
    assert w in y.ws && ClientOk(y, c, ok);
    var r := Wrap(w, [MDPW_WORKER, REQUEST] + m);
    if c != m[0] {
      assert SentMore(y.b, b', [r]);
      ClientFrame(y, b', [r], c, ok);
    } else {
      NothingBack(y, c, ok);
    }
  }

  lemma MovesQueue(y: System, name: Name, w: Id, m: Msg, b': State, n: Name, ok: Rule)
    requires Wired(y, ok) && Moves(y, name, w, m, b')
    ensures QueueOk(y.(b := b'), n)
  {
    MovesHolder(y, name, w, m, b', ok);
    assert QueueOk(y, n);
    if n != name {
      QueueFrame(y, b', n);
    } else {
      var q, q' := QueueOf(y.b, n), QueueOf(b', n);
      assert forall i :: 0 <= i < |q'| ==> q'[i] == q[i + 1];
      forall i | 0 <= i < |q'| ensures QueuedForm(y.(b := b'), q'[i], n) {
        assert QueuedForm(y, q[i + 1], n) && q[0][..1] != q[i + 1][..1];
      }
    }
  }

  lemma DispatchOneWired(y: System, name: Name, ok: Rule)
    requires Sound(y.b) && Wired(y, ok)
    requires name in y.b.services && y.b.services[name].waiting != [] && y.b.services[name].requests != []
    ensures Wired(y.(b := DispatchOne(y.b, name)), ok)
  {
    var b', v := DispatchOne(y.b, name), y.b.services[name];
    var w, m := v.waiting[0], v.requests[0];
    DispatchOneSound(y.b, name);
    RemoveMembers(y.b.waiting, w);
    assert Moves(y, name, w, m, b');
    MovesHolder(y, name, w, m, b', ok);
    assert SentMore(y.b, b', [Wrap(w, [MDPW_WORKER, REQUEST] + m)]);
    forall x ensures WorkerOk(y.(b := b'), x, ok) {
      if x == w { MovesWorker(y, name, w, m, b', ok); }
      else { WorkerFrame(y, b', [Wrap(w, [MDPW_WORKER, REQUEST] + m)], x, ok); }
    }
    forall c ensures ClientOk(y.(b := b'), c, ok) { MovesClient(y, name, w, m, b', c, ok); }
    forall n ensures QueueOk(y.(b := b'), n) { MovesQueue(y, name, w, m, b', n, ok); }
  }

  lemma {:induction false} DispatchLoopWired(y: System, name: Name, ok: Rule)
    requires Sound(y.b) && Wired(y, ok) && name in y.b.services
    ensures Wired(y.(b := DispatchLoop(y.b, name)), ok)
    decreases |y.b.services[name].requests|
  {
    if y.b.services[name].waiting != [] && y.b.services[name].requests != [] {
      DispatchOneWired(y, name, ok);
      DispatchOneSound(y.b, name);
      DispatchLoopWired(y.(b := DispatchOne(y.b, name)), name, ok);
    }
  }

  lemma DispatchWired(y: System, name: Name, clock: nat -> int, ok: Rule)
    requires Sound(y.b) && Wired(y, ok) && name in y.b.services
    ensures Wired(y.(b := Dispatch(y.b, name, None, clock)), ok)
  {
    PurgeSound(y.b, clock);
    PurgeKeepsServices(y.b, clock);
    PurgeWired(y, clock, ok);
    DispatchLoopWired(y.(b := Purge(y.b, clock)), name, ok);
  }

  // ------------------------------------------------------------------ taking a request

  /** Client `c` has sent the request `r`, the broker has it in hand, and nothing else is about. */
  ghost predicate InHand(y: System, c: Id, r: Request) {
    Clear(y, c) && y.cs[c].pending == Some(r) && !y.cs[c].unsent
  }

  lemma EnqueueHolder(y: System, name: Name, c: Id, body: Msg, x: Id)
    requires name in y.b.services
    ensures Holder(Enqueue(y.b, name, Some(Wrap(c, body))).log, x) ==
            if x == c then Queued(name) else Holder(y.b.log, x)
  {
    HolderAppend(y.b.log, Accepted(name, Wrap(c, body)), x);
  }

  lemma EnqueueWired(y: System, name: Name, c: Id, body: Msg, ok: Rule)
    requires Wired(y, ok) && name in y.b.services && InHand(y, c, Request(name, body)) && !StartsMmi(name)
    ensures Wired(y.(b := Enqueue(y.b, name, Some(Wrap(c, body)))), ok)
  {
    var b' := Enqueue(y.b, name, Some(Wrap(c, body)));
    var z := y.(b := b');
    assert SentMore(y.b, b', []);
    forall x { EnqueueHolder(y, name, c, body, x); }
    forall w ensures WorkerOk(z, w, ok) { WorkerFrame(y, b', [], w, ok); }
    forall x ensures ClientOk(z, x, ok) {
      if x != c { ClientFrame(y, b', [], x, ok); } else { assert ClientOk(y, c, ok); }
    }
    forall n ensures QueueOk(z, n) {
      assert QueueOk(y, n);
      if n != name { QueueFrame(y, b', n); } else { EnqueueQueue(y, name, c, body); }
    }
  }

  /** A request queued before is not by the client whose request is in hand, and stays as it was. */
  lemma EnqueueOther(y: System, name: Name, c: Id, body: Msg, m: Msg)
    requires name in y.b.services && InHand(y, c, Request(name, body)) && QueuedForm(y, m, name)
    ensures m[0] != c && QueuedForm(y.(b := Enqueue(y.b, name, Some(Wrap(c, body)))), m, name)
  {
    EnqueueHolder(y, name, c, body, m[0]);
  }

  lemma EnqueueQueue(y: System, name: Name, c: Id, body: Msg)
    requires QueueOk(y, name) && name in y.b.services && InHand(y, c, Request(name, body)) && !StartsMmi(name)
    ensures QueueOk(y.(b := Enqueue(y.b, name, Some(Wrap(c, body)))), name)
  {
    var m := Wrap(c, body);
    var b' := Enqueue(y.b, name, Some(m));
    var z, q, q' := y.(b := b'), QueueOf(y.b, name), QueueOf(b', name);
    assert q' == q + [m] && m[2..] == body;
    EnqueueHolder(y, name, c, body, c);
    assert QueuedForm(z, m, name);
    forall i | 0 <= i < |q| ensures QueuedForm(z, q[i], name) && q[i][..1] != m[..1] {
      EnqueueOther(y, name, c, body, q[i]);
      assert q[i][..1][0] != m[..1][0];
    }
  }

  lemma MmiWired(y: System, c: Id, r: Request, code: Frame, b': State, ok: Rule)
    requires Wired(y, ok) && InHand(y, c, r) && StartsMmi(r.service) && code in {"200", "404", "501"} && r.body != []
    requires b' == y.b.(sent := y.b.sent + [Wrap(c, [MDPC_CLIENT, r.service] + r.body[..|r.body| - 1] + [code])],
                        log := y.b.log + [Answered(c)])
    ensures Wired(y.(b := b'), ok)
  {
    var reply := r.body[..|r.body| - 1] + [code];
    var m := Wrap(c, [MDPC_CLIENT, r.service] + r.body[..|r.body| - 1] + [code]);
    assert m == [c, "", MDPC_CLIENT, r.service] + reply;
    assert Fits(r, reply, ok);
    AnswerWired(y, c, r, reply, b', ok);
  }

  /** The broker answers client `c`: its request moves from wherever it was to the way back. */
  lemma AnswerWired(y: System, c: Id, r: Request, reply: Msg, b': State, ok: Rule)
    requires Wired(y, ok) && c in y.cs && y.cs[c].pending == Some(r) && !y.cs[c].unsent && Fits(r, reply, ok)
    requires forall i :: y.cs[c].taken <= i < |y.b.sent| ==> !To(y.b.sent[i], c)
    requires forall n :: Holder(y.b.log, c) != Queued(n)
    requires forall w :: Holder(y.b.log, c) == With(w) ==> AtRest(y, w)
    requires b' == y.b.(sent := y.b.sent + [[c, "", MDPC_CLIENT, r.service] + reply], log := y.b.log + [Answered(c)])
    ensures Wired(y.(b := b'), ok)
  {
    var m, z := [c, "", MDPC_CLIENT, r.service] + reply, y.(b := b');
    assert SentMore(y.b, b', [m]);
    forall x ensures Holder(b'.log, x) == if x == c then Back else Holder(y.b.log, x) {
      HolderAppend(y.b.log, Answered(c), x);
    }
    assert m[..4] == [c, "", MDPC_CLIENT, r.service] && m[4..] == reply;
    assert ClientForm(z, m, c, ok);
    forall w ensures WorkerOk(z, w, ok) {
      if Holder(y.b.log, c) == With(w) { AnswerRests(y, w, b', [m], ok); } else { WorkerFrame(y, b', [m], w, ok); }
    }
    forall x ensures ClientOk(z, x, ok) {
      if x != c { ClientFrame(y, b', [m], x, ok); } else { assert ClientOk(y, c, ok); }
    }
    forall n ensures QueueOk(z, n) { QueueFrame(y, b', n); }
  }

  /** A worker at rest does not mind losing the request it has answered. */
  lemma AnswerRests(y: System, w: Id, b': State, more: seq<Msg>, ok: Rule)
    requires WorkerOk(y, w, ok) && AtRest(y, w) && SentMore(y.b, b', more)
    requires b'.workers == y.b.workers && b'.waiting == y.b.waiting
    requires w in y.ws && more != [] ==> !To(more[0], w)
    ensures WorkerOk(y.(b := b'), w, ok)
  {
    if w in y.ws {
      var z, k := y.(b := b'), y.ws[w];
      RequestsKept(y.b.sent, more, k.taken, w);
      forall i | k.taken <= i < |b'.sent| && To(b'.sent[i], w) ensures WorkerForm(z, b'.sent[i], w) {
        assert i < |y.b.sent| && b'.sent[i] == y.b.sent[i] && WorkerForm(y, y.b.sent[i], w);
        NoRequestAt(y.b.sent, k.taken, i, w);
      }
    }
  }

  lemma NoRequestAt(sent: seq<Msg>, from: nat, i: nat, w: Id)
    requires from <= i < |sent| && Requests(sent, from, w) == 0
    ensures !IsRequest(sent[i], w)
  {
    RequestsTake(sent, from, i, w);
  }

  lemma ForwardWired(y: System, w: Id, c: Id, reply: Msg, ok: Rule)
    requires Wired(y, ok) && w in y.b.workers && AtRest(y, w) && Returns(y, w, c, reply, ok)
    requires y.cs[c].pending.value.body != []
    ensures y.b.workers[w].service.Some? && Wired(y.(b := Forward(y.b, w, Wrap(c, reply))), ok)
  {
    WrapUnwrap(c, reply);
    var r := y.cs[c].pending.value;
    assert ClientOk(y, c, ok);
    NothingBack(y, c, ok);
    assert Wrap(c, [MDPC_CLIENT, r.service] + reply) == [c, "", MDPC_CLIENT, r.service] + reply;
    AnswerWired(y, c, r, reply, Forward(y.b, w, Wrap(c, reply)), ok);
  }

  // --------------------------------------------------------------- registering and waiting

  lemma ServiceRequireWired(y: System, name: Name, ok: Rule)
    requires Wired(y, ok)
    ensures Wired(y.(b := ServiceRequire(y.b, name)), ok)
  {
    QuietWired(y, ServiceRequire(y.b, name), ok);
  }

  /** A worker without token joins the waiting list. */
  lemma JoinWired(y: System, w: Id, clock: nat -> int, ok: Rule)
    requires Wired(y, ok) && w in y.b.workers && Serviced(y.b, w) && w in y.ws && Tokens(y, w) == 0
    ensures Wired(y.(b := Listed(y.b, w, clock)), ok)
  {
    var b' := Listed(y.b, w, clock);
    var z := y.(b := b');
    assert SentMore(y.b, b', []);
    forall n ensures QueueOf(b', n) == QueueOf(y.b, n) { }
    forall x ensures WorkerOk(z, x, ok) {
      if x != w { WorkerFrame(y, b', [], x, ok); } else { JoinSelf(y, w, b', ok); }
    }
    forall c ensures ClientOk(z, c, ok) { ClientFrame(y, b', [], c, ok); }
    forall n ensures QueueOk(z, n) { QueueFrame(y, b', n); }
  }

  lemma JoinSelf(y: System, w: Id, b': State, ok: Rule)
    requires WorkerOk(y, w, ok) && w in y.ws && Tokens(y, w) == 0 && w in b'.workers
    requires b'.sent == y.b.sent && b'.log == y.b.log
    ensures WorkerOk(y.(b := b'), w, ok)
  {
    var z, k := y.(b := b'), y.ws[w];
    if m :| m in k.outbox && Frees(m) { FreeingMember(k.outbox, m); }
    forall i | k.taken <= i < |b'.sent| && To(b'.sent[i], w) ensures WorkerForm(z, b'.sent[i], w) {
      WorkerFormFrame(y, b', b'.sent[i], w);
    }
  }

  lemma WaitingWired(y: System, w: Id, clock: nat -> int, ok: Rule)
    requires Sound(y.b) && Wired(y, ok) && w in y.b.workers && w in y.ws && Tokens(y, w) == 0
    ensures Wired(y.(b := WorkerWaiting(y.b, w, clock)), ok)
  {
    assert Serviced(y.b, w);
    JoinWired(y, w, clock, ok);
    ListedSound(y.b, w, clock);
    DispatchWired(y.(b := Listed(y.b, w, clock)), y.b.workers[w].service.value, clock, ok);
  }

  lemma BindWired(y: System, w: Id, ok: Rule)
    requires Sound(y.b) && Wired(y, ok) && w in y.ws && w !in y.b.workers && Tokens(y, w) == 0
    ensures Wired(y.(b := Bind(WorkerRequire(y.b, w), w, y.ws[w].service)), ok)
  {
    var b' := Bind(WorkerRequire(y.b, w), w, y.ws[w].service);
    var z := y.(b := b');
    assert SentMore(y.b, b', []);
    forall n ensures QueueOf(b', n) == QueueOf(y.b, n) { }
    forall x ensures WorkerOk(z, x, ok) {
      if x != w { WorkerFrame(y, b', [], x, ok); } else { assert WorkerOk(y, w, ok); JoinSelf(y, w, b', ok); }
    }
    forall c ensures ClientOk(z, c, ok) { ClientFrame(y, b', [], c, ok); }
    forall n ensures QueueOk(z, n) { QueueFrame(y, b', n); }
  }

  // ------------------------------------------------------------------ messages as a whole

  /** READY from a worker whose connection is otherwise silent. */
  lemma HelloWired(y: System, w: Id, clock: nat -> int, ok: Rule)
    requires Inv(y.b) && Wired(y, ok) && w in y.ws && w !in y.b.workers && Tokens(y, w) == 0
    ensures Wired(y.(b := WorkerMsg(y.b, w, [READY, y.ws[w].service], clock)), ok)
  {
    assert WorkerOk(y, w, ok);
    if StartsMmi(w) {
      StrangerSound(y.b, w, true);
      SendWired(y, w, DISCONNECT, ok);
    } else {
      var name := y.ws[w].service;
      CStringWhole(name);
      assert [READY, name][1..] == [name];
      BindWired(y, w, ok);
      BindSound(y.b, w, name);
      WaitingWired(y.(b := Bind(WorkerRequire(y.b, w), w, name)), w, clock, ok);
    }
  }

  lemma ReplyWired(y: System, w: Id, c: Id, reply: Msg, clock: nat -> int, ok: Rule)
    requires Inv(y.b) && Wired(y, ok) && w in y.b.workers && w in y.ws && Tokens(y, w) == 0
    requires Returns(y, w, c, reply, ok)
    ensures Wired(y.(b := WorkerMsg(y.b, w, [REPLY] + Wrap(c, reply), clock)), ok)
  {
    assert WorkerOk(y, w, ok) && ClientOk(y, c, ok) && Serviced(y.b, w);
    TokenlessRests(y, w);
    ForwardWired(y, w, c, reply, ok);
    var b1 := Forward(y.b, w, Wrap(c, reply));
    SoundIgnores(y.b, b1);
    assert ([REPLY] + Wrap(c, reply))[1..] == Wrap(c, reply);
    WrapUnwrap(c, reply);
    RequestsKept(y.b.sent, [Wrap(c, [MDPC_CLIENT, y.b.workers[w].service.value] + reply)], y.ws[w].taken, w);
    WaitingWired(y.(b := b1), w, clock, ok);
  }

  lemma TokenlessRests(y: System, w: Id)
    requires w in y.ws && Tokens(y, w) == 0
    ensures AtRest(y, w) && w !in y.b.waiting
  {
    forall m | m in y.ws[w].outbox && Frees(m) ensures Freeing(y.ws[w].outbox) > 0 { FreeingMember(y.ws[w].outbox, m); }
  }

  lemma BeatWired(y: System, w: Id, clock: nat -> int, ok: Rule)
    requires Inv(y.b) && Wired(y, ok) && w in y.ws
    ensures Wired(y.(b := WorkerMsg(y.b, w, [HEARTBEAT], clock)), ok)
  {
    if w in y.b.workers {
      QuietWired(y, WorkerMsg(y.b, w, [HEARTBEAT], clock), ok);
    } else {
      StrangerSound(y.b, w, true);
      SendWired(y, w, DISCONNECT, ok);
    }
  }

  lemma ClientMsgWired(y: System, c: Id, r: Request, clock: nat -> int, ok: Rule)
    requires Inv(y.b) && Wired(y, ok) && InHand(y, c, r)
    ensures Wired(y.(b := ClientMsg(y.b, c, [r.service] + r.body, clock)), ok)
  {
    assert ClientOk(y, c, ok);
    var msg := [r.service] + r.body;
    assert msg[1..] == r.body && |msg| >= 2;
    CStringWhole(r.service);
    var b1 := ServiceRequire(y.b, r.service);
    ServiceRequireWired(y, r.service, ok);
    ServiceRequireSound(y.b, r.service);
    if StartsMmi(r.service) {
      MmiWired(y.(b := b1), c, r, MmiCode(b1, r.service, r.body[|r.body| - 1]), ClientMsg(y.b, c, msg, clock), ok);
    } else {
      var b2 := Enqueue(b1, r.service, Some(Wrap(c, r.body)));
      EnqueueWired(y.(b := b1), r.service, c, r.body, ok);
      SoundIgnores(b1, b2);
      DispatchWired(y.(b := b2), r.service, clock, ok);
    }
  }

  // --------------------------------------------------------------- steps of the whole system

  /** The invariant of the system: broker and links. */
  ghost predicate SystemInv(y: System, ok: Rule) {
    Inv(y.b) && Wired(y, ok)
  }

  /** A change at one worker concerns only that worker. */
  lemma SwapWorker(y: System, w: Id, k: WorkerConn, ok: Rule)
    requires Wired(y, ok) && w !in y.cs && (w in y.b.workers ==> w in y.ws && k.service == y.ws[w].service)
    requires WorkerOk(y.(ws := y.ws[w := k]), w, ok)
    ensures Wired(y.(ws := y.ws[w := k]), ok)
  {
    var z := y.(ws := y.ws[w := k]);
    forall x ensures WorkerOk(z, x, ok) {
      assert WorkerOk(y, x, ok);
      if x != w && x in y.ws {
        forall i | y.ws[x].taken <= i < |y.b.sent| && To(y.b.sent[i], x) ensures WorkerForm(z, y.b.sent[i], x) {
          assert WorkerForm(y, y.b.sent[i], x);
        }
        forall m | m in y.ws[x].outbox && m.Reply? ensures Returns(z, x, m.client, m.body, ok) {
          assert Returns(y, x, m.client, m.body, ok);
        }
      }
    }
    forall c ensures ClientOk(z, c, ok) { assert ClientOk(y, c, ok); SwapWorkerClient(y, z, c, ok); }
    forall n ensures QueueOk(z, n) {
      assert QueueOk(y, n);
      forall i | 0 <= i < |QueueOf(y.b, n)| ensures QueuedForm(z, QueueOf(y.b, n)[i], n) {
        assert QueuedForm(y, QueueOf(y.b, n)[i], n);
      }
    }
  }

  lemma SwapWorkerClient(y: System, z: System, c: Id, ok: Rule)
    requires ClientOk(y, c, ok) && z.b == y.b && z.cs == y.cs
    ensures ClientOk(z, c, ok)
  {
    if c in y.cs {
      forall i | y.cs[c].taken <= i < |y.b.sent| && To(y.b.sent[i], c) ensures ClientForm(z, y.b.sent[i], c, ok) {
        assert ClientForm(y, y.b.sent[i], c, ok);
      }
    }
  }

  /** A change at a client with no request under way, or none to that request, concerns only that client. */
  lemma SwapClient(y: System, c: Id, k: ClientConn, ok: Rule)
    requires Wired(y, ok) && c !in y.ws
    requires || Holder(y.b.log, c) == Nowhere || Holder(y.b.log, c) == Back
             || (c in y.cs && k.pending == y.cs[c].pending && k.unsent == y.cs[c].unsent)
    requires ClientOk(y.(cs := y.cs[c := k]), c, ok)
    ensures Wired(y.(cs := y.cs[c := k]), ok)
  {
    var z := y.(cs := y.cs[c := k]);
    forall w ensures WorkerOk(z, w, ok) {
      assert WorkerOk(y, w, ok);
      if w in y.ws {
        forall i | y.ws[w].taken <= i < |y.b.sent| && To(y.b.sent[i], w) ensures WorkerForm(z, y.b.sent[i], w) {
          assert WorkerForm(y, y.b.sent[i], w);
        }
        forall m | m in y.ws[w].outbox && m.Reply? ensures Returns(z, w, m.client, m.body, ok) {
          assert Returns(y, w, m.client, m.body, ok);
        }
      }
    }
    forall x ensures ClientOk(z, x, ok) {
      if x != c { assert ClientOk(y, x, ok); SwapOtherClient(y, z, x, ok); }
    }
    forall n ensures QueueOk(z, n) {
      assert QueueOk(y, n);
      forall i | 0 <= i < |QueueOf(y.b, n)| ensures QueuedForm(z, QueueOf(y.b, n)[i], n) {
        assert QueuedForm(y, QueueOf(y.b, n)[i], n);
      }
    }
  }

  lemma SwapOtherClient(y: System, z: System, x: Id, ok: Rule)
    requires ClientOk(y, x, ok) && z.b == y.b && (x in z.cs <==> x in y.cs) && (x in y.cs ==> z.cs[x] == y.cs[x])
    ensures ClientOk(z, x, ok)
  {
    if x in y.cs {
      forall i | y.cs[x].taken <= i < |y.b.sent| && To(y.b.sent[i], x) ensures ClientForm(z, y.b.sent[i], x, ok) {
        assert ClientForm(y, y.b.sent[i], x, ok);
      }
    }
  }

  lemma NewWorkerInv(y: System, w: Id, service: Name, ok: Rule)
    requires SystemInv(y, ok) && w !in y.ws && w !in y.cs && NoNul(service)
    ensures SystemInv(y.(ws := y.ws[w := WorkerConn(service, |y.b.sent|, Idle, [Hello])]), ok)
  {
    var k := WorkerConn(service, |y.b.sent|, Idle, [Hello]);
    assert Freeing([Hello]) == 1 by { assert [Hello][1..] == []; }
    assert w !in y.b.workers && w !in y.b.waiting;
    SwapWorker(y, w, k, ok);
  }

  lemma NewClientInv(y: System, c: Id, ok: Rule)
    requires SystemInv(y, ok) && c !in y.ws && c !in y.cs
    ensures SystemInv(y.(cs := y.cs[c := ClientConn(|y.b.sent|, None, false, [], 0)]), ok)
  {
    SwapClient(y, c, ClientConn(|y.b.sent|, None, false, [], 0), ok);
  }

  /** Only the log of calls changes. */
  lemma RelabelInv(y: System, c: Id, k: ClientConn, ok: Rule)
    requires SystemInv(y, ok) && c in y.cs
    requires k.taken == y.cs[c].taken && k.pending == y.cs[c].pending && k.unsent == y.cs[c].unsent
    ensures SystemInv(y.(cs := y.cs[c := k]), ok)
  {
    var z := y.(cs := y.cs[c := k]);
    assert ClientOk(y, c, ok);
    forall i | k.taken <= i < |y.b.sent| && To(y.b.sent[i], c) ensures ClientForm(z, y.b.sent[i], c, ok) {
      assert ClientForm(y, y.b.sent[i], c, ok);
    }
    SwapClient(y, c, k, ok);
  }

  lemma SubmitInv(y: System, c: Id, r: Request, ok: Rule)
    requires SystemInv(y, ok) && c in y.cs && Askable(r)
    ensures SystemInv(y.(cs := y.cs[c := Asking(y.cs[c], r)]), ok)
  {
    assert ClientOk(y, c, ok);
    if y.cs[c].pending.Some? {
      RelabelInv(y, c, Asking(y.cs[c], r), ok);
    } else {
      assert Clear(y, c);
      SwapClient(y, c, Asking(y.cs[c], r), ok);
    }
  }

  lemma LoseClientInv(y: System, c: Id, ok: Rule)
    requires SystemInv(y, ok) && c in y.cs
    ensures var z := y.(cs := y.cs[c := y.cs[c].(unsent := false)]);
      SystemInv(z, ok) && (y.cs[c].unsent ==> Clear(z, c))
  {
    var k := y.cs[c].(unsent := false);
    if y.cs[c].unsent {
      assert ClientOk(y, c, ok) && Clear(y, c);
      SwapClient(y, c, k, ok);
    } else {
      assert y.cs[c := k] == y.cs;
    }
  }

  lemma DeliverInv(y: System, c: Id, i: nat, ok: Rule)
    requires SystemInv(y, ok) && c in y.cs && y.cs[c].taken <= i < |y.b.sent| && To(y.b.sent[i], c)
    requires Current(y.cs[c].calls).Some?
    ensures SystemInv(y.(cs := y.cs[c := Answering(y.cs[c], y.b.sent[i], i)]), ok)
  {
    assert ClientOk(y, c, ok) && ClientForm(y, y.b.sent[i], c, ok);
    SwapClient(y, c, Answering(y.cs[c], y.b.sent[i], i), ok);
  }

  lemma HeartbeatInv(y: System, w: Id, ok: Rule)
    requires SystemInv(y, ok) && w in y.ws
    ensures SystemInv(y.(ws := y.ws[w := y.ws[w].(outbox := y.ws[w].outbox + [Beat])]), ok)
  {
    var k := y.ws[w].(outbox := y.ws[w].outbox + [Beat]);
    assert WorkerOk(y, w, ok);
    FreeingAppend(y.ws[w].outbox, Beat);
    WorkerKeeps(y, w, k, ok);
    SwapWorker(y, w, k, ok);
  }

  /** Worker `w` may lose tokens and messages, and send heartbeats. */
  lemma WorkerKeeps(y: System, w: Id, k: WorkerConn, ok: Rule)
    requires WorkerOk(y, w, ok) && w in y.ws
    requires k.service == y.ws[w].service && y.ws[w].taken <= k.taken <= |y.b.sent| && k.hands == y.ws[w].hands
    requires Requests(y.b.sent, k.taken, w) <= Requests(y.b.sent, y.ws[w].taken, w)
    requires Freeing(k.outbox) <= Freeing(y.ws[w].outbox)
    requires forall m :: m in k.outbox ==> m in y.ws[w].outbox || m == Beat
    ensures WorkerOk(y.(ws := y.ws[w := k]), w, ok)
  {
    var z := y.(ws := y.ws[w := k]);
    forall i | k.taken <= i < |y.b.sent| && To(y.b.sent[i], w) ensures WorkerForm(z, y.b.sent[i], w) {
      assert WorkerForm(y, y.b.sent[i], w);
    }
    forall m | m in k.outbox && m.Reply? ensures w in y.b.workers && Returns(z, w, m.client, m.body, ok) {
      assert Returns(y, w, m.client, m.body, ok);
    }
  }

  lemma AnswerInv(y: System, w: Id, reply: Msg, ok: Rule)
    requires SystemInv(y, ok) && w in y.ws && y.ws[w].hands.Busy? && reply != []
    requires Accepts(ok, y.ws[w].service, y.ws[w].hands.body, reply)
    ensures var k := y.ws[w].(hands := Idle, outbox := y.ws[w].outbox + [Reply(y.ws[w].hands.client, reply)]);
      SystemInv(y.(ws := y.ws[w := k]), ok)
  {
    var h := y.ws[w];
    var r := Reply(h.hands.client, reply);
    var k := h.(hands := Idle, outbox := h.outbox + [r]);
    var z := y.(ws := y.ws[w := k]);
    assert WorkerOk(y, w, ok) && Carries(y, w, h.hands.client, h.hands.body);
    FreeingAppend(h.outbox, r);
    forall i | k.taken <= i < |y.b.sent| && To(y.b.sent[i], w) ensures WorkerForm(z, y.b.sent[i], w) {
      assert WorkerForm(y, y.b.sent[i], w);
    }
    assert Returns(z, w, h.hands.client, reply, ok);
    if Hello in k.outbox { FreeingMember(h.outbox, Hello); }
    SwapWorker(y, w, k, ok);
  }

  /** Worker `w` takes the request `m` into its hands. */
  lemma TakeRequestInv(y: System, w: Id, i: nat, ok: Rule)
    requires SystemInv(y, ok) && w in y.ws && y.ws[w].hands == Idle
    requires y.ws[w].taken <= i < |y.b.sent| && IsRequest(y.b.sent[i], w)
    ensures var m := y.b.sent[i];
      && |m| >= 6 && Unwrap(m[4..]) == (m[4], m[6..])
      && SystemInv(y.(ws := y.ws[w := y.ws[w].(taken := i + 1, hands := Busy(m[4], m[6..]))]), ok)
  {
    var m, h := y.b.sent[i], y.ws[w];
    assert WorkerOk(y, w, ok) && WorkerForm(y, m, w);
    RequestsTake(y.b.sent, h.taken, i, w);
    WrapUnwrap(m[4], m[6..]);
    assert m[4..] == Wrap(m[4], m[6..]);
    var k := h.(taken := i + 1, hands := Busy(m[4], m[6..]));
    var z := y.(ws := y.ws[w := k]);
    forall j | k.taken <= j < |y.b.sent| && To(y.b.sent[j], w) ensures WorkerForm(z, y.b.sent[j], w) {
      assert WorkerForm(y, y.b.sent[j], w);
    }
    forall o | o in k.outbox && o.Reply? ensures w in y.b.workers && Returns(z, w, o.client, o.body, ok) {
      assert Returns(y, w, o.client, o.body, ok);
    }
    SwapWorker(y, w, k, ok);
  }

  lemma ReceiveInv(y: System, w: Id, i: nat, clock: nat -> int, ok: Rule)
    requires SystemInv(y, ok) && w in y.ws && y.ws[w].hands == Idle
    requires y.ws[w].taken <= i < |y.b.sent| && To(y.b.sent[i], w)
    ensures SystemInv(Act(y, Receive(w, i), clock, ok), ok)
  {
    if IsRequest(y.b.sent[i], w) {
      TakeRequestInv(y, w, i, ok);
    } else {
      assert WorkerOk(y, w, ok);
      RequestsTake(y.b.sent, y.ws[w].taken, i, w);
      WorkerKeeps(y, w, y.ws[w].(taken := i + 1), ok);
      SwapWorker(y, w, y.ws[w].(taken := i + 1), ok);
    }
  }

  // ------------------------------------------------- the broker takes a message of the API

  lemma TurnWired(y: System, m: Msg, clock: nat -> int, ok: Rule)
    requires Inv(y.b) && Compliant(y.b, m) && Wired(y.(b := MdpBroker.Receive(y.b, m, clock)), ok)
    ensures SystemInv(y.(b := Turn(y.b, Some(m), clock)), ok)
  {
    ReceiveKeepsInv(y.b, m, clock);
    TurnKeepsInv(y.b, Some(m), clock);
    TimerWired(y.(b := MdpBroker.Receive(y.b, m, clock)), clock, ok);
  }

  /** What the broker makes of the frames of a client request. */
  lemma ClientFramesRead(y: System, c: Id, r: Request, clock: nat -> int, ok: Rule)
    requires SystemInv(y, ok) && InHand(y, c, r)
    ensures Compliant(y.b, ClientFrames(c, r))
    ensures Wired(y.(b := MdpBroker.Receive(y.b, ClientFrames(c, r), clock)), ok)
  {
    var m := ClientFrames(c, r);
    assert ClientOk(y, c, ok);
    assert m[3..] == [r.service] + r.body && m[0] == c && m[2] == MDPC_CLIENT && MDPC_CLIENT != MDPW_WORKER;
    ClientMsgWired(y, c, r, clock, ok);
  }

  lemma TakeClientInv(y: System, c: Id, clock: nat -> int, ok: Rule)
    requires SystemInv(y, ok) && c in y.cs && y.cs[c].unsent && y.cs[c].pending.Some?
    ensures Compliant(y.b, ClientFrames(c, y.cs[c].pending.value))
    ensures SystemInv(Act(y, TakeClient(c), clock, ok), ok)
  {
    var y0 := y.(cs := y.cs[c := y.cs[c].(unsent := false)]);
    LoseClientInv(y, c, ok);
    ClientFramesRead(y0, c, y.cs[c].pending.value, clock, ok);
    var m := ClientFrames(c, y.cs[c].pending.value);
    TurnWired(y0, m, clock, ok);
    assert Act(y, TakeClient(c), clock, ok) == y0.(b := Turn(y.b, Some(m), clock));
  }

  lemma TakenWorker(y: System, w: Id, i: nat, ok: Rule)
    requires SystemInv(y, ok) && w in y.ws && i < |y.ws[w].outbox|
    ensures var z := y.(ws := y.ws[w := y.ws[w].(outbox := y.ws[w].outbox[i + 1..])]);
      && SystemInv(z, ok) && (Frees(y.ws[w].outbox[i]) ==> Tokens(z, w) == 0)
      && (y.ws[w].outbox[i] == Hello ==> w !in y.b.workers)
      && (y.ws[w].outbox[i].Reply? ==>
            && w in y.b.workers
            && Returns(z, w, y.ws[w].outbox[i].client, y.ws[w].outbox[i].body, ok))
  {
    var h := y.ws[w];
    var k := h.(outbox := h.outbox[i + 1..]);
    assert WorkerOk(y, w, ok) && h.outbox[i] in h.outbox;
    FreeingTake(h.outbox, i);
    WorkerKeeps(y, w, k, ok);
    SwapWorker(y, w, k, ok);
    if h.outbox[i].Reply? { assert Returns(y, w, h.outbox[i].client, h.outbox[i].body, ok); }
  }

  /** What the broker makes of the frames of one worker message. */
  lemma WorkerFramesRead(y: System, w: Id, out: WorkerOut, clock: nat -> int, ok: Rule)
    requires SystemInv(y, ok) && w in y.ws && (Frees(out) ==> Tokens(y, w) == 0)
    requires out == Hello ==> w !in y.b.workers
    requires out.Reply? ==> w in y.b.workers && Returns(y, w, out.client, out.body, ok)
    ensures Compliant(y.b, WorkerFrames(w, y.ws[w].service, out))
    ensures Wired(y.(b := MdpBroker.Receive(y.b, WorkerFrames(w, y.ws[w].service, out), clock)), ok)
  {
    var m := WorkerFrames(w, y.ws[w].service, out);
    assert m[0] == w && m[2] == MDPW_WORKER && MDPC_CLIENT != MDPW_WORKER;
    match out
    case Hello =>
      assert m[3..] == [READY, y.ws[w].service];
      HelloWired(y, w, clock, ok);
    case Beat =>
      assert m[3..] == [HEARTBEAT];
      BeatWired(y, w, clock, ok);
    case Reply(c, reply) =>
      assert m[3..] == [REPLY] + Wrap(c, reply);
      TokenlessRests(y, w);
      ReplyWired(y, w, c, reply, clock, ok);
  }

  lemma TakeWorkerIs(y: System, w: Id, i: nat, clock: nat -> int, ok: Rule)
    requires w in y.ws && i < |y.ws[w].outbox|
    ensures Act(y, TakeWorker(w, i), clock, ok) ==
            y.(ws := y.ws[w := y.ws[w].(outbox := y.ws[w].outbox[i + 1..])])
             .(b := Turn(y.b, Some(WorkerFrames(w, y.ws[w].service, y.ws[w].outbox[i])), clock))
  {
  }

  lemma TakeWorkerInv(y: System, w: Id, i: nat, clock: nat -> int, ok: Rule)
    requires SystemInv(y, ok) && w in y.ws && i < |y.ws[w].outbox|
    ensures Compliant(y.b, WorkerFrames(w, y.ws[w].service, y.ws[w].outbox[i]))
    ensures SystemInv(Act(y, TakeWorker(w, i), clock, ok), ok)
  {
    var z := y.(ws := y.ws[w := y.ws[w].(outbox := y.ws[w].outbox[i + 1..])]);
    TakenWorker(y, w, i, ok);
    WorkerFramesRead(z, w, y.ws[w].outbox[i], clock, ok);
    var m := WorkerFrames(w, y.ws[w].service, y.ws[w].outbox[i]);
    TurnWired(z, m, clock, ok);
    TakeWorkerIs(y, w, i, clock, ok);
  }

  /** Every step of the system keeps the invariant. */
  lemma ActInv(y: System, step: Step, clock: nat -> int, ok: Rule)
    requires SystemInv(y, ok)
    ensures SystemInv(Act(y, step, clock, ok), ok)
  {
    if Act(y, step, clock, ok) != y {
      match step
      case NewWorker(w, service) => NewWorkerInv(y, w, service, ok);
      case NewClient(c) => NewClientInv(y, c, ok);
      case Submit(c, r) => SubmitInv(y, c, r, ok);
      case Abandon(c) => RelabelInv(y, c, y.cs[c].(calls := y.cs[c].calls + [GaveUp]), ok);
      case TakeClient(c) => TakeClientInv(y, c, clock, ok);
      case LoseClient(c) => LoseClientInv(y, c, ok);
      case TakeWorker(w, i) => TakeWorkerInv(y, w, i, clock, ok);
      case Tick =>
        TimerWired(y, clock, ok);
        TurnKeepsInv(y.b, None, clock);
      case Receive(w, i) => ReceiveInv(y, w, i, clock, ok);
      case Answer(w, reply) => AnswerInv(y, w, reply, ok);
      case Heartbeat(w) => HeartbeatInv(y, w, ok);
      case Deliver(c, i) => DeliverInv(y, c, i, ok);
    }
  }

  function RunSystem(steps: seq<Step>, clock: nat -> int, ok: Rule): System {
    if steps == [] then System(Init(clock), map[], map[])
    else Act(RunSystem(steps[..|steps| - 1], clock, ok), steps[|steps| - 1], clock, ok)
  }

  /** The invariant holds in every reachable state, with any number of clients and workers, any
      clock, and any loss of messages on the links. */
  lemma {:induction false} ReachableInv(steps: seq<Step>, clock: nat -> int, ok: Rule)
    ensures SystemInv(RunSystem(steps, clock, ok), ok)
  {
    if steps == [] {
      InitInv(clock);
    } else {
      var n := |steps| - 1;
      ReachableInv(steps[..n], clock, ok);
      ActInv(RunSystem(steps[..n], clock, ok), steps[n], clock, ok);
    }
  }

  // --------------------------------------------------------------- several steps in a row

  function ActAll(y: System, steps: seq<Step>, clock: nat -> int, ok: Rule): System {
    if steps == [] then y else Act(ActAll(y, steps[..|steps| - 1], clock, ok), steps[|steps| - 1], clock, ok)
  }

  lemma {:induction false} RunsOn(a: seq<Step>, b: seq<Step>, clock: nat -> int, ok: Rule)
    ensures RunSystem(a + b, clock, ok) == ActAll(RunSystem(a, clock, ok), b, clock, ok)
  {
    if b == [] {
      assert a + b == a;
    } else {
      assert (a + b)[..|a + b| - 1] == a + b[..|b| - 1];
      RunsOn(a, b[..|b| - 1], clock, ok);
    }
  }

  lemma ActAllAppend(y: System, steps: seq<Step>, s: Step, clock: nat -> int, ok: Rule)
    ensures ActAll(y, steps + [s], clock, ok) == Act(ActAll(y, steps, clock, ok), s, clock, ok)
  {
    assert (steps + [s])[..|steps|] == steps;
  }

  lemma {:induction false} ActAllJoin(y: System, a: seq<Step>, b: seq<Step>, clock: nat -> int, ok: Rule)
    ensures ActAll(y, a + b, clock, ok) == ActAll(ActAll(y, a, clock, ok), b, clock, ok)
  {
    if b == [] {
      assert a + b == a;
    } else {
      assert (a + b)[..|a + b| - 1] == a + b[..|b| - 1];
      ActAllJoin(y, a, b[..|b| - 1], clock, ok);
    }
  }

  lemma {:induction false} ActAllInv(y: System, steps: seq<Step>, clock: nat -> int, ok: Rule)
    requires SystemInv(y, ok)
    ensures SystemInv(ActAll(y, steps, clock, ok), ok)
  {
    if steps != [] {
      ActAllInv(y, steps[..|steps| - 1], clock, ok);
      ActInv(ActAll(y, steps[..|steps| - 1], clock, ok), steps[|steps| - 1], clock, ok);
    }
  }

  lemma TwoSteps(y: System, a: Step, b: Step, clock: nat -> int, ok: Rule)
    ensures ActAll(y, [a, b], clock, ok) == Act(Act(y, a, clock, ok), b, clock, ok)
  {
    ActAllAppend(y, [a], b, clock, ok);
    ActAllAppend(y, [], a, clock, ok);
    assert [a, b] == [a] + [b] && [a] == [] + [a];
  }

  // ------------------------------------------------------------------ what it is all for

  /** Workers and clients using the API never send the broker anything it cannot take. */
  lemma ApiIsCompliant(steps: seq<Step>, clock: nat -> int, ok: Rule, x: Id, i: nat)
    ensures var y := RunSystem(steps, clock, ok);
      && (x in y.cs && y.cs[x].unsent ==>
            y.cs[x].pending.Some? && Compliant(y.b, ClientFrames(x, y.cs[x].pending.value)))
      && (x in y.ws && i < |y.ws[x].outbox| ==>
            Compliant(y.b, WorkerFrames(x, y.ws[x].service, y.ws[x].outbox[i])))
  {
    var y := RunSystem(steps, clock, ok);
    ReachableInv(steps, clock, ok);
    if x in y.cs && y.cs[x].unsent {
      assert ClientOk(y, x, ok);
      TakeClientInv(y, x, clock, ok);
    }
    if x in y.ws && i < |y.ws[x].outbox| { TakeWorkerInv(y, x, i, clock, ok); }
  }

  /** Whatever message reaches a worker passes the assertions of `mdwrk_recv`; a request it holds is
      the pending request, for its own service, of the client it will answer to. */
  lemma WorkerGetsItsRequests(steps: seq<Step>, clock: nat -> int, ok: Rule, w: Id, i: nat)
    requires w in RunSystem(steps, clock, ok).ws
    ensures var y := RunSystem(steps, clock, ok);
      && (y.ws[w].taken <= i < |y.b.sent| && To(y.b.sent[i], w) ==>
            |y.b.sent[i]| >= 4 && y.b.sent[i][1] == "" && y.b.sent[i][2] == MDPW_WORKER)
      && (y.ws[w].hands.Busy? ==>
            && y.ws[w].hands.client in y.cs
            && y.cs[y.ws[w].hands.client].pending == Some(Request(y.ws[w].service, y.ws[w].hands.body)))
  {
    var y := RunSystem(steps, clock, ok);
    ReachableInv(steps, clock, ok);
    assert WorkerOk(y, w, ok);
    if y.ws[w].taken <= i < |y.b.sent| && To(y.b.sent[i], w) {
      assert WorkerForm(y, y.b.sent[i], w);
      assert y.b.sent[i][..3][1] == "" && y.b.sent[i][..3][2] == MDPW_WORKER;
    }
  }
}
