/** Messages of the Majordomo protocol: sequences of frames, as the CZMQ calls see them. */
module Frames {
  import opened CStrings

  type Frame = string
  type Msg = seq<Frame>

  const MDPC_CLIENT: Frame := "MDPC01"
  const MDPW_WORKER: Frame := "MDPW01"

  const READY: Frame := [1 as char]
  const REQUEST: Frame := [2 as char]
  const REPLY: Frame := [3 as char]
  const HEARTBEAT: Frame := [4 as char]
  const DISCONNECT: Frame := [5 as char]

  /** The C string a frame becomes when it is copied and used as a name: cut at the first NUL. */
  function CString(f: Frame): Frame {
    Before(f, 0 as char)
  }

  /** Push an address and the empty delimiter in front. */
  function Wrap(f: Frame, m: Msg): Msg {
    [f, ""] + m
  }

  /** Pop the address, and the delimiter behind it if there is one. */
  function Unwrap(m: Msg): (Frame, Msg)
    requires m != []
  {
    (m[0], if |m| > 1 && m[1] == "" then m[2..] else m[1..])
  }

  /** Wrapping is undone by unwrapping, even if the content starts with empty frames. */
  lemma WrapUnwrap(f: Frame, m: Msg)
    ensures Unwrap(Wrap(f, m)) == (f, m)
  {
    assert Wrap(f, m)[2..] == m;
  }

  predicate StartsMmi(f: Frame) {
    |f| >= 4 && f[..4] == "mmi."
  }
}

/** The broker as a function from state and input to state. Reads of the clock take the
    successive values `clock(ticks)`. A failed C assertion, and a use of a null or freed
    pointer, set `dead`. */
module MdpBroker {
  import opened Frames
  import opened Options

  type Id = Frame
  type Name = Frame

  const HEARTBEAT_INTERVAL := 2500
  const HEARTBEAT_EXPIRY := 7500

  datatype Worker = Worker(service: Option<Name>, expiry: int)
  datatype Service = Service(requests: seq<Msg>, waiting: seq<Id>, workers: int)

  /** What the broker did with requests, in order: queued one, gave one to a worker, answered a client. */
  datatype Event =
    | Accepted(service: Name, msg: Msg)
    | Dispatched(service: Name, worker: Id, msg: Msg)
    | Answered(client: Id)

  datatype State = State(
    services: map<Name, Service>,
    workers: map<Id, Worker>,
    waiting: seq<Id>,
    sent: seq<Msg>,
    log: seq<Event>,
    ticks: nat,
    heartbeatAt: int,
    dead: bool)

  /** `zlist_remove`: drop the first occurrence, if any. */
  function Remove(ws: seq<Id>, w: Id): seq<Id> {
    if ws == [] then [] else if ws[0] == w then ws[1..] else [ws[0]] + Remove(ws[1..], w)
  }

  function WorkerSend(s: State, w: Id, command: Frame, msg: Msg): State {
    s.(sent := s.sent + [Wrap(w, [MDPW_WORKER, command] + msg)])
  }

  /** `s_service_require`. */
  function ServiceRequire(s: State, name: Name): State {
    if name in s.services then s else s.(services := s.services[name := Service([], [], 0)])
  }

  /** `s_worker_require`; a new worker is bound to no service yet. */
  function WorkerRequire(s: State, w: Id): State {
    if w in s.workers then s else s.(workers := s.workers[w := Worker(None, 0)])
  }

  /** `s_worker_delete`. */
  function WorkerDelete(s: State, w: Id, disconnect: bool): State
    requires w in s.workers
  {
    var s1 := if disconnect then WorkerSend(s, w, DISCONNECT, []) else s;
    var sv := s.workers[w].service;
    var services :=
      if sv.Some? && sv.value in s.services then
        var v := s.services[sv.value];
        s.services[sv.value := v.(waiting := Remove(v.waiting, w), workers := v.workers - 1)]
      else s.services;
    s1.(services := services, waiting := Remove(s.waiting, w), workers := s.workers - {w})
  }

  /** `s_broker_purge`: drop expired workers from the front, up to the first fresh one. */
  function Purge(s: State, clock: nat -> int): State
    decreases |s.waiting|
  {
    if s.waiting == [] then s
    else if s.waiting[0] !in s.workers then s.(dead := true)
    else
      var s1 := s.(ticks := s.ticks + 1);
      if clock(s.ticks) < s.workers[s.waiting[0]].expiry then s1
      else Purge(WorkerDelete(s1, s.waiting[0], false), clock)
  }

  /** One turn of the dispatch loop. */
  function DispatchOne(s: State, name: Name): State
    requires name in s.services && s.services[name].waiting != [] && s.services[name].requests != []
  {
    var v := s.services[name];
    var w, m := v.waiting[0], v.requests[0];
    var s1 := s.(services := s.services[name := v.(waiting := v.waiting[1..], requests := v.requests[1..])],
                 waiting := Remove(s.waiting, w),
                 log := s.log + [Dispatched(name, w, m)]);
    if w in s.workers then WorkerSend(s1, w, REQUEST, m) else s1.(dead := true)
  }

  function DispatchLoop(s: State, name: Name): State
    requires name in s.services
    decreases |s.services[name].requests|
  {
    if s.dead || s.services[name].waiting == [] || s.services[name].requests == [] then s
    else DispatchLoop(DispatchOne(s, name), name)
  }

  function Enqueue(s: State, name: Name, msg: Option<Msg>): State
    requires name in s.services
  {
    if msg.None? then s
    else
      var v := s.services[name];
      s.(services := s.services[name := v.(requests := v.requests + [msg.value])],
         log := s.log + [Accepted(name, msg.value)])
  }

  lemma PurgeKeepsServices(s: State, clock: nat -> int)
    ensures Purge(s, clock).services.Keys == s.services.Keys
    decreases |s.waiting|
  {
    if s.waiting != [] && s.waiting[0] in s.workers && clock(s.ticks) >= s.workers[s.waiting[0]].expiry {
      PurgeKeepsServices(WorkerDelete(s.(ticks := s.ticks + 1), s.waiting[0], false), clock);
    }
  }

  /** `s_service_dispatch`. */
  function Dispatch(s: State, name: Name, msg: Option<Msg>, clock: nat -> int): State
    requires name in s.services
  {
    var s1 := Enqueue(s, name, msg);
    PurgeKeepsServices(s1, clock);
    DispatchLoop(Purge(s1, clock), name)
  }

  /** Worker `w` goes to the back of both waiting lists, with a fresh expiry. */
  function Listed(s: State, w: Id, clock: nat -> int): State
    requires w in s.workers && s.workers[w].service.Some? && s.workers[w].service.value in s.services
  {
    var sv := s.workers[w].service;
    var v := s.services[sv.value];
    s.(waiting := s.waiting + [w],
       services := s.services[sv.value := v.(waiting := v.waiting + [w])],
       workers := s.workers[w := Worker(sv, clock(s.ticks) + HEARTBEAT_EXPIRY)],
       ticks := s.ticks + 1)
  }

  /** `s_worker_waiting`: list the worker, then dispatch. */
  function WorkerWaiting(s: State, w: Id, clock: nat -> int): State
    requires w in s.workers
  {
    var sv := s.workers[w].service;
    if sv.None? || sv.value !in s.services then s.(dead := true)
    else Dispatch(Listed(s, w, clock), sv.value, None, clock)
  }

  /** Bind a new worker to its service. */
  function Bind(s: State, w: Id, name: Name): State
    requires w in s.workers
  {
    var s1 := ServiceRequire(s, name);
    var v := s1.services[name];
    s1.(workers := s1.workers[w := s1.workers[w].(service := Some(name))],
        services := s1.services[name := v.(workers := v.workers + 1)])
  }

  /** Pass a reply on under the worker's service name. */
  function Forward(s: State, w: Id, rest: Msg): State
    requires w in s.workers && s.workers[w].service.Some? && rest != []
  {
    var (client, body) := Unwrap(rest);
    s.(sent := s.sent + [Wrap(client, [MDPC_CLIENT, s.workers[w].service.value] + body)],
       log := s.log + [Answered(client)])
  }

  /** The READY branch; `ready` is whether the sender was registered before. */
  function ReadyMsg(s: State, sender: Id, rest: Msg, ready: bool, clock: nat -> int): State
    requires sender in s.workers
  {
    if ready || StartsMmi(sender) then WorkerDelete(s, sender, true)
    else if rest == [] then s.(dead := true)
    else WorkerWaiting(Bind(s, sender, CString(rest[0])), sender, clock)
  }

  /** The REPLY branch. */
  function ReplyMsg(s: State, sender: Id, rest: Msg, ready: bool, clock: nat -> int): State
    requires sender in s.workers
  {
    if !ready then WorkerDelete(s, sender, true)
    else if rest == [] || s.workers[sender].service.None? then s.(dead := true)
    else WorkerWaiting(Forward(s, sender, rest), sender, clock)
  }

  /** `s_broker_worker_msg`. */
  function WorkerMsg(s: State, sender: Id, msg: Msg, clock: nat -> int): State {
    if msg == [] then s.(dead := true)
    else
      var command, rest := msg[0], msg[1..];
      var ready := sender in s.workers;
      var s1 := WorkerRequire(s, sender);
      if command == READY then ReadyMsg(s1, sender, rest, ready, clock)
      else if command == REPLY then ReplyMsg(s1, sender, rest, ready, clock)
      else if command == HEARTBEAT then
        if !ready then WorkerDelete(s1, sender, true)
        else s1.(workers := s1.workers[sender := s1.workers[sender].(expiry := clock(s.ticks) + HEARTBEAT_EXPIRY)],
                 ticks := s.ticks + 1)
      else if command == DISCONNECT then WorkerDelete(s1, sender, false)
      else s1
  }

  /** The answer of the management interface to a request for `service` whose last frame is `arg`. */
  function MmiCode(s: State, service: Frame, arg: Frame): Frame {
    if service != "mmi.service" then "501"
    else if CString(arg) in s.services && s.services[CString(arg)].workers != 0 then "200" else "404"
  }

  /** `s_broker_client_msg`. */
  function ClientMsg(s: State, sender: Id, msg: Msg, clock: nat -> int): State {
    if |msg| < 2 then s.(dead := true)
    else
      var service, body := msg[0], msg[1..];
      var s1 := ServiceRequire(s, CString(service));
      if StartsMmi(service) then
        var code := MmiCode(s1, service, body[|body| - 1]);
        s1.(sent := s1.sent + [Wrap(sender, [MDPC_CLIENT, service] + body[..|body| - 1] + [code])],
            log := s1.log + [Answered(sender)])
      else
        Dispatch(s1, CString(service), Some(Wrap(sender, body)), clock)
  }

  /** The receive half of the main loop. */
  function Receive(s: State, msg: Msg, clock: nat -> int): State {
    if |msg| < 3 then s.(dead := true)
    else if msg[2] == MDPC_CLIENT then ClientMsg(s, msg[0], msg[3..], clock)
    else if msg[2] == MDPW_WORKER then WorkerMsg(s, msg[0], msg[3..], clock)
    else s
  }

  function HeartbeatAll(s: State, ws: seq<Id>): State
    decreases ws
  {
    if ws == [] then s else HeartbeatAll(WorkerSend(s, ws[0], HEARTBEAT, []), ws[1..])
  }

  /** The timer half of the main loop. */
  function Timer(s: State, clock: nat -> int): State {
    var s1 := s.(ticks := s.ticks + 1);
    if clock(s.ticks) <= s.heartbeatAt then s1
    else
      var s2 := Purge(s1, clock);
      if s2.dead then s2
      else
        var s3 := HeartbeatAll(s2, s2.waiting);
        s3.(heartbeatAt := clock(s3.ticks) + HEARTBEAT_INTERVAL, ticks := s3.ticks + 1)
  }

  /** One turn of the main loop; the poll may time out without a message. */
  function Turn(s: State, msg: Option<Msg>, clock: nat -> int): State {
    var s1 := if msg.None? then s else Receive(s, msg.value, clock);
    if s1.dead then s1 else Timer(s1, clock)
  }

  /** `s_broker_new`. */
  function Init(clock: nat -> int): State {
    State(map[], map[], [], [], [], 1, clock(0) + HEARTBEAT_INTERVAL, false)
  }
}
