/** The broker as an object updated in place, each handler proved against its function for every
    message, also those the code cannot take. */
module MdpBrokerObject {
  import opened Frames
  import opened MdpBroker
  import opened MdpEffects
  import opened MdpInvariants
  import opened Options

  class Broker {
    const clock: nat -> int
    var services: map<Name, Service>
    var workers: map<Id, Worker>
    var waiting: seq<Id>
    var sent: seq<Msg>
    var ticks: nat
    var heartbeatAt: int
    var dead: bool
    ghost var log: seq<Event>

    ghost function Abs(): State
      reads this
    {
      State(services, workers, waiting, sent, log, ticks, heartbeatAt, dead)
    }

    constructor (clock: nat -> int)
      ensures this.clock == clock && Abs() == Init(clock) && heartbeatAt == clock(0) + 2500 && ticks == 1
      ensures services == map[] && workers == map[] && waiting == [] && sent == [] && !dead
    {
      this.clock := clock;
      services, workers, waiting, sent, log := map[], map[], [], [], [];
      ticks, heartbeatAt, dead := 1, clock(0) + HEARTBEAT_INTERVAL, false;
    }

    method Time() returns (now: int)
      modifies this`ticks
      ensures now == clock(old(ticks)) && ticks == old(ticks) + 1
    {
      now := clock(ticks);
      ticks := ticks + 1;
    }

    method Send(w: Id, command: Frame, msg: Msg)
      modifies this`sent
      ensures Abs() == WorkerSend(old(Abs()), w, command, msg)
    {
      sent := sent + [Wrap(w, [MDPW_WORKER, command] + msg)];
    }

    method RequireService(name: Name)
      modifies this`services
      ensures Abs() == ServiceRequire(old(Abs()), name)
    {
      if name !in services {
        services := services[name := Service([], [], 0)];
      }
    }

    /** `s_worker_delete`. */
    method Delete(w: Id, disconnect: bool)
      requires w in workers
      modifies this
      ensures Abs() == WorkerDelete(old(Abs()), w, disconnect)
    {
      if disconnect {
        Send(w, DISCONNECT, []);
      }
      var sv := workers[w].service;
      if sv.Some? && sv.value in services {
        var v := services[sv.value];
        services := services[sv.value := v.(waiting := Remove(v.waiting, w), workers := v.workers - 1)];
      }
      waiting := Remove(waiting, w);
      workers := workers - {w};
    }

    /** `s_broker_purge`: its loop ends because every turn shortens the waiting list. */
    method PurgeExpired()
      modifies this
      ensures Abs() == Purge(old(Abs()), clock)
    {
      while waiting != []
        invariant Purge(Abs(), clock) == Purge(old(Abs()), clock)
        decreases |waiting|
      {
        var w := waiting[0];
        if w !in workers {
          dead := true;
          return;
        }
        var now := Time();
        if now < workers[w].expiry { break; }
        Delete(w, false);
      }
    }

    /** `s_service_dispatch`: its loop ends because every turn takes a request. */
    method Dispatch(name: Name, msg: Option<Msg>)
      requires name in services
      modifies this
      ensures Abs() == MdpBroker.Dispatch(old(Abs()), name, msg, clock)
    {
      if msg.Some? {
        var v := services[name];
        services := services[name := v.(requests := v.requests + [msg.value])];
        log := log + [Accepted(name, msg.value)];
      }
      PurgeKeepsServices(Abs(), clock);
      PurgeExpired();
      ghost var s := Abs();
      while !dead && services[name].waiting != [] && services[name].requests != []
        invariant name in services
        invariant DispatchLoop(Abs(), name) == DispatchLoop(s, name)
        decreases |services[name].requests|
      {
        DispatchHead(name);
      }
    }

    method DispatchHead(name: Name)
      requires name in services && services[name].waiting != [] && services[name].requests != []
      modifies this
      ensures Abs() == DispatchOne(old(Abs()), name)
    {
      var v := services[name];
      var w, m := v.waiting[0], v.requests[0];
      services := services[name := v.(waiting := v.waiting[1..], requests := v.requests[1..])];
      waiting := Remove(waiting, w);
      log := log + [Dispatched(name, w, m)];
      if w in workers {
        Send(w, REQUEST, m);
      } else {
        dead := true;
      }
    }

    /** `s_worker_waiting`. */
    method Waiting(w: Id)
      requires w in workers
      modifies this
      ensures Abs() == WorkerWaiting(old(Abs()), w, clock)
    {
      var sv := workers[w].service;
      if sv.None? || sv.value !in services {
        dead := true;
        return;
      }
      ghost var s := Abs();
      var v := services[sv.value];
      waiting := waiting + [w];
      services := services[sv.value := v.(waiting := v.waiting + [w])];
      var now := Time();
      workers := workers[w := Worker(sv, now + HEARTBEAT_EXPIRY)];
      assert Abs() == Listed(s, w, clock);
      Dispatch(sv.value, None);
    }

    method RequireWorker(w: Id)
      modifies this`workers
      ensures Abs() == WorkerRequire(old(Abs()), w)
    {
      if w !in workers {
        workers := workers[w := Worker(None, 0)];
      }
    }

    method BindTo(w: Id, name: Name)
      requires w in workers
      modifies this
      ensures Abs() == Bind(old(Abs()), w, name)
    {
      RequireService(name);
      var v := services[name];
      workers := workers[w := workers[w].(service := Some(name))];
      services := services[name := v.(workers := v.workers + 1)];
    }

    /** The READY branch. */
    method OnReady(sender: Id, rest: Msg, ready: bool)
      requires sender in workers
      modifies this
      ensures Abs() == ReadyMsg(old(Abs()), sender, rest, ready, clock)
    {
      if ready || StartsMmi(sender) {
        Delete(sender, true);
      } else if rest == [] {
        dead := true;
      } else {
        BindTo(sender, CString(rest[0]));
        Waiting(sender);
      }
    }

    /** The REPLY branch. */
    method OnReply(sender: Id, rest: Msg, ready: bool)
      requires sender in workers
      modifies this
      ensures Abs() == ReplyMsg(old(Abs()), sender, rest, ready, clock)
    {
      if !ready {
        Delete(sender, true);
      } else if rest == [] || workers[sender].service.None? {
        dead := true;
      } else {
        var (client, body) := Unwrap(rest);
        sent := sent + [Wrap(client, [MDPC_CLIENT, workers[sender].service.value] + body)];
        log := log + [Answered(client)];
        Waiting(sender);
      }
    }

    /** `s_broker_worker_msg`. */
    method OnWorker(sender: Id, msg: Msg)
      modifies this
      ensures Abs() == WorkerMsg(old(Abs()), sender, msg, clock)
    {
      if msg == [] {
        dead := true;
        return;
      }
      var command, rest := msg[0], msg[1..];
      var ready := sender in workers;
      RequireWorker(sender);
      if command == READY {
        OnReady(sender, rest, ready);
      } else if command == REPLY {
        OnReply(sender, rest, ready);
      } else if command == HEARTBEAT {
        if ready {
          var now := Time();
          workers := workers[sender := workers[sender].(expiry := now + HEARTBEAT_EXPIRY)];
        } else {
          Delete(sender, true);
        }
      } else if command == DISCONNECT {
        Delete(sender, false);
      }
    }

    /** `s_broker_client_msg`. */
    method OnClient(sender: Id, msg: Msg)
      modifies this
      ensures Abs() == ClientMsg(old(Abs()), sender, msg, clock)
      ensures Sound(old(Abs())) && |msg| >= 2 && StartsMmi(msg[0]) ==>
        var last := |msg| - 1;
        sent == old(sent) + [[sender, "", MDPC_CLIENT] + msg[..last] + [Truth(old(Abs()), msg[0], msg[last])]]
    {
      if Sound(Abs()) && |msg| >= 2 && StartsMmi(msg[0]) { MmiAnswer(Abs(), sender, msg, clock); }
      if |msg| < 2 {
        dead := true;
        return;
      }
      var service, body := msg[0], msg[1..];
      RequireService(CString(service));
      if StartsMmi(service) {
        var arg := body[|body| - 1];
        var code := "501";
        if service == "mmi.service" {
          code := if CString(arg) in services && services[CString(arg)].workers != 0 then "200" else "404";
        }
        sent := sent + [Wrap(sender, [MDPC_CLIENT, service] + body[..|body| - 1] + [code])];
        log := log + [Answered(sender)];
      } else {
        Dispatch(CString(service), Some(Wrap(sender, body)));
      }
    }

    /** One turn of the main loop. It takes every message, and keeps the invariant exactly on those
        that are compliant. */
    method Turn(msg: Option<Msg>)
      modifies this
      ensures Abs() == MdpBroker.Turn(old(Abs()), msg, clock)
      ensures Inv(old(Abs())) ==> (Inv(Abs()) <==> (msg.Some? ==> Compliant(old(Abs()), msg.value)))
    {
      if Inv(Abs()) {
        if msg.Some? { InvIffCompliant(Abs(), msg.value, clock); } else { TurnKeepsInv(Abs(), None, clock); }
      }
      if msg.Some? {
        var m := msg.value;
        if |m| < 3 {
          dead := true;
        } else if m[2] == MDPC_CLIENT {
          OnClient(m[0], m[3..]);
        } else if m[2] == MDPW_WORKER {
          OnWorker(m[0], m[3..]);
        }
      }
      if !dead { Beat(); }
    }

    /** One heartbeat to every waiting worker, in list order. */
    method HeartbeatWaiting()
      modifies this`sent
      ensures Abs() == HeartbeatAll(old(Abs()), waiting) && BeatEach(old(sent), sent, waiting)
    {
      HeartbeatAllBeats(Abs(), waiting);
      var i := 0;
      while i < |waiting|
        invariant 0 <= i <= |waiting|
        invariant HeartbeatAll(Abs(), waiting[i..]) == HeartbeatAll(old(Abs()), waiting)
      {
        Send(waiting[i], HEARTBEAT, []);
        assert waiting[i..][1..] == waiting[i + 1..];
        i := i + 1;
      }
    }

    /** The timer half of the main loop. */
    method Beat()
      modifies this
      ensures Abs() == Timer(old(Abs()), clock)
      ensures clock(old(ticks)) > old(heartbeatAt) && !dead ==> BeatEach(old(sent), sent, waiting)
      ensures clock(old(ticks)) <= old(heartbeatAt) ==> sent == old(sent) && waiting == old(waiting)
    {
      TimerSends(Abs(), clock);
      var now := Time();
      if now > heartbeatAt {
        PurgeExpired();
        if dead { return; }
        HeartbeatWaiting();
        now := Time();
        heartbeatAt := now + HEARTBEAT_INTERVAL;
      }
    }
  }
}
