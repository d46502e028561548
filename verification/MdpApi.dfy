/** The worker and client sides of the protocol: as functions on values, and as the objects the
    programs use, proved to compute them. */
module MdpApi {
  import opened Frames
  import opened Options
  import opened ClientCalls

  const HEARTBEAT_LIVENESS := 3

  /** One poll of the socket, and the clock read after it. */
  datatype Poll = Failed | Silent(now: int) | Got(msg: Msg, now: int)

  /** Frames sent, with the connection they were sent on. */
  datatype Out = Out(conn: nat, msg: Msg)

  // ------------------------------------------------------------------------- the worker

  datatype WorkerSide = WorkerSide(
    service: Frame,
    heartbeat: int,
    conn: nat,
    sent: seq<Out>,
    liveness: int,
    heartbeatAt: int,
    expectReply: bool,
    replyTo: Option<Frame>)

  /** A broker message the assertions of `mdwrk_recv` let through. */
  predicate FromBroker(m: Msg) {
    |m| >= 3 && m[0] == "" && m[1] == MDPW_WORKER && (m[2] == REQUEST ==> |m| > 3)
  }

  /** `s_mdwrk_send_to_broker`. */
  function Said(v: WorkerSide, command: Frame, msg: Msg): WorkerSide {
    v.(sent := v.sent + [Out(v.conn, ["", MDPW_WORKER, command] + msg)])
  }

  /** `s_mdwrk_connect_to_broker`: a new socket, whose first message is READY. */
  function Connected(v: WorkerSide, now: int): WorkerSide {
    Said(v.(conn := v.conn + 1), READY, [v.service]).(liveness := HEARTBEAT_LIVENESS, heartbeatAt := now + v.heartbeat)
  }

  /** `mdwrk_new`. */
  function Started(service: Frame, heartbeat: int, now: int): WorkerSide {
    WorkerSide(service, heartbeat, 0, [Out(0, ["", MDPW_WORKER, READY, service])],
               HEARTBEAT_LIVENESS, now + heartbeat, false, None)
  }

  /** What a message does to the worker. */
  function Took(v: WorkerSide, msg: Msg, now: int): WorkerSide
    requires FromBroker(msg)
  {
    var v1 := v.(liveness := HEARTBEAT_LIVENESS);
    if msg[2] == REQUEST then v1.(replyTo := Some(Unwrap(msg[3..]).0))
    else if msg[2] == DISCONNECT then Connected(v1, now)
    else v1
  }

  /** A poll that brought nothing: after the third in a row, reconnect. */
  function Missed(v: WorkerSide, now: int): WorkerSide {
    if v.liveness == 1 then Connected(v, now) else v.(liveness := v.liveness - 1)
  }

  /** A heartbeat, if one is due. */
  function Pulsed(v: WorkerSide, now: int): WorkerSide {
    if now > v.heartbeatAt then Said(v, HEARTBEAT, []).(heartbeatAt := now + v.heartbeat) else v
  }

  /** How a turn of the loop of `mdwrk_recv`, or the whole of it, ends. */
  datatype Recvd =
    | Request(v: WorkerSide, body: Msg)
    | Looping(v: WorkerSide)
    | Aborted(v: WorkerSide)

  /** One turn of the loop. */
  function Turned(v: WorkerSide, p: Poll): Recvd {
    match p
    case Failed => Looping(v)
    case Silent(now) => Looping(Pulsed(Missed(v, now), now))
    case Got(msg, now) =>
      if !FromBroker(msg) then Aborted(v)
      else if msg[2] == REQUEST then Recvd.Request(Took(v, msg, now), Unwrap(msg[3..]).1)
      else Looping(Pulsed(Took(v, msg, now), now))
  }

  function Looped(v: WorkerSide, polls: seq<Poll>): Recvd
    decreases |polls|
  {
    if polls == [] || polls[0].Failed? then Looping(v)
    else
      var r := Turned(v, polls[0]);
      if r.Looping? then Looped(r.v, polls[1..]) else r
  }

  /** The part of `mdwrk_recv` before its loop. There is no address to reply to when none was given, nor
      once it has been given away with a reply. */
  function Begun(v: WorkerSide, reply: Option<Msg>): Recvd {
    if (reply.None? && v.expectReply) || (reply.Some? && v.replyTo.None?) then Aborted(v)
    else if reply.Some? then
      Looping(Said(v, REPLY, Wrap(v.replyTo.value, reply.value)).(replyTo := None, expectReply := true))
    else Looping(v.(expectReply := true))
  }

  /** `mdwrk_recv`. */
  function Received(v: WorkerSide, reply: Option<Msg>, polls: seq<Poll>): Recvd {
    var b := Begun(v, reply);
    if b.Looping? then Looped(b.v, polls) else b
  }

  predicate IsReady(o: Out) {
    |o.msg| >= 3 && o.msg[..3] == ["", MDPW_WORKER, READY]
  }

  /** Connections follow one another, and READY is the first message on each and sent only once. */
  ghost predicate OneReadyEach(v: WorkerSide) {
    && v.sent != [] && v.sent[|v.sent| - 1].conn == v.conn && IsReady(v.sent[0])
    && forall i :: 0 < i < |v.sent| ==> v.sent[i].conn == v.sent[i - 1].conn + if IsReady(v.sent[i]) then 1 else 0
  }

  /** Between its calls and within them. */
  ghost predicate WorkerInv(v: WorkerSide) {
    OneReadyEach(v) && 0 < v.liveness <= HEARTBEAT_LIVENESS
  }

  lemma OneReadyGrows(v: WorkerSide, o: Out)
    requires OneReadyEach(v) && o.conn == v.conn + if IsReady(o) then 1 else 0
    ensures OneReadyEach(v.(conn := o.conn, sent := v.sent + [o]))
  {
    var t := v.sent + [o];
    forall i | 0 < i < |t| ensures t[i].conn == t[i - 1].conn + if IsReady(t[i]) then 1 else 0 {
      if i < |v.sent| { assert t[i] == v.sent[i] && t[i - 1] == v.sent[i - 1]; }
    }
  }

  lemma SaidReady(v: WorkerSide, command: Frame, msg: Msg)
    requires OneReadyEach(v) && command != READY
    ensures OneReadyEach(Said(v, command, msg))
  {
    var o := Out(v.conn, ["", MDPW_WORKER, command] + msg);
    assert o.msg[..3] == ["", MDPW_WORKER, command] && o.msg[..3][2] != READY;
    OneReadyGrows(v, o);
  }

  lemma ConnectedInv(v: WorkerSide, now: int)
    requires OneReadyEach(v)
    ensures WorkerInv(Connected(v, now)) && Connected(v, now).conn == v.conn + 1
  {
    var o := Out(v.conn + 1, ["", MDPW_WORKER, READY] + [v.service]);
    assert o.msg[..3] == ["", MDPW_WORKER, READY];
    OneReadyGrows(v, o);
  }

  lemma PulsedInv(v: WorkerSide, now: int)
    requires WorkerInv(v)
    ensures var t := Pulsed(v, now); WorkerInv(t) && t.conn == v.conn && v.sent <= t.sent
  {
    SaidReady(v, HEARTBEAT, []);
  }

  lemma MissedInv(v: WorkerSide, now: int)
    requires WorkerInv(v)
    ensures var t := Missed(v, now);
      WorkerInv(t) && v.sent <= t.sent && t.conn == v.conn + if v.liveness == 1 then 1 else 0
  {
    ConnectedInv(v, now);
  }

  lemma TookInv(v: WorkerSide, msg: Msg, now: int)
    requires WorkerInv(v) && FromBroker(msg)
    ensures var t := Took(v, msg, now);
      WorkerInv(t) && v.sent <= t.sent && t.conn == v.conn + if msg[2] == DISCONNECT then 1 else 0
  {
    ConnectedInv(v.(liveness := HEARTBEAT_LIVENESS), now);
    assert REQUEST != DISCONNECT by { assert REQUEST[0] != DISCONNECT[0]; }
  }

  /** The poll makes the worker reconnect. */
  predicate Reconnects(v: WorkerSide, p: Poll) {
    (p.Silent? && v.liveness == 1) || (p.Got? && FromBroker(p.msg) && p.msg[2] == DISCONNECT)
  }

  /** A turn of the loop keeps one READY per connection; the third silent poll in a row, or a
      disconnect, and nothing else, opens a new connection. */
  lemma TurnedInv(v: WorkerSide, p: Poll)
    requires WorkerInv(v)
    ensures var t := Turned(v, p).v;
      WorkerInv(t) && v.sent <= t.sent && t.conn == v.conn + if Reconnects(v, p) then 1 else 0
  {
    match p
    case Failed =>
    case Silent(now) =>
      MissedInv(v, now);
      PulsedInv(Missed(v, now), now);
    case Got(msg, now) =>
      if FromBroker(msg) {
        TookInv(v, msg, now);
        PulsedInv(Took(v, msg, now), now);
        assert REQUEST != DISCONNECT by { assert REQUEST[0] != DISCONNECT[0]; }
      }
  }

  lemma {:induction false} LoopedInv(v: WorkerSide, polls: seq<Poll>)
    requires WorkerInv(v)
    ensures WorkerInv(Looped(v, polls).v) && v.sent <= Looped(v, polls).v.sent
    decreases |polls|
  {
    if polls != [] && !polls[0].Failed? {
      TurnedInv(v, polls[0]);
      LoopedInv(Turned(v, polls[0]).v, polls[1..]);
    }
  }

  /** The poll that brought the request: the loop had come to `b` by then, and the connection in use has
      not changed since. */
  lemma {:induction false} ArrivedOn(v: WorkerSide, polls: seq<Poll>) returns (k: nat, b: WorkerSide)
    requires Looped(v, polls).Request?
    ensures k < |polls| && Looped(v, polls[..k]) == Looping(b) && Turned(b, polls[k]) == Looped(v, polls)
    ensures polls[k].Got? && polls[k].msg[2] == REQUEST && Looped(v, polls).v.conn == b.conn
    decreases |polls|
  {
    var r := Turned(v, polls[0]);
    if r.Looping? {
      k, b := ArrivedOn(r.v, polls[1..]);
      k := k + 1;
      assert polls[..k][0] == polls[0] && polls[..k][1..] == polls[1..][..k - 1];
    } else {
      k, b := 0, v;
      assert polls[..0] == [];
    }
  }

  /** Whatever happens, `mdwrk_recv` keeps one READY per connection. A reply that is owed goes out first,
      to its client, on the connection in use. */
  lemma ReceivedInv(v: WorkerSide, reply: Option<Msg>, polls: seq<Poll>)
    requires WorkerInv(v)
    ensures var r := Received(v, reply, polls);
      && WorkerInv(r.v) && v.sent <= r.v.sent
      && (reply.Some? && v.replyTo.Some? ==>
            && |r.v.sent| > |v.sent|
            && r.v.sent[|v.sent|] == Out(v.conn, ["", MDPW_WORKER, REPLY] + Wrap(v.replyTo.value, reply.value)))
  {
    if reply.Some? && v.replyTo.Some? { SaidReady(v, REPLY, Wrap(v.replyTo.value, reply.value)); }
    var b := Begun(v, reply);
    if b.Looping? { LoopedInv(b.v, polls); }
  }

  /** So a reply goes back on the connection its request came on, to the client that sent it: no turn of
      the loop comes between a request and the next call. */
  lemma AnswerGoesBack(v: WorkerSide, first: Option<Msg>, polls: seq<Poll>, reply: Msg, more: seq<Poll>)
      returns (k: nat, b: WorkerSide)
    requires WorkerInv(v) && Received(v, first, polls).Request?
    ensures var r := Received(v, first, polls); var t := Received(r.v, Some(reply), more);
      && k < |polls| && polls[k].Got? && FromBroker(polls[k].msg) && Received(v, first, polls[..k]) == Looping(b)
      && r == Turned(b, polls[k]) && |t.v.sent| > |r.v.sent|
      && t.v.sent[|r.v.sent|] ==
         Out(b.conn, ["", MDPW_WORKER, REPLY] + Wrap(Unwrap(polls[k].msg[3..]).0, reply))
  {
    var r := Received(v, first, polls);
    k, b := ArrivedOn(Begun(v, first).v, polls);
    ReceivedInv(v, first, polls);
    ReceivedInv(r.v, Some(reply), more);
  }

  /** What one turn sends, frame by frame: READY on the next connection if the worker reconnects; then a
      heartbeat, on the connection then in use, if the time for it is over; a request sends nothing. */
  lemma TurnSends(v: WorkerSide, p: Poll)
    requires !p.Failed? && v.heartbeat >= 0
    ensures var t, anew := Turned(v, p).v, Reconnects(v, p);
      var asked := p.Got? && (!FromBroker(p.msg) || p.msg[2] == REQUEST);
      && t.sent == v.sent
         + (if anew then [Out(v.conn + 1, ["", MDPW_WORKER, READY, v.service])] else [])
         + (if !asked && !anew && p.now > v.heartbeatAt then [Out(v.conn, ["", MDPW_WORKER, HEARTBEAT])] else [])
      && t.heartbeatAt == if anew || (!asked && p.now > v.heartbeatAt) then p.now + v.heartbeat else v.heartbeatAt
  {
    assert ["", MDPW_WORKER, READY] + [v.service] == ["", MDPW_WORKER, READY, v.service];
    assert ["", MDPW_WORKER, HEARTBEAT] + [] == ["", MDPW_WORKER, HEARTBEAT];
    assert REQUEST != DISCONNECT by { assert REQUEST[0] != DISCONNECT[0]; }
  }

  /** Silence, over any number of polls: each third one in a row, counting those since the last message,
      opens the next connection, and no other does. */
  lemma {:induction false} SilenceReconnects(v: WorkerSide, polls: seq<Poll>)
    requires WorkerInv(v) && forall i :: 0 <= i < |polls| ==> polls[i].Silent?
    ensures var t, missed := Looped(v, polls).v, 3 - v.liveness + |polls|;
      t.conn == v.conn + missed / 3 && t.liveness == 3 - missed % 3
    decreases |polls|
  {
    if polls != [] {
      TurnedInv(v, polls[0]);
      SilenceReconnects(Turned(v, polls[0]).v, polls[1..]);
    }
  }

  /** A message of any kind starts the count anew. */
  lemma MessageRevives(v: WorkerSide, msg: Msg, now: int)
    requires FromBroker(msg)
    ensures Turned(v, Got(msg, now)).v.liveness == 3
  {
  }

  class MdWorker {
    const service: Frame
    const heartbeat: int
    var conn: nat
    var sent: seq<Out>
    var liveness: int
    var heartbeatAt: int
    var expectReply: bool
    var replyTo: Option<Frame>

    function Abs(): WorkerSide
      reads this
    {
      WorkerSide(service, heartbeat, conn, sent, liveness, heartbeatAt, expectReply, replyTo)
    }

    constructor (service: Frame, heartbeat: int, now: int)
      ensures Abs() == Started(service, heartbeat, now) && WorkerInv(Abs())
    {
      this.service, this.heartbeat := service, heartbeat;
      conn, sent := 0, [Out(0, ["", MDPW_WORKER, READY, service])];
      liveness, heartbeatAt, expectReply, replyTo := HEARTBEAT_LIVENESS, now + heartbeat, false, None;
    }

    method SendToBroker(command: Frame, msg: Msg)
      modifies this`sent
      ensures Abs() == Said(old(Abs()), command, msg)
    {
      sent := sent + [Out(conn, ["", MDPW_WORKER, command] + msg)];
    }

    method Connect(now: int)
      modifies this
      ensures Abs() == Connected(old(Abs()), now)
    {
      conn := conn + 1;
      SendToBroker(READY, [service]);
      liveness := HEARTBEAT_LIVENESS;
      heartbeatAt := now + heartbeat;
    }

    /** A message that passes the assertions; `true` when it is a request. */
    method Take(msg: Msg, now: int) returns (done: bool, body: Msg)
      requires FromBroker(msg)
      modifies this
      ensures Abs() == Took(old(Abs()), msg, now)
      ensures done == (msg[2] == REQUEST) && body == if done then Unwrap(msg[3..]).1 else []
    {
      done, body := false, [];
      liveness := HEARTBEAT_LIVENESS;
      if msg[2] == REQUEST {
        var (client, rest) := Unwrap(msg[3..]);
        replyTo, body, done := Some(client), rest, true;
      } else if msg[2] == DISCONNECT {
        Connect(now);
      }
    }

    method Miss(now: int)
      modifies this
      ensures Abs() == Missed(old(Abs()), now)
    {
      liveness := liveness - 1;
      if liveness == 0 { Connect(now); }
    }

    method Pulse(now: int)
      modifies this
      ensures Abs() == Pulsed(old(Abs()), now)
    {
      if now > heartbeatAt {
        SendToBroker(HEARTBEAT, []);
        heartbeatAt := now + heartbeat;
      }
    }

    /** `mdwrk_recv`. `aborted` is a failed assertion. */
    method Recv(reply: Option<Msg>, polls: seq<Poll>) returns (request: Option<Msg>, aborted: bool)
      modifies this
      ensures var r := Received(old(Abs()), reply, polls);
        && Abs() == r.v && (aborted <==> r.Aborted?)
        && request == if r.Request? then Some(r.body) else None
    {
      request, aborted := None, false;
      if (reply.None? && expectReply) || (reply.Some? && replyTo.None?) {
        aborted := true;
        return;
      }
      if reply.Some? {
        SendToBroker(REPLY, Wrap(replyTo.value, reply.value));
        replyTo := None;
      }
      expectReply := true;
      ghost var v := Abs();
      var i := 0;
      while i < |polls| && !polls[i].Failed?
        invariant 0 <= i <= |polls| && Looped(Abs(), polls[i..]) == Looped(v, polls)
      {
        var p := polls[i];
        assert polls[i..][1..] == polls[i + 1..];
        if p.Got? {
          if !FromBroker(p.msg) {
            aborted := true;
            return;
          }
          var done, body := Take(p.msg, p.now);
          if done {
            request := Some(body);
            return;
          }
        } else {
          Miss(p.now);
        }
        Pulse(p.now);
        i := i + 1;
      }
    }
  }

  // ------------------------------------------------------------------------- the client

  /** `awaiting` is whether the request socket waits for a reply; it refuses to send until then. */
  datatype ClientSide = ClientSide(retries: nat, conn: nat, sent: seq<Out>, awaiting: bool)

  /** A reply the assertions of `mdcli_send` let through. */
  predicate FromService(m: Msg, service: Frame) {
    |m| >= 3 && m[0] == MDPC_CLIENT && m[1] == service
  }

  /** One try: the request goes out if the socket takes it. */
  function Tried(v: ClientSide, r: ClientCalls.Request): ClientSide {
    if v.awaiting then v
    else v.(sent := v.sent + [Out(v.conn, [MDPC_CLIENT, r.service] + r.body)], awaiting := true)
  }

  /** `s_mdcli_connect_to_broker`. */
  function Redialed(v: ClientSide): ClientSide {
    v.(conn := v.conn + 1, awaiting := false)
  }

  /** How a try, or the whole call, ends; after `Again` the loop goes round. */
  datatype Sent =
    | Answer(v: ClientSide, reply: Msg)
    | Null(v: ClientSide)
    | Again(v: ClientSide)
    | Crash(v: ClientSide)

  /** The poll after a try, with `left` tries to go, this one included. */
  function Polled(v: ClientSide, r: ClientCalls.Request, left: nat, p: Poll): Sent {
    match p
    case Failed => Null(v)
    case Silent(_) => if left > 1 then Again(Redialed(v)) else Null(v)
    case Got(msg, _) => if FromService(msg, r.service) then Answer(v.(awaiting := false), msg[2..]) else Crash(v)
  }

  /** The loop of `mdcli_send`; an interrupt ends the list of polls. */
  function Retried(v: ClientSide, r: ClientCalls.Request, left: nat, polls: seq<Poll>): Sent
    decreases left
  {
    if left == 0 || polls == [] then Null(v)
    else
      var s := Polled(Tried(v, r), r, left, polls[0]);
      if s.Again? then Retried(s.v, r, left - 1, polls[1..]) else s
  }

  /** The same message on `k` connections in a row. */
  ghost function Copies(conn: nat, k: nat, m: Msg): (s: seq<Out>)
    ensures |s| == k
    decreases k
  {
    if k == 0 then [] else [Out(conn, m)] + Copies(conn + 1, k - 1, m)
  }

  /** At most `left` copies go out, each on a connection of its own; the first is refused if the socket
      still waits for a reply. Where the call ends in a reply the socket is free again; where it gives up
      after trying, it is not. */
  lemma {:induction false} RetriedCopies(v: ClientSide, r: ClientCalls.Request, left: nat, polls: seq<Poll>)
      returns (k: nat)
    ensures var s := Retried(v, r, left, polls); var m := [MDPC_CLIENT, r.service] + r.body;
      && k <= left && s.v.retries == v.retries
      && s.v.sent == v.sent + Copies(if v.awaiting then v.conn + 1 else v.conn, k, m)
      && !s.Again? && (s.Answer? ==> !s.v.awaiting && left > 0)
    decreases left
  {
    k := 0;
    if left > 0 && polls != [] {
      var v1 := Tried(v, r);
      var s := Polled(v1, r, left, polls[0]);
      if s.Again? {
        k := RetriedCopies(s.v, r, left - 1, polls[1..]);
      }
      if !v.awaiting { k := k + 1; }
    }
  }

  function Min(a: int, b: int): int {
    if a < b then a else b
  }

  /** The first `quiet` polls are silent, and the next, if any, is not. */
  ghost predicate Quiet(polls: seq<Poll>, quiet: nat) {
    && quiet <= |polls| && (quiet < |polls| ==> !polls[quiet].Silent?)
    && forall i :: 0 <= i < quiet ==> polls[i].Silent?
  }

  /** How a call ends, by its polls alone: every silent poll but the last one allowed opens a connection, and
      the message that broke the silence in time is the reply, or fails an assertion. */
  lemma {:induction false} SendEnds(v: ClientSide, r: ClientCalls.Request, left: nat, polls: seq<Poll>, quiet: nat)
    requires Quiet(polls, quiet)
    ensures var s := Retried(v, r, left, polls);
      && s.v.conn == v.conn + (if left == 0 then 0 else Min(quiet, left - 1))
      && (if quiet < left && quiet < |polls| && polls[quiet].Got? then
            var m := polls[quiet].msg;
            if FromService(m, r.service) then s.Answer? && s.reply == m[2..] && !s.v.awaiting else s.Crash?
          else (s.Null? && s.v.awaiting ==
                  if left == 0 || polls == [] then v.awaiting else quiet < |polls| || left <= quiet))
    decreases left
  {
    if left > 1 && quiet > 0 { SendEnds(Redialed(Tried(v, r)), r, left - 1, polls[1..], quiet - 1); }
  }

  lemma CopiesFirst(sent: seq<Out>, conn: nat, k: nat, m: Msg)
    ensures sent + [Out(conn, m)] + Copies(conn + 1, k, m) == sent + Copies(conn, k + 1, m)
  {
  }

  /** What it sends from a free socket: a copy for each poll up to the one that broke the silence and up to
      `left`, each on the next connection. */
  lemma {:induction false} FreeCopies(v: ClientSide, r: ClientCalls.Request, left: nat, polls: seq<Poll>, quiet: nat)
    requires Quiet(polls, quiet) && !v.awaiting
    ensures Retried(v, r, left, polls).v.sent ==
            v.sent + Copies(v.conn, Min(left, Min(quiet + 1, |polls|)), [MDPC_CLIENT, r.service] + r.body)
    decreases left
  {
    var m, t := [MDPC_CLIENT, r.service] + r.body, Min(left, Min(quiet + 1, |polls|));
    if t > 0 {
      CopiesFirst(v.sent, v.conn, t - 1, m);
      if left > 1 && quiet > 0 {
        FreeCopies(Redialed(Tried(v, r)), r, left - 1, polls[1..], quiet - 1);
      }
    }
  }

  /** The same from any socket: one that still waits for a reply refuses the first copy. */
  lemma SendCopies(v: ClientSide, r: ClientCalls.Request, left: nat, polls: seq<Poll>, quiet: nat)
    requires Quiet(polls, quiet)
    ensures var tries, m := Min(left, Min(quiet + 1, |polls|)), [MDPC_CLIENT, r.service] + r.body;
      Retried(v, r, left, polls).v.sent == v.sent
        + if v.awaiting && tries > 0 then Copies(v.conn + 1, tries - 1, m) else Copies(v.conn, tries, m)
  {
    if !v.awaiting {
      FreeCopies(v, r, left, polls, quiet);
    } else if left > 1 && quiet > 0 {
      FreeCopies(Redialed(v), r, left - 1, polls[1..], quiet - 1);
    }
  }

  class MdClient {
    const retries: nat
    var conn: nat
    var sent: seq<Out>
    var awaiting: bool

    function Abs(): ClientSide
      reads this
    {
      ClientSide(retries, conn, sent, awaiting)
    }

    constructor (retries: nat)
      ensures Abs() == ClientSide(retries, 0, [], false)
    {
      this.retries, conn, sent, awaiting := retries, 0, [], false;
    }

    /** `mdcli_send`. `aborted` is a failed assertion. */
    method Send(r: ClientCalls.Request, polls: seq<Poll>) returns (reply: Option<Msg>, aborted: bool)
      modifies this
      ensures var s := Retried(old(Abs()), r, retries, polls);
        && Abs() == s.v && (aborted <==> s.Crash?)
        && reply == if s.Answer? then Some(s.reply) else None
    {
      reply, aborted := None, false;
      var left := retries;
      var i := 0;
      while left != 0 && i < |polls|
        invariant 0 <= i <= |polls|
        invariant Retried(Abs(), r, left, polls[i..]) == Retried(old(Abs()), r, retries, polls)
        decreases left
      {
        var p := polls[i];
        assert polls[i..][1..] == polls[i + 1..];
        if !awaiting {
          sent := sent + [Out(conn, [MDPC_CLIENT, r.service] + r.body)];
          awaiting := true;
        }
        if p.Failed? { return; }
        if p.Got? {
          if !FromService(p.msg, r.service) {
            aborted := true;
            return;
          }
          awaiting := false;
          reply := Some(p.msg[2..]);
          return;
        }
        left := left - 1;
        if left == 0 { return; }
        conn, awaiting := conn + 1, false;
        i := i + 1;
      }
    }
  }
}
