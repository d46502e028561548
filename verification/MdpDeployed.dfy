/** The worker object among all the others: its calls are steps of the system, so what is proved of
    the system holds of the frames it really sends. */
module MdpDeployed {
  import opened Frames
  import opened MdpBroker
  import opened MdpInvariants
  import opened ClientCalls
  import opened MdpSystem
  import opened Options
  import A = MdpApi

  /** The worker object, the identity of its connection in use, and the system around it; `polling` is
      whether the object is in the loop of `mdwrk_recv`. */
  datatype Site = Site(y: System, v: A.WorkerSide, id: Id, failed: bool, polling: bool)

  /** Anyone else does anything, the program calls `mdwrk_recv`, or a poll inside that call fails, or
      ends, with message `i` of the broker or with none. A worker that reconnects gets the unused
      identity `newId`. */
  datatype Move =
    | Other(step: Step)
    | Call(reply: Option<Msg>)
    | PollFails
    | Polling(i: Option<nat>, now: int, newId: Id)

  /** The last messages the object sent, on the connection in use, are those on the link, in order. */
  ghost predicate OnLink(v: A.WorkerSide, id: Id, outbox: seq<WorkerOut>) {
    && |outbox| <= |v.sent|
    && forall j :: 0 <= j < |outbox| ==>
         v.sent[|v.sent| - |outbox| + j] == A.Out(v.conn, WorkerFrames(id, v.service, outbox[j])[1..])
  }

  ghost predicate HandsAgree(v: A.WorkerSide, hands: Hands) {
    v.replyTo == match hands { case Idle => None case Busy(client, _) => Some(client) }
  }

  /** The object and its connection in the system agree. */
  ghost predicate Mirrors(d: Site) {
    && !d.failed && d.id in d.y.ws && NoNul(d.v.service)
    && (d.v.replyTo.Some? ==> d.v.expectReply) && (d.polling ==> d.v.expectReply && d.v.replyTo.None?)
    && d.y.ws[d.id].service == d.v.service && HandsAgree(d.v, d.y.ws[d.id].hands)
    && OnLink(d.v, d.id, d.y.ws[d.id].outbox)
  }

  predicate Owns(step: Step, id: Id) {
    match step
    case NewWorker(w, _) => w == id
    case Receive(w, _) => w == id
    case Answer(w, _) => w == id
    case Heartbeat(w) => w == id
    case _ => false
  }

  /** The poll as the object sees it: the dealer socket strips the identity. */
  function PollAt(y: System, i: Option<nat>, now: int): A.Poll {
    if i.Some? && i.value < |y.b.sent| && y.b.sent[i.value] != [] then A.Got(y.b.sent[i.value][1..], now)
    else A.Silent(now)
  }

  predicate Enabled(d: Site, mv: Move, ok: Rule) {
    && !d.failed
    && match mv
       case Other(step) => !Owns(step, d.id)
       case Call(None) => !d.polling
       case Call(Some(reply)) =>
         && !d.polling && reply != []
         && (d.v.replyTo.Some? ==>
               && d.id in d.y.ws && d.y.ws[d.id].hands.Busy?
               && Accepts(ok, d.v.service, d.y.ws[d.id].hands.body, reply))
       case PollFails => d.polling
       case Polling(i, now, newId) =>
         && d.polling && d.id in d.y.ws
         && (i.Some? ==> d.y.ws[d.id].taken <= i.value < |d.y.b.sent| && To(d.y.b.sent[i.value], d.id))
         && (A.Reconnects(d.v, PollAt(d.y, i, now)) ==> Unused(d.y, newId))
  }

  /** The program calls without the reply it owes, or with a reply it does not owe. */
  predicate Misuse(d: Site, mv: Move) {
    mv.Call? && if mv.reply.None? then d.v.expectReply else d.v.replyTo.None?
  }

  /** The worker after what a poll brought, before the heartbeat is considered. */
  function Midway(v: A.WorkerSide, p: A.Poll): A.WorkerSide {
    match p
    case Failed => v
    case Silent(now) => A.Missed(v, now)
    case Got(msg, now) => if A.FromBroker(msg) then A.Took(v, msg, now) else v
  }

  predicate Beats(v: A.WorkerSide, p: A.Poll) {
    && !p.Failed? && p.now > Midway(v, p).heartbeatAt
    && (p.Got? ==> A.FromBroker(p.msg) && p.msg[2] != REQUEST)
  }

  function Joining(v: A.WorkerSide, p: A.Poll, newId: Id): seq<Step> {
    if A.Reconnects(v, p) then [NewWorker(newId, v.service)] else []
  }

  /** The system steps a move consists of. */
  function StepsOf(d: Site, mv: Move): seq<Step> {
    match mv
    case Other(step) => [step]
    case Call(None) => []
    case Call(Some(reply)) => if d.v.replyTo.Some? then [Answer(d.id, reply)] else []
    case PollFails => []
    case Polling(i, now, newId) =>
      var p := PollAt(d.y, i, now);
      (if i.Some? then [Receive(d.id, i.value)] else []) + Joining(d.v, p, newId)
      + if Beats(d.v, p) then [Heartbeat(if A.Reconnects(d.v, p) then newId else d.id)] else []
  }

  /** The object as the move leaves it: by the functions its methods compute. */
  function Outcome(d: Site, mv: Move): A.Recvd {
    match mv
    case Other(_) => A.Looping(d.v)
    case Call(reply) => A.Begun(d.v, reply)
    case PollFails => A.Looping(d.v)
    case Polling(i, now, _) => A.Turned(d.v, PollAt(d.y, i, now))
  }

  predicate StillPolling(d: Site, mv: Move, r: A.Recvd) {
    if mv.Other? then d.polling else r.Looping? && !mv.PollFails?
  }

  function Moved(d: Site, mv: Move, clock: nat -> int, ok: Rule): Site {
    if !Enabled(d, mv, ok) then d
    else
      var r := Outcome(d, mv);
      var id := if mv.Polling? && A.Reconnects(d.v, PollAt(d.y, mv.i, mv.now)) then mv.newId else d.id;
      Site(ActAll(d.y, StepsOf(d, mv), clock, ok), r.v, id, r.Aborted?, StillPolling(d, mv, r))
  }

  // ------------------------------------------------------------------------- one step each

  lemma OnLinkGrows(v: A.WorkerSide, id: Id, outbox: seq<WorkerOut>, m: WorkerOut, v': A.WorkerSide)
    requires OnLink(v, id, outbox) && v'.conn == v.conn && v'.service == v.service
    requires v'.sent == v.sent + [A.Out(v.conn, WorkerFrames(id, v.service, m)[1..])]
    ensures OnLink(v', id, outbox + [m])
  {
  }

  lemma OnLinkShrinks(v: A.WorkerSide, id: Id, outbox: seq<WorkerOut>, i: nat)
    requires OnLink(v, id, outbox) && i < |outbox|
    ensures OnLink(v, id, outbox[i + 1..])
  {
    var rest := outbox[i + 1..];
    forall j | 0 <= j < |rest|
      ensures v.sent[|v.sent| - |rest| + j] == A.Out(v.conn, WorkerFrames(id, v.service, rest[j])[1..])
    {
      assert rest[j] == outbox[i + 1 + j];
    }
  }

  /** What others do leaves the connection alone, but for what the broker takes off the link. */
  lemma OtherMirrors(d: Site, step: Step, clock: nat -> int, ok: Rule)
    requires Mirrors(d) && !Owns(step, d.id)
    ensures Mirrors(d.(y := Act(d.y, step, clock, ok)))
  {
    if step.TakeWorker? && step.w == d.id && step.i < |d.y.ws[d.id].outbox| {
      OnLinkShrinks(d.v, d.id, d.y.ws[d.id].outbox, step.i);
    }
  }

  lemma BeatMirrors(d: Site, now: int, clock: nat -> int, ok: Rule)
    requires Mirrors(d)
    ensures var v := A.Said(d.v, HEARTBEAT, []).(heartbeatAt := now + d.v.heartbeat);
      Mirrors(d.(y := Act(d.y, Heartbeat(d.id), clock, ok), v := v))
  {
    var v := A.Said(d.v, HEARTBEAT, []).(heartbeatAt := now + d.v.heartbeat);
    assert WorkerFrames(d.id, d.v.service, Beat)[1..] == ["", MDPW_WORKER, HEARTBEAT] + [];
    OnLinkGrows(d.v, d.id, d.y.ws[d.id].outbox, Beat, v);
  }

  lemma BeatOrNot(d: Site, beats: bool, now: int, clock: nat -> int, ok: Rule)
    requires Mirrors(d)
    ensures Mirrors(if beats then
                      d.(y := Act(d.y, Heartbeat(d.id), clock, ok),
                         v := A.Said(d.v, HEARTBEAT, []).(heartbeatAt := now + d.v.heartbeat))
                    else d)
  {
    if beats { BeatMirrors(d, now, clock, ok); }
  }

  lemma JoinMirrors(d: Site, now: int, newId: Id, clock: nat -> int, ok: Rule)
    requires Mirrors(d) && d.v.replyTo.None? && Unused(d.y, newId)
    ensures var y := Act(d.y, NewWorker(newId, d.v.service), clock, ok);
      Mirrors(Site(y, A.Connected(d.v, now), newId, false, false))
  {
    assert WorkerFrames(newId, d.v.service, Hello)[1..] == ["", MDPW_WORKER, READY] + [d.v.service];
  }

  lemma AnswerMirrors(d: Site, reply: Msg, clock: nat -> int, ok: Rule)
    requires Mirrors(d) && Enabled(d, Call(Some(reply)), ok) && d.v.replyTo.Some?
    ensures A.Begun(d.v, Some(reply)).Looping?
    ensures Mirrors(d.(y := Act(d.y, Answer(d.id, reply), clock, ok), v := A.Begun(d.v, Some(reply)).v,
                       polling := true))
  {
    var v, c := A.Begun(d.v, Some(reply)).v, d.v.replyTo.value;
    assert WorkerFrames(d.id, d.v.service, Reply(c, reply))[1..] == ["", MDPW_WORKER, REPLY] + Wrap(c, reply);
    OnLinkGrows(d.v, d.id, d.y.ws[d.id].outbox, Reply(c, reply), v);
  }

  /** A message of the broker passes the assertions of `mdwrk_recv`. */
  lemma BrokerMessage(d: Site, i: nat, ok: Rule)
    requires SystemInv(d.y, ok) && d.id in d.y.ws
    requires d.y.ws[d.id].taken <= i < |d.y.b.sent| && To(d.y.b.sent[i], d.id)
    ensures var m := d.y.b.sent[i];
      && |m| >= 4 && A.FromBroker(m[1..]) && m[1..][2] == m[3] && m[1..][3..] == m[4..]
      && (IsRequest(m, d.id) <==> m[3] == REQUEST)
  {
    var m := d.y.b.sent[i];
    assert WorkerOk(d.y, d.id, ok) && WorkerForm(d.y, m, d.id);
    assert m[..3][1] == "" && m[..3][2] == MDPW_WORKER;
  }

  /** The worker with a message in hand, before what a disconnect makes it do. */
  function Noticed(v: A.WorkerSide, msg: Msg): A.WorkerSide
    requires A.FromBroker(msg)
  {
    v.(liveness := A.HEARTBEAT_LIVENESS, replyTo := if msg[2] == REQUEST then Some(Unwrap(msg[3..]).0) else v.replyTo)
  }

  lemma ReceiveMirrors(d: Site, i: nat, clock: nat -> int, ok: Rule)
    requires SystemInv(d.y, ok) && Mirrors(d) && d.v.replyTo.None? && d.v.expectReply
    requires d.y.ws[d.id].taken <= i < |d.y.b.sent| && To(d.y.b.sent[i], d.id)
    ensures A.FromBroker(d.y.b.sent[i][1..])
    ensures Mirrors(d.(y := Act(d.y, Receive(d.id, i), clock, ok), v := Noticed(d.v, d.y.b.sent[i][1..]),
                       polling := false))
  {
    BrokerMessage(d, i, ok);
  }

  /** The first part of a poll: take the message, if there is one. */
  function Arrived(d: Site, i: Option<nat>, now: int, clock: nat -> int, ok: Rule): Site {
    var p := PollAt(d.y, i, now);
    if i.Some? && p.Got? && A.FromBroker(p.msg) then
      d.(y := Act(d.y, Receive(d.id, i.value), clock, ok), v := Noticed(d.v, p.msg), polling := false)
    else d.(v := d.v.(liveness := d.v.liveness - 1), polling := false)
  }

  lemma ArrivedMirrors(d: Site, i: Option<nat>, now: int, newId: Id, clock: nat -> int, ok: Rule)
    requires SystemInv(d.y, ok) && Mirrors(d) && Enabled(d, Polling(i, now, newId), ok)
    ensures var p, d1 := PollAt(d.y, i, now), Arrived(d, i, now, clock, ok);
      && Mirrors(d1) && (p.Got? <==> i.Some?) && (p.Got? ==> A.FromBroker(p.msg))
      && d1.y == ActAll(d.y, if i.Some? then [Receive(d.id, i.value)] else [], clock, ok)
      && (A.Reconnects(d.v, p) ==> d1.v.replyTo.None? && Unused(d1.y, newId))
  {
    if i.Some? {
      ReceiveMirrors(d, i.value, clock, ok);
      ActAllAppend(d.y, [], Receive(d.id, i.value), clock, ok);
      assert [] + [Receive(d.id, i.value)] == [Receive(d.id, i.value)];
      assert REQUEST != DISCONNECT by { assert REQUEST[0] != DISCONNECT[0]; }
    }
  }

  /** The second part: reconnect, if it comes to that. */
  function Joined(d: Site, d1: Site, p: A.Poll, newId: Id, clock: nat -> int, ok: Rule): Site {
    if !p.Failed? && A.Reconnects(d.v, p) then
      Site(Act(d1.y, NewWorker(newId, d.v.service), clock, ok), A.Connected(d1.v, p.now), newId, false, false)
    else d1
  }

  lemma JoinedMirrors(d: Site, i: Option<nat>, now: int, newId: Id, clock: nat -> int, ok: Rule)
    requires SystemInv(d.y, ok) && Mirrors(d) && Enabled(d, Polling(i, now, newId), ok)
    ensures var p, d1 := PollAt(d.y, i, now), Arrived(d, i, now, clock, ok);
      var d2 := Joined(d, d1, p, newId, clock, ok);
      && Mirrors(d2) && d2.v == Midway(d.v, p) && d2.id == (if A.Reconnects(d.v, p) then newId else d.id)
      && d2.y == ActAll(d1.y, Joining(d.v, p, newId), clock, ok)
  {
    var p, d1 := PollAt(d.y, i, now), Arrived(d, i, now, clock, ok);
    ArrivedMirrors(d, i, now, newId, clock, ok);
    assert REQUEST != DISCONNECT by { assert REQUEST[0] != DISCONNECT[0]; }
    if A.Reconnects(d.v, p) {
      JoinMirrors(d1, now, newId, clock, ok);
      ActAllAppend(d1.y, [], NewWorker(newId, d.v.service), clock, ok);
      assert [] + [NewWorker(newId, d.v.service)] == [NewWorker(newId, d.v.service)];
    }
  }

  lemma TurnedIs(v: A.WorkerSide, p: A.Poll)
    requires !p.Failed? && (p.Got? ==> A.FromBroker(p.msg))
    ensures var r, m := A.Turned(v, p), Midway(v, p);
      && !r.Aborted? && m.heartbeat == v.heartbeat
      && r.v == if Beats(v, p) then A.Said(m, HEARTBEAT, []).(heartbeatAt := p.now + v.heartbeat) else m
  {
  }

  lemma PollSteps(d: Site, i: Option<nat>, now: int, newId: Id, clock: nat -> int, ok: Rule)
    requires SystemInv(d.y, ok) && Mirrors(d) && Enabled(d, Polling(i, now, newId), ok)
    ensures var p, d1 := PollAt(d.y, i, now), Arrived(d, i, now, clock, ok);
      var d2 := Joined(d, d1, p, newId, clock, ok);
      ActAll(d.y, StepsOf(d, Polling(i, now, newId)), clock, ok) ==
      if Beats(d.v, p) then Act(d2.y, Heartbeat(d2.id), clock, ok) else d2.y
  {
    var p, d1 := PollAt(d.y, i, now), Arrived(d, i, now, clock, ok);
    var d2 := Joined(d, d1, p, newId, clock, ok);
    ArrivedMirrors(d, i, now, newId, clock, ok);
    JoinedMirrors(d, i, now, newId, clock, ok);
    var a, b := if i.Some? then [Receive(d.id, i.value)] else [], Joining(d.v, p, newId);
    ActAllJoin(d.y, a, b, clock, ok);
    if Beats(d.v, p) {
      ActAllAppend(d.y, a + b, Heartbeat(d2.id), clock, ok);
    } else {
      assert a + b + [] == a + b;
    }
  }

  /** The site after the poll, part by part. */
  lemma PollIs(d: Site, i: Option<nat>, now: int, newId: Id, clock: nat -> int, ok: Rule)
    requires SystemInv(d.y, ok) && Mirrors(d) && Enabled(d, Polling(i, now, newId), ok)
    ensures var p, d1 := PollAt(d.y, i, now), Arrived(d, i, now, clock, ok);
      var d2 := Joined(d, d1, p, newId, clock, ok);
      Moved(d, Polling(i, now, newId), clock, ok).(polling := false) ==
      if Beats(d.v, p) then
        d2.(y := Act(d2.y, Heartbeat(d2.id), clock, ok),
            v := A.Said(d2.v, HEARTBEAT, []).(heartbeatAt := now + d2.v.heartbeat))
      else d2
  {
    ArrivedMirrors(d, i, now, newId, clock, ok);
    JoinedMirrors(d, i, now, newId, clock, ok);
    PollSteps(d, i, now, newId, clock, ok);
    TurnedIs(d.v, PollAt(d.y, i, now));
  }

  lemma TurnedHands(v: A.WorkerSide, p: A.Poll)
    requires v.expectReply && v.replyTo.None?
    ensures var r := A.Turned(v, p); r.v.expectReply && (r.Request? <==> r.v.replyTo.Some?)
  {
  }

  /** Whether the object goes on polling does not concern its connection. */
  lemma PollingMirrors(d: Site, polling: bool)
    requires Mirrors(d.(polling := false)) && (polling ==> d.v.expectReply && d.v.replyTo.None?)
    ensures Mirrors(d.(polling := polling))
  {
  }

  lemma PollSettles(d: Site, i: Option<nat>, now: int, newId: Id, clock: nat -> int, ok: Rule)
    requires SystemInv(d.y, ok) && Mirrors(d) && Enabled(d, Polling(i, now, newId), ok)
    ensures Mirrors(Moved(d, Polling(i, now, newId), clock, ok).(polling := false))
  {
    var p, d1 := PollAt(d.y, i, now), Arrived(d, i, now, clock, ok);
    PollIs(d, i, now, newId, clock, ok);
    JoinedMirrors(d, i, now, newId, clock, ok);
    BeatOrNot(Joined(d, d1, p, newId, clock, ok), Beats(d.v, p), now, clock, ok);
  }

  /** A turn of the loop of `mdwrk_recv`: it never aborts, and object and connection agree again. */
  lemma PollMirrors(d: Site, i: Option<nat>, now: int, newId: Id, clock: nat -> int, ok: Rule)
    requires SystemInv(d.y, ok) && Mirrors(d) && Enabled(d, Polling(i, now, newId), ok)
    ensures Mirrors(Moved(d, Polling(i, now, newId), clock, ok))
  {
    var e := Moved(d, Polling(i, now, newId), clock, ok);
    PollSettles(d, i, now, newId, clock, ok);
    TurnedHands(d.v, PollAt(d.y, i, now));
    PollingMirrors(e, e.polling);
  }

  /** The request `mdwrk_recv` returns is the one its connection now holds, for the client it will answer. */
  lemma RequestIsHeld(d: Site, mv: Move, clock: nat -> int, ok: Rule)
    requires SystemInv(d.y, ok) && Mirrors(d) && mv.Polling? && Enabled(d, mv, ok) && Outcome(d, mv).Request?
    ensures var e := Moved(d, mv, clock, ok);
      Mirrors(e) && e.y.ws[e.id].hands == Busy(e.v.replyTo.value, Outcome(d, mv).body)
  {
    PollMirrors(d, mv.i, mv.now, mv.newId, clock, ok);
    PollSteps(d, mv.i, mv.now, mv.newId, clock, ok);
    ArrivedMirrors(d, mv.i, mv.now, mv.newId, clock, ok);
    BrokerMessage(d, mv.i.value, ok);
    assert REQUEST != DISCONNECT by { assert REQUEST[0] != DISCONNECT[0]; }
  }

  lemma CallMirrors(d: Site, reply: Option<Msg>, clock: nat -> int, ok: Rule)
    requires Mirrors(d) && Enabled(d, Call(reply), ok)
    ensures var e := Moved(d, Call(reply), clock, ok);
      (e.failed <==> Misuse(d, Call(reply))) && (!e.failed ==> Mirrors(e))
  {
    if reply.Some? && d.v.replyTo.Some? {
      AnswerMirrors(d, reply.value, clock, ok);
      ActAllAppend(d.y, [], Answer(d.id, reply.value), clock, ok);
      assert [] + [Answer(d.id, reply.value)] == [Answer(d.id, reply.value)];
    }
  }

  /** A move makes the object abort if and only if the program misuses it: no message of the broker, no
      failed poll and nothing anyone else does can. Otherwise object and connection agree again. */
  lemma MovedMirrors(d: Site, mv: Move, clock: nat -> int, ok: Rule)
    requires SystemInv(d.y, ok) && Mirrors(d)
    ensures var e := Moved(d, mv, clock, ok);
      (e.failed <==> Enabled(d, mv, ok) && Misuse(d, mv)) && (!e.failed ==> Mirrors(e))
  {
    if Enabled(d, mv, ok) {
      match mv
      case Other(step) =>
        OtherMirrors(d, step, clock, ok);
        ActAllAppend(d.y, [], step, clock, ok);
        assert [] + [step] == [step];
      case Call(reply) => CallMirrors(d, reply, clock, ok);
      case PollFails =>
      case Polling(i, now, newId) => PollMirrors(d, i, now, newId, clock, ok);
    }
  }

  // ----------------------------------------------------------------------------- whole runs

  function MovedAll(d: Site, moves: seq<Move>, clock: nat -> int, ok: Rule): Site
    decreases |moves|
  {
    if moves == [] then d else MovedAll(Moved(d, moves[0], clock, ok), moves[1..], clock, ok)
  }

  lemma {:induction false} FailedStays(d: Site, moves: seq<Move>, clock: nat -> int, ok: Rule)
    requires d.failed
    ensures MovedAll(d, moves, clock, ok) == d
    decreases |moves|
  {
    if moves != [] { FailedStays(d, moves[1..], clock, ok); }
  }

  /** Whatever the object does among any others, in any order, is a run of the system; unless the program
      has misused it, object and connection agree. */
  lemma {:induction false} ObjectRefines(d: Site, start: seq<Step>, moves: seq<Move>, clock: nat -> int,
                                         ok: Rule) returns (steps: seq<Step>)
    requires d.y == RunSystem(start, clock, ok) && Mirrors(d)
    ensures var e := MovedAll(d, moves, clock, ok); e.y == RunSystem(steps, clock, ok) && (!e.failed ==> Mirrors(e))
    decreases |moves|
  {
    steps := start;
    if moves != [] {
      ReachableInv(start, clock, ok);
      MovedMirrors(d, moves[0], clock, ok);
      RunsOn(start, StepsOf(d, moves[0]), clock, ok);
      var e := Moved(d, moves[0], clock, ok);
      var more := if Enabled(d, moves[0], ok) then start + StepsOf(d, moves[0]) else start;
      if e.failed {
        FailedStays(e, moves[1..], clock, ok);
        steps := more;
      } else {
        steps := ObjectRefines(e, more, moves[1..], clock, ok);
      }
    }
  }

  /** A new object starts in agreement with its connection. */
  lemma NewObject(y: System, service: Frame, heartbeat: int, now: int, id: Id, clock: nat -> int,
                  ok: Rule)
    requires Unused(y, id) && NoNul(service)
    ensures var z := Act(y, NewWorker(id, service), clock, ok);
      Mirrors(Site(z, A.Started(service, heartbeat, now), id, false, false))
  {
    assert WorkerFrames(id, service, Hello)[1..] == ["", MDPW_WORKER, READY, service];
  }

  /** The frames of the object still on the link, behind the identity the router adds, are compliant
      for the broker as it is. */
  ghost predicate SendsCompliant(e: Site) {
    && Mirrors(e)
    && forall k :: |e.v.sent| - |e.y.ws[e.id].outbox| <= k < |e.v.sent| ==>
         Compliant(e.y.b, [e.id] + e.v.sent[k].msg)
  }

  lemma LinkIsCompliant(e: Site, steps: seq<Step>, clock: nat -> int, ok: Rule)
    requires e.y == RunSystem(steps, clock, ok) && Mirrors(e)
    ensures SendsCompliant(e)
  {
    var outbox := e.y.ws[e.id].outbox;
    forall k | |e.v.sent| - |outbox| <= k < |e.v.sent| ensures Compliant(e.y.b, [e.id] + e.v.sent[k].msg) {
      var j := k - (|e.v.sent| - |outbox|);
      ApiIsCompliant(steps, clock, ok, e.id, j);
      assert e.v.sent[|e.v.sent| - |outbox| + j] == e.v.sent[k];
      var f := WorkerFrames(e.id, e.v.service, outbox[j]);
      assert f == [e.id] + f[1..];
    }
  }

  /** Whatever the object does among any others, all it has sent on its link is compliant. */
  lemma ObjectIsCompliant(d: Site, start: seq<Step>, moves: seq<Move>, clock: nat -> int, ok: Rule)
    requires d.y == RunSystem(start, clock, ok) && Mirrors(d)
    ensures var e := MovedAll(d, moves, clock, ok); e.failed || SendsCompliant(e)
  {
    var e := MovedAll(d, moves, clock, ok);
    var steps := ObjectRefines(d, start, moves, clock, ok);
    if !e.failed { LinkIsCompliant(e, steps, clock, ok); }
  }

  // ------------------------------------------------------------ a call of mdwrk_recv is moves

  /** The polls the object makes in the course of the moves. */
  function PollsIn(d: Site, moves: seq<Move>, clock: nat -> int, ok: Rule): seq<A.Poll>
    decreases |moves|
  {
    if moves == [] then []
    else
      (if !Enabled(d, moves[0], ok) then []
       else if moves[0].Polling? then [PollAt(d.y, moves[0].i, moves[0].now)]
       else if moves[0].PollFails? then [A.Failed] else [])
      + PollsIn(Moved(d, moves[0], clock, ok), moves[1..], clock, ok)
  }

  ghost predicate InsideCall(moves: seq<Move>) {
    forall i :: 0 <= i < |moves| ==> !moves[i].Call?
  }

  /** The object is as it was, and so is what its connection holds. */
  ghost predicate Rests(d: Site, e: Site) {
    && e.v == d.v && e.id == d.id && e.failed == d.failed && e.polling == d.polling
    && (d.id in d.y.ws ==> e.id in e.y.ws && e.y.ws[e.id].hands == d.y.ws[d.id].hands)
  }

  lemma OtherRests(d: Site, step: Step, clock: nat -> int, ok: Rule)
    requires !Owns(step, d.id)
    ensures Rests(d, d.(y := Act(d.y, step, clock, ok)))
  {
  }

  lemma IdleRests(d: Site, mv: Move, clock: nat -> int, ok: Rule)
    requires !mv.Call? && (mv.Other? || !Enabled(d, mv, ok))
    ensures Rests(d, Moved(d, mv, clock, ok))
  {
    if Enabled(d, mv, ok) {
      OtherRests(d, mv.step, clock, ok);
      ActAllAppend(d.y, [], mv.step, clock, ok);
      assert [] + [mv.step] == [mv.step];
    }
  }

  /** Once the call is over, nothing inside it is left to do. */
  lemma {:induction false} CallOver(d: Site, moves: seq<Move>, clock: nat -> int, ok: Rule)
    requires (d.failed || !d.polling) && InsideCall(moves)
    ensures PollsIn(d, moves, clock, ok) == [] && Rests(d, MovedAll(d, moves, clock, ok))
    decreases |moves|
  {
    if moves != [] {
      assert !moves[0].Call? && InsideCall(moves[1..]);
      IdleRests(d, moves[0], clock, ok);
      CallOver(Moved(d, moves[0], clock, ok), moves[1..], clock, ok);
    }
  }

  /** The result of the call agrees with where the object and its connection stand. */
  ghost predicate Tells(r: A.Recvd, e: Site) {
    && !e.failed && !r.Aborted? && r.v == e.v && (r.Request? <==> e.v.replyTo.Some?)
    && (r.Request? ==> e.id in e.y.ws && e.y.ws[e.id].hands == Busy(e.v.replyTo.value, r.body))
  }

  lemma LoopedFirst(v: A.WorkerSide, p: A.Poll, rest: seq<A.Poll>)
    ensures A.Looped(v, [p] + rest) ==
            if p.Failed? then A.Looping(v)
            else var r := A.Turned(v, p); if r.Looping? then A.Looped(r.v, rest) else r
  {
    assert ([p] + rest)[1..] == rest;
  }

  lemma MovedInv(d: Site, mv: Move, clock: nat -> int, ok: Rule)
    requires SystemInv(d.y, ok)
    ensures SystemInv(Moved(d, mv, clock, ok).y, ok)
  {
    if Enabled(d, mv, ok) { ActAllInv(d.y, StepsOf(d, mv), clock, ok); }
  }

  /** A poll that brings a request ends the call with it. */
  lemma PollTells(d: Site, mv: Move, clock: nat -> int, ok: Rule)
    requires SystemInv(d.y, ok) && Mirrors(d) && mv.Polling? && Enabled(d, mv, ok)
    ensures var r, e := A.Turned(d.v, PollAt(d.y, mv.i, mv.now)), Moved(d, mv, clock, ok);
      Mirrors(e) && !r.Aborted? && r.v == e.v && (e.polling <==> r.Looping?) && (r.Request? ==> Tells(r, e))
  {
    assert Outcome(d, mv) == A.Turned(d.v, PollAt(d.y, mv.i, mv.now));
    TurnedHands(d.v, PollAt(d.y, mv.i, mv.now));
    if Outcome(d, mv).Request? {
      RequestIsHeld(d, mv, clock, ok);
    } else {
      PollMirrors(d, mv.i, mv.now, mv.newId, clock, ok);
    }
  }

  /** The loop of `mdwrk_recv`, on the polls the moves give it, leaves the object as the moves do, and
      returns the request that its connection then holds. */
  lemma {:induction false} LoopIsMoves(d: Site, moves: seq<Move>, clock: nat -> int, ok: Rule)
    requires SystemInv(d.y, ok) && Mirrors(d) && d.polling && InsideCall(moves)
    ensures Tells(A.Looped(d.v, PollsIn(d, moves, clock, ok)), MovedAll(d, moves, clock, ok))
    decreases |moves|
  {
    if moves != [] {
      var mv, rest := moves[0], moves[1..];
      var e := Moved(d, mv, clock, ok);
      assert !mv.Call? && InsideCall(rest);
      MovedMirrors(d, mv, clock, ok);
      MovedInv(d, mv, clock, ok);
      var ps := PollsIn(e, rest, clock, ok);
      if Enabled(d, mv, ok) && mv.Polling? {
        var p := PollAt(d.y, mv.i, mv.now);
        PollTells(d, mv, clock, ok);
        LoopedFirst(d.v, p, ps);
        if e.polling { LoopIsMoves(e, rest, clock, ok); } else { CallOver(e, rest, clock, ok); }
      } else if Enabled(d, mv, ok) && mv.PollFails? {
        LoopedFirst(d.v, A.Failed, ps);
        CallOver(e, rest, clock, ok);
      } else {
        IdleRests(d, mv, clock, ok);
        assert PollsIn(d, moves, clock, ok) == ps;
        LoopIsMoves(e, rest, clock, ok);
      }
    }
  }

  /** A call of `mdwrk_recv` is the start of a call followed by the moves inside it. It aborts exactly on
      misuse; otherwise it leaves the object as the moves do, and the request it returns is the one its
      connection then holds, for the client it will answer. */
  lemma RecvIsMoves(d: Site, reply: Option<Msg>, moves: seq<Move>, clock: nat -> int, ok: Rule)
    requires SystemInv(d.y, ok) && Mirrors(d) && Enabled(d, Call(reply), ok) && InsideCall(moves)
    ensures var e0 := Moved(d, Call(reply), clock, ok);
      var r, e := A.Received(d.v, reply, PollsIn(e0, moves, clock, ok)), MovedAll(e0, moves, clock, ok);
      (r.Aborted? <==> Misuse(d, Call(reply))) && if r.Aborted? then e.failed && r.v == e.v else Tells(r, e)
  {
    var e0 := Moved(d, Call(reply), clock, ok);
    CallMirrors(d, reply, clock, ok);
    MovedInv(d, Call(reply), clock, ok);
    if e0.failed { CallOver(e0, moves, clock, ok); } else { LoopIsMoves(e0, moves, clock, ok); }
  }
}
