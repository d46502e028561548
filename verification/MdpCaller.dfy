/** The client object among all the others: its calls are steps of the system, and its assertions
    fail exactly when the reply that arrives is for another service than the call asked for. */
module MdpCaller {
  import opened Frames
  import opened MdpBroker
  import opened MdpInvariants
  import opened ClientCalls
  import opened MdpSystem
  import opened MdpDelivery
  import opened Options
  import A = MdpApi

  /** Between calls; in a call at the head of its loop; or polling after a try. */
  datatype Phase = Free | Heading(r: Request, left: nat) | Waiting(r: Request, left: nat)

  /** The client object, the identity of its connection in use, and the system around it. */
  datatype Site = Site(y: System, v: A.ClientSide, id: Id, phase: Phase, failed: bool)

  /** Anyone else does anything; the program calls `mdcli_send`; the loop makes a try or is interrupted;
      the poll fails, or ends with message `i` of the broker or with none. A client that reconnects gets
      the unused identity `newId`. */
  datatype Move =
    | Other(step: Step)
    | Call(r: Request)
    | Try
    | Interrupt
    | PollFails
    | PollEnds(i: Option<nat>, newId: Id)

  predicate Owns(step: Step, id: Id) {
    match step
    case NewClient(c) => c == id
    case Submit(c, _) => c == id
    case Abandon(c) => c == id
    case Deliver(c, _) => c == id
    case _ => false
  }

  /** The log of the connection says where the object stands in its code. */
  ghost predicate PhaseAgrees(phase: Phase, calls: seq<CallEvent>) {
    match phase
    case Free => AtLeisure(calls)
    case Heading(r, left) => AtLeisure(calls) && Askable(r) && left > 0
    case Waiting(r, left) => Current(calls) == Some(r) && Askable(r) && left > 0
  }

  /** The request on the wire is the last message the object sent, on the connection in use. */
  ghost predicate OnWire(v: A.ClientSide, id: Id, pending: Option<Request>) {
    && (v.awaiting <==> pending.Some?)
    && (pending.Some? ==>
          && v.sent != []
          && v.sent[|v.sent| - 1] == A.Out(v.conn, ClientFrames(id, pending.value)[2..]))
  }

  ghost predicate Mirrors(d: Site) {
    && !d.failed && d.id in d.y.cs
    && PhaseAgrees(d.phase, d.y.cs[d.id].calls) && OnWire(d.v, d.id, d.y.cs[d.id].pending)
  }

  /** The poll as the object sees it: the request socket strips identity and delimiter. */
  function PollAt(y: System, i: Option<nat>): A.Poll {
    if i.Some? && i.value < |y.b.sent| && |y.b.sent[i.value]| >= 2 then A.Got(y.b.sent[i.value][2..], 0)
    else A.Silent(0)
  }

  predicate Enabled(d: Site, mv: Move) {
    && !d.failed
    && match mv
       case Other(step) => !Owns(step, d.id)
       case Call(r) => d.phase == Free && Askable(r)
       case Try => d.phase.Heading?
       case Interrupt => d.phase.Heading?
       case PollFails => d.phase.Waiting?
       case PollEnds(i, newId) =>
         && d.phase.Waiting? && (i.Some? ==> Facing(d.y, d.id, i.value))
         && (i.None? && d.phase.left > 1 ==> Unused(d.y, newId))
  }

  function StepsOf(d: Site, mv: Move): seq<Step> {
    match mv
    case Other(step) => [step]
    case Call(_) => []
    case Try => if d.phase.Heading? then [Submit(d.id, d.phase.r)] else []
    case Interrupt => []
    case PollFails => [Abandon(d.id)]
    case PollEnds(i, newId) =>
      if i.Some? then [Deliver(d.id, i.value)]
      else if d.phase.Waiting? && d.phase.left > 1 then [Abandon(d.id), NewClient(newId)]
      else [Abandon(d.id)]
  }

  /** How the poll ends for the object: by the function its method computes. */
  function Outcome(d: Site, mv: Move): A.Sent
    requires d.phase.Waiting?
  {
    A.Polled(d.v, d.phase.r, d.phase.left, if mv.PollEnds? then PollAt(d.y, mv.i) else A.Failed)
  }

  /** The object after a move, and where it stands. */
  function Stands(d: Site, mv: Move): (A.ClientSide, Phase) {
    match mv
    case Other(_) => (d.v, d.phase)
    case Call(r) => (d.v, if d.v.retries == 0 then Free else Heading(r, d.v.retries))
    case Try => if d.phase.Heading? then (A.Tried(d.v, d.phase.r), Waiting(d.phase.r, d.phase.left)) else (d.v, d.phase)
    case Interrupt => (d.v, Free)
    case PollFails => if d.phase.Waiting? then (Outcome(d, mv).v, Free) else (d.v, d.phase)
    case PollEnds(_, _) =>
      if !d.phase.Waiting? then (d.v, d.phase)
      else
        var s := Outcome(d, mv);
        (s.v, if s.Again? && d.phase.left > 0 then Heading(d.phase.r, d.phase.left - 1) else Free)
  }

  function Moved(d: Site, mv: Move, clock: nat -> int, ok: Rule): Site {
    if !Enabled(d, mv) then d
    else
      var (v, phase) := Stands(d, mv);
      Site(ActAll(d.y, StepsOf(d, mv), clock, ok), v, if phase.Heading? && mv.PollEnds? then mv.newId else d.id,
           phase, mv.PollEnds? && Outcome(d, mv).Crash?)
  }

  // ------------------------------------------------------------------------- one step each

  lemma OneStep(y: System, s: Step, clock: nat -> int, ok: Rule)
    ensures ActAll(y, [s], clock, ok) == Act(y, s, clock, ok)
  {
    ActAllAppend(y, [], s, clock, ok);
    assert [] + [s] == [s];
  }

  /** What others do leaves the calls and the request on the wire alone. */
  lemma OtherMirrors(d: Site, step: Step, clock: nat -> int, ok: Rule)
    requires Mirrors(d) && !Owns(step, d.id)
    ensures Mirrors(d.(y := Act(d.y, step, clock, ok)))
  {
  }

  lemma TryMirrors(d: Site, clock: nat -> int, ok: Rule)
    requires Mirrors(d) && d.phase.Heading?
    ensures Mirrors(Moved(d, Try, clock, ok))
  {
    OneStep(d.y, Submit(d.id, d.phase.r), clock, ok);
    var r := d.phase.r;
    assert ClientFrames(d.id, r)[2..] == [MDPC_CLIENT, r.service] + r.body;
  }

  lemma GiveUpMirrors(d: Site, clock: nat -> int, ok: Rule)
    requires Mirrors(d) && d.phase.Waiting?
    ensures Mirrors(d.(y := Act(d.y, Abandon(d.id), clock, ok), phase := Free))
  {
  }

  lemma RedialMirrors(d: Site, newId: Id, r: Request, left: nat, clock: nat -> int, ok: Rule)
    requires Mirrors(d) && Unused(d.y, newId) && Askable(r) && left > 0
    ensures Mirrors(Site(Act(d.y, NewClient(newId), clock, ok), A.Redialed(d.v), newId, Heading(r, left), false))
  {
  }

  /** The poll brings a message: the object fails exactly when the message is for another service. */
  lemma PolledPasses(d: Site, i: nat, ok: Rule)
    requires SystemInv(d.y, ok) && Books(d.y, d.id) && Facing(d.y, d.id, i)
    ensures var m := d.y.b.sent[i]; var o := Owing(d.y.cs[d.id].calls);
      && |m| >= 5 && o.Some?
      && forall service :: A.FromService(m[2..], service) <==> (Passes(m, service) && o.value.service == service)
  {
    AnswersOwing(d.y, d.id, i, ok);
  }

  lemma DeliverMirrors(d: Site, i: nat, clock: nat -> int, ok: Rule)
    requires SystemInv(d.y, ok) && Books(d.y, d.id) && Mirrors(d) && d.phase.Waiting? && Facing(d.y, d.id, i)
    requires Owing(d.y.cs[d.id].calls).Some? && Owing(d.y.cs[d.id].calls).value.service == d.phase.r.service
    ensures Mirrors(d.(y := Act(d.y, Deliver(d.id, i), clock, ok), v := d.v.(awaiting := false), phase := Free))
  {
    PolledPasses(d, i, ok);
    AnswersOwing(d.y, d.id, i, ok);
  }

  /** The message at hand is for another service than the call asked for. */
  ghost predicate Mismatch(d: Site, mv: Move) {
    && mv.PollEnds? && mv.i.Some? && d.phase.Waiting? && d.id in d.y.cs
    && Owing(d.y.cs[d.id].calls) != None && Owing(d.y.cs[d.id].calls).value.service != d.phase.r.service
  }

  lemma PollGot(d: Site, i: nat, newId: Id, clock: nat -> int, ok: Rule)
    requires SystemInv(d.y, ok) && Books(d.y, d.id) && Mirrors(d) && Enabled(d, PollEnds(Some(i), newId))
    ensures var e := Moved(d, PollEnds(Some(i), newId), clock, ok);
      (e.failed <==> Mismatch(d, PollEnds(Some(i), newId))) && (!e.failed ==> Mirrors(e))
  {
    PolledPasses(d, i, ok);
    OneStep(d.y, Deliver(d.id, i), clock, ok);
    if !Mismatch(d, PollEnds(Some(i), newId)) { DeliverMirrors(d, i, clock, ok); }
  }

  lemma PollSilent(d: Site, newId: Id, clock: nat -> int, ok: Rule)
    requires Mirrors(d) && Enabled(d, PollEnds(None, newId))
    ensures Mirrors(Moved(d, PollEnds(None, newId), clock, ok))
  {
    GiveUpMirrors(d, clock, ok);
    if d.phase.left > 1 {
      TwoSteps(d.y, Abandon(d.id), NewClient(newId), clock, ok);
      var d1 := d.(y := Act(d.y, Abandon(d.id), clock, ok), phase := Free);
      RedialMirrors(d1, newId, d.phase.r, d.phase.left - 1, clock, ok);
    } else {
      OneStep(d.y, Abandon(d.id), clock, ok);
    }
  }

  /** In any state of the system: a move makes the object abort if and only if it delivers a message that
      answers a call for another service; otherwise object and connection agree again. */
  lemma FailsIffMismatch(d: Site, mv: Move, clock: nat -> int, ok: Rule)
    requires SystemInv(d.y, ok) && Books(d.y, d.id) && Mirrors(d)
    ensures var e := Moved(d, mv, clock, ok);
      (e.failed <==> Enabled(d, mv) && Mismatch(d, mv)) && (!e.failed ==> Mirrors(e))
  {
    if Enabled(d, mv) {
      match mv
      case Other(step) =>
        OneStep(d.y, step, clock, ok);
        OtherMirrors(d, step, clock, ok);
      case Call(_) =>
      case Try => TryMirrors(d, clock, ok);
      case Interrupt =>
      case PollFails =>
        OneStep(d.y, Abandon(d.id), clock, ok);
        GiveUpMirrors(d, clock, ok);
      case PollEnds(i, newId) =>
        if i.Some? { PollGot(d, i.value, newId, clock, ok); } else { PollSilent(d, newId, clock, ok); }
    }
  }

  // ----------------------------------------------------------------------------- whole runs

  function MovedAll(d: Site, moves: seq<Move>, clock: nat -> int, ok: Rule): Site
    decreases |moves|
  {
    if moves == [] then d else MovedAll(Moved(d, moves[0], clock, ok), moves[1..], clock, ok)
  }

  lemma FailedStays(d: Site, moves: seq<Move>, clock: nat -> int, ok: Rule)
    requires d.failed
    ensures MovedAll(d, moves, clock, ok) == d
    decreases |moves|
  {
  }

  /** Whatever the object does among any others, in any order, is a run of the system; unless an
      assertion of `mdcli_send` has failed, object and connection agree. */
  lemma {:induction false} ObjectRefines(d: Site, start: seq<Step>, moves: seq<Move>, clock: nat -> int,
                                         ok: Rule) returns (steps: seq<Step>)
    requires d.y == RunSystem(start, clock, ok) && Mirrors(d)
    ensures var e := MovedAll(d, moves, clock, ok); e.y == RunSystem(steps, clock, ok) && (!e.failed ==> Mirrors(e))
    decreases |moves|
  {
    steps := start;
    if moves != [] {
      ReachableInv(start, clock, ok);
      ReachableBooks(start, clock, ok, d.id);
      FailsIffMismatch(d, moves[0], clock, ok);
      RunsOn(start, StepsOf(d, moves[0]), clock, ok);
      var e := Moved(d, moves[0], clock, ok);
      var more := if Enabled(d, moves[0]) then start + StepsOf(d, moves[0]) else start;
      if e.failed {
        FailedStays(e, moves[1..], clock, ok);
        steps := more;
      } else {
        steps := ObjectRefines(e, more, moves[1..], clock, ok);
      }
    }
  }

  /** A new object starts in agreement with its connection. */
  lemma NewObject(y: System, retries: nat, id: Id, clock: nat -> int, ok: Rule)
    requires Unused(y, id)
    ensures Mirrors(Site(Act(y, NewClient(id), clock, ok), A.ClientSide(retries, 0, [], false), id, Free, false))
  {
  }

  /** A request of the object still on the link, behind the identity and the delimiter the sockets add,
      is compliant for the broker as it then is. */
  lemma ObjectIsCompliant(d: Site, start: seq<Step>, moves: seq<Move>, clock: nat -> int,
                          ok: Rule)
    requires d.y == RunSystem(start, clock, ok) && Mirrors(d)
    ensures var e := MovedAll(d, moves, clock, ok);
      !e.failed ==>
        && Mirrors(e)
        && (e.y.cs[e.id].unsent ==> e.v.sent != [] && Compliant(e.y.b, [e.id, ""] + e.v.sent[|e.v.sent| - 1].msg))
  {
    var e := MovedAll(d, moves, clock, ok);
    var steps := ObjectRefines(d, start, moves, clock, ok);
    if !e.failed && e.y.cs[e.id].unsent {
      ApiIsCompliant(steps, clock, ok, e.id, 0);
      var f := ClientFrames(e.id, e.y.cs[e.id].pending.value);
      assert f == [e.id, ""] + f[2..];
    }
  }

  // ------------------------------------------------------------ a call of mdcli_send is moves

  /** The polls the object makes in the course of the moves. */
  function PollsIn(d: Site, moves: seq<Move>, clock: nat -> int, ok: Rule): seq<A.Poll>
    decreases |moves|
  {
    if moves == [] then []
    else
      (if !Enabled(d, moves[0]) then []
       else if moves[0].PollEnds? then [PollAt(d.y, moves[0].i)]
       else if moves[0].PollFails? then [A.Failed] else [])
      + PollsIn(Moved(d, moves[0], clock, ok), moves[1..], clock, ok)
  }

  ghost predicate InsideCall(moves: seq<Move>) {
    forall i :: 0 <= i < |moves| ==> !moves[i].Call?
  }

  lemma {:induction false} CallOver(d: Site, moves: seq<Move>, clock: nat -> int, ok: Rule)
    requires (d.failed || d.phase == Free) && InsideCall(moves)
    ensures PollsIn(d, moves, clock, ok) == [] && MovedAll(d, moves, clock, ok).v == d.v
    decreases |moves|
  {
    if moves != [] {
      assert !moves[0].Call? && InsideCall(moves[1..]);
      CallOver(Moved(d, moves[0], clock, ok), moves[1..], clock, ok);
    }
  }

  /** What is left of the call where the object stands, given the polls to come. */
  function Remaining(d: Site, polls: seq<A.Poll>): A.Sent {
    match d.phase
    case Free => A.Null(d.v)
    case Heading(r, left) => A.Retried(d.v, r, left, polls)
    case Waiting(r, left) =>
      if left == 0 || polls == [] then A.Null(d.v)
      else
        var s := A.Polled(d.v, r, left, polls[0]);
        if s.Again? then A.Retried(s.v, r, left - 1, polls[1..]) else s
  }

  ghost predicate Under(d: Site) {
    !d.failed && d.phase != Free && d.phase.left > 0
  }

  ghost predicate Over(d: Site) {
    d.failed || d.phase == Free
  }

  /** A call that is polling ends only with a poll. */
  lemma {:induction false} PollsBeforeEnd(d: Site, moves: seq<Move>, clock: nat -> int, ok: Rule)
    requires Under(d) && d.phase.Waiting? && InsideCall(moves) && Over(MovedAll(d, moves, clock, ok))
    ensures PollsIn(d, moves, clock, ok) != []
    decreases |moves|
  {
    assert !moves[0].Call? && InsideCall(moves[1..]);
    var e := Moved(d, moves[0], clock, ok);
    if !(Enabled(d, moves[0]) && (moves[0].PollEnds? || moves[0].PollFails?)) {
      assert e.phase == d.phase;
      PollsBeforeEnd(e, moves[1..], clock, ok);
    }
  }

  lemma RemainingPoll(d: Site, mv: Move, rest: seq<A.Poll>, clock: nat -> int, ok: Rule)
    requires Under(d) && Enabled(d, mv) && (mv.PollEnds? || mv.PollFails?)
    requires Over(Moved(d, mv, clock, ok)) ==> rest == []
    ensures var e := Moved(d, mv, clock, ok); var p := if mv.PollEnds? then PollAt(d.y, mv.i) else A.Failed;
      && Remaining(d, [p] + rest).v == Remaining(e, rest).v
      && (if Over(e) then Remaining(d, [p] + rest).Crash? <==> e.failed
          else Remaining(d, [p] + rest) == Remaining(e, rest))
  {
    var p := if mv.PollEnds? then PollAt(d.y, mv.i) else A.Failed;
    assert ([p] + rest)[1..] == rest;
  }

  lemma RemainingOther(d: Site, mv: Move, ps: seq<A.Poll>, clock: nat -> int, ok: Rule)
    requires Under(d) && !mv.Call? && !(Enabled(d, mv) && (mv.PollEnds? || mv.PollFails?))
    requires (Enabled(d, mv) && mv.Try? ==> ps != []) && (Enabled(d, mv) && mv.Interrupt? ==> ps == [])
    ensures var e := Moved(d, mv, clock, ok);
      !e.failed && Remaining(d, ps).v == Remaining(e, ps).v && (Remaining(d, ps).Crash? <==> Remaining(e, ps).Crash?)
  {
  }

  /** The rest of a call of `mdcli_send`, on the polls the moves give it, leaves the object as the moves do,
      and aborts exactly when they do. */
  lemma {:induction false} LoopIsMoves(d: Site, moves: seq<Move>, clock: nat -> int, ok: Rule)
    requires Under(d) && InsideCall(moves) && Over(MovedAll(d, moves, clock, ok))
    ensures var s, e := Remaining(d, PollsIn(d, moves, clock, ok)), MovedAll(d, moves, clock, ok);
      s.v == e.v && (s.Crash? <==> e.failed)
    decreases |moves|
  {
    var mv, rest := moves[0], moves[1..];
    var e := Moved(d, mv, clock, ok);
    assert !mv.Call? && InsideCall(rest);
    var ps := PollsIn(e, rest, clock, ok);
    if Over(e) {
      CallOver(e, rest, clock, ok);
      OverStays(e, rest, clock, ok);
    } else {
      LoopIsMoves(e, rest, clock, ok);
    }
    if Enabled(d, mv) && (mv.PollEnds? || mv.PollFails?) {
      RemainingPoll(d, mv, ps, clock, ok);
    } else {
      if Enabled(d, mv) && mv.Try? { PollsBeforeEnd(e, rest, clock, ok); }
      RemainingOther(d, mv, ps, clock, ok);
      assert PollsIn(d, moves, clock, ok) == ps;
    }
  }

  lemma {:induction false} OverStays(d: Site, moves: seq<Move>, clock: nat -> int, ok: Rule)
    requires Over(d) && InsideCall(moves)
    ensures MovedAll(d, moves, clock, ok).failed == d.failed
    decreases |moves|
  {
    if moves != [] {
      assert !moves[0].Call? && InsideCall(moves[1..]);
      OverStays(Moved(d, moves[0], clock, ok), moves[1..], clock, ok);
    }
  }

  // ------------------------------------------------------------------ what the call returns

  /** The move delivers a reply the call returns. */
  predicate Delivers(d: Site, mv: Move) {
    Enabled(d, mv) && mv.PollEnds? && Outcome(d, mv).Answer?
  }

  /** What the call returns, if anything: the request it answers, and the reply. */
  function Brought(d: Site, moves: seq<Move>, clock: nat -> int, ok: Rule): Option<(Option<Request>, Msg)>
    decreases |moves|
  {
    if moves == [] then None
    else if Delivers(d, moves[0]) then
      Some((Owing(d.y.cs[d.id].calls), Outcome(d, moves[0]).reply))
    else Brought(Moved(d, moves[0], clock, ok), moves[1..], clock, ok)
  }

  lemma {:induction false} NothingMore(d: Site, moves: seq<Move>, clock: nat -> int, ok: Rule)
    requires Over(d) && InsideCall(moves)
    ensures Brought(d, moves, clock, ok) == None
    decreases |moves|
  {
    if moves != [] {
      assert !moves[0].Call? && InsideCall(moves[1..]);
      NothingMore(Moved(d, moves[0], clock, ok), moves[1..], clock, ok);
    }
  }

  /** The result of the call says the same as what was brought. */
  ghost predicate Reports(s: A.Sent, brought: Option<(Option<Request>, Msg)>) {
    (s.Answer? <==> brought.Some?) && (s.Answer? ==> s.reply == brought.value.1)
  }

  lemma DeliversNow(d: Site, mv: Move, ps: seq<A.Poll>, clock: nat -> int, ok: Rule)
    requires Under(d) && Enabled(d, mv) && (mv.PollEnds? || mv.PollFails?)
    ensures var p := if mv.PollEnds? then PollAt(d.y, mv.i) else A.Failed; var s := Outcome(d, mv);
      && Remaining(d, [p] + ps) == (if s.Again? then A.Retried(s.v, d.phase.r, d.phase.left - 1, ps) else s)
      && (Delivers(d, mv) <==> s.Answer?) && (Over(Moved(d, mv, clock, ok)) <==> !s.Again?)
      && (s.Again? ==> Remaining(Moved(d, mv, clock, ok), ps) == Remaining(d, [p] + ps))
  {
    var p := if mv.PollEnds? then PollAt(d.y, mv.i) else A.Failed;
    assert ([p] + ps)[1..] == ps;
  }

  lemma RemainingReports(d: Site, mv: Move, ps: seq<A.Poll>, clock: nat -> int, ok: Rule)
    requires Under(d) && !mv.Call? && !(Enabled(d, mv) && (mv.PollEnds? || mv.PollFails?))
    requires (Enabled(d, mv) && mv.Try? ==> ps != []) && (Enabled(d, mv) && mv.Interrupt? ==> ps == [])
    ensures var e := Moved(d, mv, clock, ok); var s, t := Remaining(d, ps), Remaining(e, ps);
      !Delivers(d, mv) && (s.Answer? <==> t.Answer?) && (s.Answer? ==> s.reply == t.reply)
  {
  }

  /** The rest of the call returns what the moves bring. */
  lemma {:induction false} LoopReturns(d: Site, moves: seq<Move>, clock: nat -> int, ok: Rule)
    requires Under(d) && InsideCall(moves) && Over(MovedAll(d, moves, clock, ok))
    ensures Reports(Remaining(d, PollsIn(d, moves, clock, ok)), Brought(d, moves, clock, ok))
    decreases |moves|
  {
    var mv, rest := moves[0], moves[1..];
    var e := Moved(d, mv, clock, ok);
    assert !mv.Call? && InsideCall(rest);
    var ps := PollsIn(e, rest, clock, ok);
    if Over(e) {
      CallOver(e, rest, clock, ok);
      NothingMore(e, rest, clock, ok);
    } else {
      LoopReturns(e, rest, clock, ok);
    }
    if Enabled(d, mv) && (mv.PollEnds? || mv.PollFails?) {
      DeliversNow(d, mv, ps, clock, ok);
    } else {
      if Enabled(d, mv) && mv.Try? { PollsBeforeEnd(e, rest, clock, ok); }
      RemainingReports(d, mv, ps, clock, ok);
      assert PollsIn(d, moves, clock, ok) == ps;
    }
  }

  /** The invariants of every reachable state. */
  ghost predicate Kept(y: System, ok: Rule) {
    SystemInv(y, ok) && forall c :: Books(y, c)
  }

  lemma {:induction false} StepsKept(y: System, steps: seq<Step>, clock: nat -> int, ok: Rule)
    requires Kept(y, ok)
    ensures Kept(ActAll(y, steps, clock, ok), ok)
  {
    if steps != [] {
      var pre, s := steps[..|steps| - 1], steps[|steps| - 1];
      StepsKept(y, pre, clock, ok);
      var z := ActAll(y, pre, clock, ok);
      ActInv(z, s, clock, ok);
      forall c ensures Books(Act(z, s, clock, ok), c) { BooksAct(z, s, clock, ok, c); }
    }
  }

  lemma MovedKept(d: Site, mv: Move, clock: nat -> int, ok: Rule)
    requires Kept(d.y, ok)
    ensures Kept(Moved(d, mv, clock, ok).y, ok)
  {
    if Enabled(d, mv) { StepsKept(d.y, StepsOf(d, mv), clock, ok); }
  }

  /** What is brought fits the request it answers, and that asked for the same service. */
  ghost predicate Fitting(brought: Option<(Option<Request>, Msg)>, service: Frame, ok: Rule) {
    brought.Some? ==>
      var (o, reply) := brought.value;
      o.Some? && o.value.service == service && Fits(o.value, reply, ok)
  }

  lemma DeliveredFits(d: Site, mv: Move, ok: Rule)
    requires Kept(d.y, ok) && Mirrors(d) && Delivers(d, mv)
    ensures Fitting(Some((Owing(d.y.cs[d.id].calls), Outcome(d, mv).reply)), d.phase.r.service, ok)
  {
    var m := d.y.b.sent[mv.i.value];
    assert Books(d.y, d.id);
    AnswersOwing(d.y, d.id, mv.i.value, ok);
    assert m[2..][2..] == m[4..] && m[2..][1] == m[3];
  }

  lemma {:induction false} BroughtFits(d: Site, service: Frame, moves: seq<Move>, clock: nat -> int, ok: Rule)
    requires Kept(d.y, ok) && Mirrors(d) && InsideCall(moves) && (d.phase == Free || d.phase.r.service == service)
    ensures Fitting(Brought(d, moves, clock, ok), service, ok)
    decreases |moves|
  {
    if moves != [] {
      var mv, rest := moves[0], moves[1..];
      var e := Moved(d, mv, clock, ok);
      assert !mv.Call? && InsideCall(rest) && Books(d.y, d.id);
      if Delivers(d, mv) {
        DeliveredFits(d, mv, ok);
      } else {
        FailsIffMismatch(d, mv, clock, ok);
        MovedKept(d, mv, clock, ok);
        if e.failed { NothingMore(e, rest, clock, ok); } else { BroughtFits(e, service, rest, clock, ok); }
      }
    }
  }

  /** A call of `mdcli_send` is the start of a call followed by the moves inside it, to its end: it leaves
      the object as they do, aborts exactly when they do, and returns a reply exactly when they bring one,
      and that one. */
  lemma SendIsMoves(d: Site, r: Request, moves: seq<Move>, clock: nat -> int, ok: Rule)
    requires Enabled(d, Call(r)) && InsideCall(moves)
    requires Over(MovedAll(Moved(d, Call(r), clock, ok), moves, clock, ok))
    ensures var e := Moved(d, Call(r), clock, ok);
      var s := A.Retried(d.v, r, d.v.retries, PollsIn(e, moves, clock, ok));
      && s.v == MovedAll(e, moves, clock, ok).v && (s.Crash? <==> MovedAll(e, moves, clock, ok).failed)
      && Reports(s, Brought(e, moves, clock, ok))
  {
    var e := Moved(d, Call(r), clock, ok);
    if d.v.retries == 0 {
      CallOver(e, moves, clock, ok);
      OverStays(e, moves, clock, ok);
      NothingMore(e, moves, clock, ok);
    } else {
      LoopIsMoves(e, moves, clock, ok);
      LoopReturns(e, moves, clock, ok);
    }
  }

  /** The reply `mdcli_send` returns, after anything the object and all others have done, fits the request
      its connection owed, and that asked for the same service. */
  lemma ReplyFits(start: seq<Step>, d: Site, r: Request, moves: seq<Move>, clock: nat -> int, ok: Rule)
    requires d.y == RunSystem(start, clock, ok) && Mirrors(d) && Enabled(d, Call(r)) && InsideCall(moves)
    ensures Fitting(Brought(Moved(d, Call(r), clock, ok), moves, clock, ok), r.service, ok)
  {
    ReachableInv(start, clock, ok);
    forall c ensures Books(d.y, c) { ReachableBooks(start, clock, ok, c); }
    FailsIffMismatch(d, Call(r), clock, ok);
    MovedKept(d, Call(r), clock, ok);
    BroughtFits(Moved(d, Call(r), clock, ok), r.service, moves, clock, ok);
  }
}
