/** What a program that calls `mdcli_send` time and again can rely on, read off its own calls and what
    they returned, whatever connections the client object went through. */
module MdpSessions {
  import opened Frames
  import opened MdpBroker
  import opened MdpInvariants
  import opened ClientCalls
  import opened MdpSystem
  import opened MdpDelivery
  import opened MdpStaging
  import opened MdpCaller
  import opened Options
  import A = MdpApi

  /** How a call ended: with a reply; without one after its last silent poll; interrupted; or with a poll
      that failed. `first` is whether that came with its first try. */
  datatype Ending = Replied(first: bool) | Unanswered | Interrupted(first: bool) | PollFailed(first: bool)

  datatype Visit = Visit(r: Request, ending: Ending)

  function Or(owed: Option<Request>, r: Request): Option<Request> {
    if owed.Some? then owed else Some(r)
  }

  /** The request whose reply may still come, after one more call; `n` is the number of tries. */
  function DebtNext(n: nat, owed: Option<Request>, v: Visit): Option<Request> {
    match v.ending
    case Replied(_) => None
    case Unanswered => if n == 0 then owed else if n == 1 then Or(owed, v.r) else Some(v.r)
    case Interrupted(first) => if first then owed else None
    case PollFailed(first) => if first then Or(owed, v.r) else Some(v.r)
  }

  function Debt(n: nat, owed: Option<Request>, vs: seq<Visit>): Option<Request>
    decreases |vs|
  {
    if vs == [] then owed else Debt(n, DebtNext(n, owed, vs[0]), vs[1..])
  }

  predicate Agrees(owed: Option<Request>, r: Request) {
    owed.None? || owed.value.service == r.service
  }

  /** A call can end like that: on its first try a reply must be for the service asked for. */
  predicate CanEnd(n: nat, owed: Option<Request>, v: Visit) {
    && Askable(v.r)
    && match v.ending
       case Replied(first) => if first then n > 0 && Agrees(owed, v.r) else n > 1
       case Unanswered => true
       case Interrupted(first) => if first then n > 0 else n > 1
       case PollFailed(first) => if first then n > 0 else n > 1
  }

  predicate Possible(n: nat, owed: Option<Request>, vs: seq<Visit>)
    decreases |vs|
  {
    vs == [] || (CanEnd(n, owed, vs[0]) && Possible(n, DebtNext(n, owed, vs[0]), vs[1..]))
  }

  /** The call that the move ends, if it ends one. */
  function EndingOf(d: Site, mv: Move): seq<Visit> {
    if !Enabled(d, mv) then []
    else
      match mv
      case Call(r) => if d.v.retries == 0 then [Visit(r, Unanswered)] else []
      case Interrupt => [Visit(d.phase.r, Interrupted(d.phase.left == d.v.retries))]
      case PollFails => [Visit(d.phase.r, PollFailed(d.phase.left == d.v.retries))]
      case PollEnds(_, _) =>
        var s := Outcome(d, mv);
        if s.Answer? then [Visit(d.phase.r, Replied(d.phase.left == d.v.retries))]
        else if s.Null? then [Visit(d.phase.r, Unanswered)] else []
      case _ => []
  }

  /** The calls that end in the course of the moves. */
  function Visits(d: Site, moves: seq<Move>, clock: nat -> int, ok: Rule): seq<Visit>
    decreases |moves|
  {
    if moves == [] then []
    else EndingOf(d, moves[0]) + Visits(Moved(d, moves[0], clock, ok), moves[1..], clock, ok)
  }

  // --------------------------------------------- the debt is what the connection in use owes

  /** Where the object stands, its connection owes what the calls so far and the one going on say. */
  ghost predicate Tracks(d: Site, owed: Option<Request>) {
    && d.id in d.y.cs
    && var o := Owing(d.y.cs[d.id].calls);
       match d.phase
       case Free => o == owed
       case Heading(_, left) => left <= d.v.retries && o == if left == d.v.retries then owed else None
       case Waiting(r, left) => left <= d.v.retries && o == if left == d.v.retries then Or(owed, r) else Some(r)
  }

  /** The debt after a move that ends at most one call. */
  function After(n: nat, owed: Option<Request>, vs: seq<Visit>): Option<Request> {
    if |vs| == 1 then DebtNext(n, owed, vs[0]) else owed
  }

  lemma CallsSame(y: System, step: Step, id: Id, clock: nat -> int, ok: Rule)
    requires id in y.cs && !Owns(step, id)
    ensures id in Act(y, step, clock, ok).cs && Act(y, step, clock, ok).cs[id].calls == y.cs[id].calls
  {
  }

  lemma TracksOther(d: Site, step: Step, owed: Option<Request>, clock: nat -> int, ok: Rule)
    requires Tracks(d, owed) && Enabled(d, Other(step))
    ensures Tracks(Moved(d, Other(step), clock, ok), owed)
  {
    OneStep(d.y, step, clock, ok);
    CallsSame(d.y, step, d.id, clock, ok);
  }

  lemma TracksTry(d: Site, owed: Option<Request>, clock: nat -> int, ok: Rule)
    requires Mirrors(d) && Tracks(d, owed) && d.phase.Heading?
    ensures Tracks(Moved(d, Try, clock, ok), owed)
  {
    OneStep(d.y, Submit(d.id, d.phase.r), clock, ok);
    OwingAppend(d.y.cs[d.id].calls, Asked(d.phase.r));
  }

  lemma AbandonOwes(y: System, id: Id, clock: nat -> int, ok: Rule)
    requires id in y.cs && Current(y.cs[id].calls).Some?
    ensures var z := Act(y, Abandon(id), clock, ok); id in z.cs && Owing(z.cs[id].calls) == Owing(y.cs[id].calls)
  {
    OwingAppend(y.cs[id].calls, GaveUp);
  }

  lemma TracksSilent(d: Site, mv: Move, owed: Option<Request>, clock: nat -> int, ok: Rule)
    requires Mirrors(d) && Tracks(d, owed) && Enabled(d, mv) && (mv.PollFails? || (mv.PollEnds? && mv.i.None?))
    ensures Tracks(Moved(d, mv, clock, ok), After(d.v.retries, owed, EndingOf(d, mv)))
    ensures |EndingOf(d, mv)| == 1 ==> CanEnd(d.v.retries, owed, EndingOf(d, mv)[0])
  {
    AbandonOwes(d.y, d.id, clock, ok);
    if mv.PollEnds? && d.phase.left > 1 {
      TwoSteps(d.y, Abandon(d.id), NewClient(mv.newId), clock, ok);
    } else {
      OneStep(d.y, Abandon(d.id), clock, ok);
    }
  }

  lemma DeliverOwes(y: System, id: Id, i: nat, clock: nat -> int, ok: Rule)
    requires Facing(y, id, i)
    ensures var z := Act(y, Deliver(id, i), clock, ok); id in z.cs && Owing(z.cs[id].calls) == None
  {
    OwingAppend(y.cs[id].calls, Served);
    OwingAppend(y.cs[id].calls, Crashed);
  }

  lemma ReplyEnds(d: Site, mv: Move, owed: Option<Request>, ok: Rule)
    requires Kept(d.y, ok) && Mirrors(d) && Tracks(d, owed) && Enabled(d, mv) && mv.PollEnds? && mv.i.Some?
    ensures var s := Outcome(d, mv);
      && (s.Answer? || s.Crash?)
      && (s.Answer? ==> CanEnd(d.v.retries, owed, Visit(d.phase.r, Replied(d.phase.left == d.v.retries))))
  {
    assert Books(d.y, d.id);
    AnswersOwing(d.y, d.id, mv.i.value, ok);
    assert d.y.b.sent[mv.i.value][2..][1] == d.y.b.sent[mv.i.value][3];
  }

  lemma TracksReply(d: Site, mv: Move, owed: Option<Request>, clock: nat -> int, ok: Rule)
    requires Kept(d.y, ok) && Mirrors(d) && Tracks(d, owed) && Enabled(d, mv) && mv.PollEnds? && mv.i.Some?
    ensures var e, vs := Moved(d, mv, clock, ok), EndingOf(d, mv);
      if e.failed then vs == []
      else |vs| == 1 && CanEnd(d.v.retries, owed, vs[0]) && Tracks(e, DebtNext(d.v.retries, owed, vs[0]))
  {
    ReplyEnds(d, mv, owed, ok);
    OneStep(d.y, Deliver(d.id, mv.i.value), clock, ok);
    DeliverOwes(d.y, d.id, mv.i.value, clock, ok);
  }

  lemma TracksNext(d: Site, mv: Move, owed: Option<Request>, clock: nat -> int, ok: Rule)
    requires Kept(d.y, ok) && Mirrors(d) && Tracks(d, owed)
    ensures var e, vs := Moved(d, mv, clock, ok), EndingOf(d, mv);
      && |vs| <= 1 && (e.failed ==> vs == []) && e.v.retries == d.v.retries
      && (!e.failed ==> Tracks(e, After(d.v.retries, owed, vs)))
      && (|vs| == 1 ==> CanEnd(d.v.retries, owed, vs[0]))
  {
    if Enabled(d, mv) {
      match mv
      case Other(step) => TracksOther(d, step, owed, clock, ok);
      case Call(_) =>
      case Try => TracksTry(d, owed, clock, ok);
      case Interrupt =>
      case PollFails => TracksSilent(d, mv, owed, clock, ok);
      case PollEnds(i, _) =>
        if i.Some? { TracksReply(d, mv, owed, clock, ok); } else { TracksSilent(d, mv, owed, clock, ok); }
    }
  }

  /** Along any moves the debt is what the connection in use owes, and every call ended as it can. */
  lemma {:induction false} TracksAll(d: Site, moves: seq<Move>, owed: Option<Request>, clock: nat -> int, ok: Rule)
    requires Kept(d.y, ok) && Mirrors(d) && Tracks(d, owed)
    ensures var n, e, vs := d.v.retries, MovedAll(d, moves, clock, ok), Visits(d, moves, clock, ok);
      && Possible(n, owed, vs) && e.v.retries == n
      && (!e.failed ==> Kept(e.y, ok) && Mirrors(e) && Tracks(e, Debt(n, owed, vs)))
    decreases |moves|
  {
    if moves != [] {
      var mv, rest := moves[0], moves[1..];
      var e, vs := Moved(d, mv, clock, ok), EndingOf(d, mv);
      assert Books(d.y, d.id);
      TracksNext(d, mv, owed, clock, ok);
      if e.failed {
        FailedVisits(e, rest, clock, ok);
        assert vs + [] == [];
      } else {
        FailsIffMismatch(d, mv, clock, ok);
        MovedKept(d, mv, clock, ok);
        var more := Visits(e, rest, clock, ok);
        TracksAll(e, rest, After(d.v.retries, owed, vs), clock, ok);
        if |vs| == 1 { assert (vs + more)[1..] == more; } else { assert vs + more == more; }
      }
    }
  }

  lemma {:induction false} FailedVisits(d: Site, moves: seq<Move>, clock: nat -> int, ok: Rule)
    requires d.failed
    ensures MovedAll(d, moves, clock, ok) == d && Visits(d, moves, clock, ok) == []
    decreases |moves|
  {
    if moves != [] { FailedVisits(d, moves[1..], clock, ok); }
  }

  // ------------------------------------------------------------------- a call that is safe

  lemma {:induction false} InCallSafe(d: Site, r: Request, moves: seq<Move>, owed: Option<Request>,
                                      clock: nat -> int, ok: Rule)
    requires Kept(d.y, ok) && Mirrors(d) && Tracks(d, owed) && Agrees(owed, r) && InsideCall(moves)
    requires d.phase == Free || d.phase.r == r
    ensures !MovedAll(d, moves, clock, ok).failed
    decreases |moves|
  {
    if d.phase == Free {
      OverStays(d, moves, clock, ok);
    } else if moves != [] {
      var mv := moves[0];
      assert !mv.Call? && InsideCall(moves[1..]) && Books(d.y, d.id);
      FailsIffMismatch(d, mv, clock, ok);
      TracksNext(d, mv, owed, clock, ok);
      MovedKept(d, mv, clock, ok);
      var e := Moved(d, mv, clock, ok);
      if e.phase == Free {
        OverStays(e, moves[1..], clock, ok);
      } else {
        InCallSafe(e, r, moves[1..], owed, clock, ok);
      }
    }
  }

  /** A call that asks for the service owed, or that nothing is owed before, never fails. */
  lemma CallSafe(d: Site, r: Request, moves: seq<Move>, owed: Option<Request>, clock: nat -> int, ok: Rule)
    requires Kept(d.y, ok) && Mirrors(d) && Tracks(d, owed) && d.phase == Free && InsideCall(moves)
    requires d.v.retries == 0 || Agrees(owed, r)
    ensures !MovedAll(Moved(d, Call(r), clock, ok), moves, clock, ok).failed
  {
    var e := Moved(d, Call(r), clock, ok);
    assert Books(d.y, d.id);
    FailsIffMismatch(d, Call(r), clock, ok);
    TracksNext(d, Call(r), owed, clock, ok);
    MovedKept(d, Call(r), clock, ok);
    if e.phase == Free { OverStays(e, moves, clock, ok); } else { InCallSafe(e, r, moves, owed, clock, ok); }
  }

  // ------------------------------------------------------ a run for every possible session

  /** The moves lead from `d` to `e`, and in their course the calls `vs` end. */
  ghost predicate Goes(d: Site, moves: seq<Move>, e: Site, vs: seq<Visit>) {
    MovedAll(d, moves, Still, Echo) == e && Visits(d, moves, Still, Echo) == vs
  }

  lemma {:induction false} MovedJoin(d: Site, a: seq<Move>, b: seq<Move>)
    ensures MovedAll(d, a + b, Still, Echo) == MovedAll(MovedAll(d, a, Still, Echo), b, Still, Echo)
    decreases |a|
  {
    if a == [] {
      assert a + b == b;
    } else {
      assert (a + b)[0] == a[0] && (a + b)[1..] == a[1..] + b;
      MovedJoin(Moved(d, a[0], Still, Echo), a[1..], b);
    }
  }

  lemma {:induction false} VisitsJoin(d: Site, a: seq<Move>, b: seq<Move>)
    ensures Visits(d, a + b, Still, Echo) ==
            Visits(d, a, Still, Echo) + Visits(MovedAll(d, a, Still, Echo), b, Still, Echo)
    decreases |a|
  {
    if a == [] {
      assert a + b == b;
    } else {
      assert (a + b)[0] == a[0] && (a + b)[1..] == a[1..] + b;
      VisitsJoin(Moved(d, a[0], Still, Echo), a[1..], b);
    }
  }

  lemma GoesOn(d: Site, a: seq<Move>, e: Site, vs: seq<Visit>, b: seq<Move>, f: Site, ws: seq<Visit>)
    requires Goes(d, a, e, vs) && Goes(e, b, f, ws)
    ensures Goes(d, a + b, f, vs + ws)
  {
    MovedJoin(d, a, b);
    VisitsJoin(d, a, b);
  }

  lemma GoesOne(d: Site, mv: Move)
    ensures Goes(d, [mv], Moved(d, mv, Still, Echo), EndingOf(d, mv))
  {
    assert [mv][1..] == [] && EndingOf(d, mv) + [] == EndingOf(d, mv);
    assert MovedAll(Moved(d, mv, Still, Echo), [], Still, Echo) == Moved(d, mv, Still, Echo);
  }

  /** Steps of others that open no client connection. */
  ghost predicate Foreign(steps: seq<Step>, id: Id) {
    forall i :: 0 <= i < |steps| ==> !Owns(steps[i], id) && !steps[i].NewClient?
  }

  function Others(steps: seq<Step>): (m: seq<Move>)
    ensures |m| == |steps| && forall i :: 0 <= i < |m| ==> m[i] == Other(steps[i])
  {
    if steps == [] then [] else Others(steps[..|steps| - 1]) + [Other(steps[|steps| - 1])]
  }

  lemma SameClients(y: System, step: Step)
    requires !step.NewClient?
    ensures Act(y, step, Still, Echo).cs.Keys == y.cs.Keys
  {
  }

  lemma {:induction false} OthersGo(d: Site, steps: seq<Step>)
    requires Mirrors(d) && Foreign(steps, d.id)
    ensures var e := d.(y := ActAll(d.y, steps, Still, Echo));
      Goes(d, Others(steps), e, []) && Mirrors(e) && e.y.cs.Keys == d.y.cs.Keys
  {
    if steps != [] {
      var pre, s := steps[..|steps| - 1], steps[|steps| - 1];
      assert Foreign(pre, d.id) && !Owns(s, d.id) && !s.NewClient?;
      OthersGo(d, pre);
      var e := d.(y := ActAll(d.y, pre, Still, Echo));
      OneStep(e.y, s, Still, Echo);
      OtherMirrors(e, s, Still, Echo);
      SameClients(e.y, s);
      GoesOne(e, Other(s));
      GoesOn(d, Others(pre), e, [], [Other(s)], Moved(e, Other(s), Still, Echo), []);
    }
  }

  /** The object in a calm system, with what its connection is owed at hand, and no longer name in use. */
  ghost predicate Ready(d: Site) {
    && Mirrors(d) && Staged(d.y, d.id, d.y.cs[d.id].calls) && ClientName(d.id)
    && forall x :: x in d.y.cs ==> |x| <= |d.id|
  }

  /** The steps before and behind the call itself in what leads to it. */
  function Ahead(y: System, h: seq<CallEvent>, r: Request): seq<Step> {
    if Owing(h).Some? || StartsMmi(r.service) then [] else Staffing(y, r.service)
  }

  function Behind(y: System, c: Id, h: seq<CallEvent>, r: Request): seq<Step> {
    if Owing(h).Some? then []
    else if StartsMmi(r.service) then [TakeClient(c)]
    else
      var w := Server(r.service);
      [TakeClient(c), Receive(w, |y.b.sent|), Answer(w, r.body), TakeWorker(w, 0)]
  }

  lemma NextActSplit(y: System, c: Id, h: seq<CallEvent>, r: Request)
    ensures NextAct(y, c, h, Asked(r)) == Ahead(y, h, r) + ([Submit(c, r)] + Behind(y, c, h, r))
    ensures Foreign(Ahead(y, h, r), c) && Foreign(Behind(y, c, h, r), c)
  {
  }

  lemma TryMoves(d: Site)
    requires Mirrors(d) && d.phase.Heading?
    ensures var e := d.(y := Act(d.y, Submit(d.id, d.phase.r), Still, Echo), v := A.Tried(d.v, d.phase.r),
                        phase := Waiting(d.phase.r, d.phase.left));
      Goes(d, [Try], e, []) && Mirrors(e) && e.y.cs.Keys == d.y.cs.Keys
  {
    OneStep(d.y, Submit(d.id, d.phase.r), Still, Echo);
    TryMirrors(d, Still, Echo);
    SameClients(d.y, Submit(d.id, d.phase.r));
    GoesOne(d, Try);
  }

  lemma AmongSteps(y: System, pre: seq<Step>, s: Step, post: seq<Step>)
    ensures ActAll(y, pre + ([s] + post), Still, Echo) ==
            ActAll(Act(ActAll(y, pre, Still, Echo), s, Still, Echo), post, Still, Echo)
  {
    var y1 := ActAll(y, pre, Still, Echo);
    OneStep(y1, s, Still, Echo);
    ActAllJoin(y1, [s], post, Still, Echo);
    ActAllJoin(y, pre, [s] + post, Still, Echo);
  }

  lemma TryIs(d: Site, pre: seq<Step>, post: seq<Step>) returns (moves: seq<Move>, e: Site)
    requires Mirrors(d) && d.phase.Heading? && Foreign(pre, d.id) && Foreign(post, d.id)
    ensures Goes(d, moves, e, []) && Mirrors(e) && InsideCall(moves)
    ensures e == d.(y := ActAll(d.y, pre + ([Submit(d.id, d.phase.r)] + post), Still, Echo),
                    v := A.Tried(d.v, d.phase.r), phase := Waiting(d.phase.r, d.phase.left))
    ensures e.y.cs.Keys == d.y.cs.Keys
  {
    var sub := Submit(d.id, d.phase.r);
    OthersGo(d, pre);
    var d1 := d.(y := ActAll(d.y, pre, Still, Echo));
    TryMoves(d1);
    var d2 := d1.(y := Act(d1.y, sub, Still, Echo), v := A.Tried(d.v, d.phase.r),
                  phase := Waiting(d.phase.r, d.phase.left));
    OthersGo(d2, post);
    e := d2.(y := ActAll(d2.y, post, Still, Echo));
    moves := ThreeGo(d, Others(pre), d1, [Try], d2, Others(post), e);
    AmongSteps(d.y, pre, sub, post);
  }

  lemma ThreeGo(d: Site, a: seq<Move>, d1: Site, b: seq<Move>, d2: Site, c: seq<Move>, e: Site)
      returns (moves: seq<Move>)
    requires Goes(d, a, d1, []) && Goes(d1, b, d2, []) && Goes(d2, c, e, [])
    ensures Goes(d, moves, e, []) && (InsideCall(a) && InsideCall(b) && InsideCall(c) ==> InsideCall(moves))
  {
    GoesOn(d1, b, d2, [], c, e, []);
    GoesOn(d, a, d1, [], b + c, e, []);
    moves := a + (b + c);
  }

  /** A try: what the connection then owes is at hand. */
  lemma TryReady(d: Site) returns (moves: seq<Move>, e: Site)
    requires Ready(d) && d.phase.Heading?
    ensures Goes(d, moves, e, []) && Ready(e) && InsideCall(moves) && e.phase == Waiting(d.phase.r, d.phase.left)
    ensures e.v.retries == d.v.retries && e.id == d.id
    ensures Owing(e.y.cs[e.id].calls) == Or(Owing(d.y.cs[d.id].calls), d.phase.r)
  {
    var h, r := d.y.cs[d.id].calls, d.phase.r;
    NextActSplit(d.y, d.id, h, r);
    AskStaged(d.y, d.id, h, r);
    moves, e := TryIs(d, Ahead(d.y, h, r), Behind(d.y, d.id, h, r));
    OwingAppend(h, Asked(r));
  }

  /** What the two steps of a redial make of a calm system. */
  lemma RedialStaged(y: System, c: Id, newId: Id)
    requires c in y.cs && Staged(y, c, y.cs[c].calls) && Current(y.cs[c].calls).Some?
    requires ClientName(newId) && newId !in y.cs
    ensures newId !in y.ws
    ensures var z := Act(Act(y, Abandon(c), Still, Echo), NewClient(newId), Still, Echo);
      Staged(z, newId, []) && z.cs.Keys == y.cs.Keys + {newId}
  {
    AbandonStaged(y, c, y.cs[c].calls);
    OneStep(y, Abandon(c), Still, Echo);
    NewcomerStaged(Act(y, Abandon(c), Still, Echo), newId);
  }

  lemma RedialIs(d: Site, newId: Id)
    requires Mirrors(d) && d.phase.Waiting? && d.phase.left > 1 && Unused(d.y, newId)
    ensures var z := Act(Act(d.y, Abandon(d.id), Still, Echo), NewClient(newId), Still, Echo);
      && Moved(d, PollEnds(None, newId), Still, Echo) ==
         Site(z, A.Redialed(d.v), newId, Heading(d.phase.r, d.phase.left - 1), false)
      && EndingOf(d, PollEnds(None, newId)) == []
  {
    TwoSteps(d.y, Abandon(d.id), NewClient(newId), Still, Echo);
  }

  /** A silent poll with tries left: a new connection, on which nothing is owed. */
  lemma RedialReady(d: Site) returns (mv: Move)
    requires Ready(d) && d.phase.Waiting? && d.phase.left > 1
    ensures var e := Moved(d, mv, Still, Echo);
      && !mv.Call? && EndingOf(d, mv) == [] && Ready(e) && e.phase == Heading(d.phase.r, d.phase.left - 1)
      && e.v.retries == d.v.retries && Owing(e.y.cs[e.id].calls) == None
  {
    var newId := d.id + "c";
    mv := PollEnds(None, newId);
    RedialStaged(d.y, d.id, newId);
    RedialIs(d, newId);
    PollSilent(d, newId, Still, Echo);
  }

  lemma GiveUpIs(d: Site, mv: Move)
    requires Mirrors(d) && d.phase.Waiting? && (mv == PollFails || (mv == PollEnds(None, "") && d.phase.left == 1))
    ensures Moved(d, mv, Still, Echo) == d.(y := Act(d.y, Abandon(d.id), Still, Echo), phase := Free)
    ensures Mirrors(Moved(d, mv, Still, Echo)) && |EndingOf(d, mv)| == 1 && EndingOf(d, mv)[0].r == d.phase.r
    ensures EndingOf(d, mv)[0].ending ==
            if mv.PollFails? then PollFailed(d.phase.left == d.v.retries) else Unanswered
  {
    OneStep(d.y, Abandon(d.id), Still, Echo);
    GiveUpMirrors(d, Still, Echo);
  }

  lemma AbandonedStaged(y: System, c: Id)
    requires c in y.cs && Staged(y, c, y.cs[c].calls) && Current(y.cs[c].calls).Some?
    ensures var z := Act(y, Abandon(c), Still, Echo);
      && z.cs.Keys == y.cs.Keys && Staged(z, c, z.cs[c].calls)
      && Owing(z.cs[c].calls) == Owing(y.cs[c].calls)
  {
    AbandonStaged(y, c, y.cs[c].calls);
    OneStep(y, Abandon(c), Still, Echo);
    OwingAppend(y.cs[c].calls, GaveUp);
  }

  /** The last silent poll, or a failed one: the call is given up on the connection in use. */
  lemma GiveUpReady(d: Site, mv: Move)
    requires Ready(d) && d.phase.Waiting? && (mv == PollFails || (mv == PollEnds(None, "") && d.phase.left == 1))
    ensures var e, vs := Moved(d, mv, Still, Echo), EndingOf(d, mv);
      && |vs| == 1 && vs[0].r == d.phase.r
      && vs[0].ending == (if mv.PollFails? then PollFailed(d.phase.left == d.v.retries) else Unanswered)
      && Ready(e) && e.phase == Free && e.v.retries == d.v.retries
      && Owing(e.y.cs[e.id].calls) == Owing(d.y.cs[d.id].calls)
  {
    GiveUpIs(d, mv);
    AbandonedStaged(d.y, d.id);
  }

  /** What a call is owed is there for it. */
  lemma ReadyFaces(d: Site) returns (i: nat)
    requires Ready(d) && d.phase.Waiting?
    ensures Facing(d.y, d.id, i) && i == |d.y.b.sent| - 1 && Owing(d.y.cs[d.id].calls).Some?
  {
    OwingInCall(d.y.cs[d.id].calls);
    i := |d.y.b.sent| - 1;
  }

  lemma DeliverIs(d: Site, i: nat)
    requires SystemInv(d.y, Echo) && Books(d.y, d.id) && Mirrors(d) && d.phase.Waiting? && Facing(d.y, d.id, i)
    requires Agrees(Owing(d.y.cs[d.id].calls), d.phase.r)
    ensures var mv := PollEnds(Some(i), "");
      && Moved(d, mv, Still, Echo) ==
         d.(y := Act(d.y, Deliver(d.id, i), Still, Echo), v := d.v.(awaiting := false), phase := Free)
      && Mirrors(Moved(d, mv, Still, Echo))
      && EndingOf(d, mv) == [Visit(d.phase.r, Replied(d.phase.left == d.v.retries))]
  {
    OneStep(d.y, Deliver(d.id, i), Still, Echo);
    PollGot(d, i, "", Still, Echo);
    PolledPasses(d, i, Echo);
  }

  lemma DeliverCalls(y: System, c: Id, i: nat)
    requires SystemInv(y, Echo) && Books(y, c) && Facing(y, c, i)
    requires SameService(Owing(y.cs[c].calls), Current(y.cs[c].calls))
    ensures var z, h := Act(y, Deliver(c, i), Still, Echo), y.cs[c].calls;
      && z.cs.Keys == y.cs.Keys && z.cs[c].calls == h + [Served] && Proper(h + [Served])
      && Owing(h + [Served]) == None
  {
    var h := y.cs[c].calls;
    AnswersOwing(y, c, i, Echo);
    OwingAppend(h, Served);
    assert (h + [Served])[..|h|] == h;
  }

  lemma DeliveredStaged(y: System, c: Id, i: nat)
    requires c in y.cs && Staged(y, c, y.cs[c].calls) && Facing(y, c, i) && i == |y.b.sent| - 1
    requires SameService(Owing(y.cs[c].calls), Current(y.cs[c].calls))
    ensures var z := Act(y, Deliver(c, i), Still, Echo);
      z.cs.Keys == y.cs.Keys && Staged(z, c, z.cs[c].calls) && Owing(z.cs[c].calls) == None
  {
    DeliverCalls(y, c, i);
    DeliverStaged(y, c, y.cs[c].calls, Served);
    OneStep(y, Deliver(c, i), Still, Echo);
    assert NextAct(y, c, y.cs[c].calls, Served) == [Deliver(c, i)];
  }

  lemma ReplyReady(d: Site) returns (mv: Move)
    requires Ready(d) && d.phase.Waiting? && Agrees(Owing(d.y.cs[d.id].calls), d.phase.r)
    ensures var e := Moved(d, mv, Still, Echo);
      && EndingOf(d, mv) == [Visit(d.phase.r, Replied(d.phase.left == d.v.retries))]
      && Ready(e) && e.phase == Free && e.v.retries == d.v.retries && Owing(e.y.cs[e.id].calls) == None
  {
    var i := ReadyFaces(d);
    mv := PollEnds(Some(i), "");
    DeliverIs(d, i);
    DeliveredStaged(d.y, d.id, i);
  }

  /** Silent tries, down to `left`. */
  lemma {:induction false} Descend(d: Site, left: nat) returns (moves: seq<Move>, e: Site)
    requires Ready(d) && d.phase.Heading? && 0 < left < d.phase.left
    ensures Goes(d, moves, e, []) && Ready(e) && e.phase == Heading(d.phase.r, left)
    ensures e.v.retries == d.v.retries && Owing(e.y.cs[e.id].calls) == None
    decreases d.phase.left
  {
    var a, d1 := TryReady(d);
    var mv := RedialReady(d1);
    e := Moved(d1, mv, Still, Echo);
    GoesOne(d1, mv);
    GoesOn(d, a, d1, [], [mv], e, []);
    moves := a + [mv];
    if e.phase.left > left {
      var d2 := e;
      var b;
      b, e := Descend(d2, left);
      GoesOn(d, moves, d2, [], b, e, []);
      moves := moves + b;
    }
  }

  lemma CallReady(d: Site, r: Request)
    requires Ready(d) && d.phase == Free && Askable(r)
    ensures var e := Moved(d, Call(r), Still, Echo);
      && e == d.(phase := if d.v.retries == 0 then Free else Heading(r, d.v.retries)) && Ready(e)
      && EndingOf(d, Call(r)) == if d.v.retries == 0 then [Visit(r, Unanswered)] else []
  {
    assert ActAll(d.y, [], Still, Echo) == d.y;
  }

  /** A call comes to its loop head with `left` tries to go. */
  lemma ToHead(d: Site, r: Request, left: nat) returns (moves: seq<Move>, e: Site)
    requires Ready(d) && d.phase == Free && Askable(r) && 0 < left <= d.v.retries
    ensures Goes(d, moves, e, []) && Ready(e) && e.phase == Heading(r, left) && e.v.retries == d.v.retries
    ensures Owing(e.y.cs[e.id].calls) == if left == d.v.retries then Owing(d.y.cs[d.id].calls) else None
  {
    CallReady(d, r);
    GoesOne(d, Call(r));
    moves, e := [Call(r)], Moved(d, Call(r), Still, Echo);
    if left < d.v.retries {
      var d1 := e;
      var a;
      a, e := Descend(d1, left);
      GoesOn(d, moves, d1, [], a, e, []);
      moves := moves + a;
    }
  }

  lemma InterruptReady(d: Site)
    requires Ready(d) && d.phase.Heading?
    ensures var e := Moved(d, Interrupt, Still, Echo);
      && e == d.(phase := Free) && Ready(e)
      && EndingOf(d, Interrupt) == [Visit(d.phase.r, Interrupted(d.phase.left == d.v.retries))]
  {
    assert ActAll(d.y, [], Still, Echo) == d.y;
  }

  /** Between calls, with `n` tries a call, and `owed` owed on the connection in use. */
  ghost predicate Rested(d: Site, n: nat, owed: Option<Request>) {
    Ready(d) && d.phase == Free && d.v.retries == n && Owing(d.y.cs[d.id].calls) == owed
  }

  /** A try, and then its poll, which ends the call. */
  lemma TryEnds(d: Site, ending: Ending) returns (moves: seq<Move>, e: Site)
    requires Ready(d) && d.phase.Heading? && !ending.Interrupted?
    requires if ending.Unanswered? then d.phase.left == 1 else ending.first == (d.phase.left == d.v.retries)
    requires ending.Replied? ==> Agrees(Owing(d.y.cs[d.id].calls), d.phase.r)
    ensures Goes(d, moves, e, [Visit(d.phase.r, ending)])
    ensures Rested(e, d.v.retries, if ending.Replied? then None else Or(Owing(d.y.cs[d.id].calls), d.phase.r))
  {
    var a, d1 := TryReady(d);
    var mv := if ending.PollFailed? then PollFails else PollEnds(None, "");
    if ending.Replied? { mv := ReplyReady(d1); } else { GiveUpReady(d1, mv); }
    e := Moved(d1, mv, Still, Echo);
    moves := LastMove(d, a, d1, mv, Visit(d.phase.r, ending));
  }

  lemma LastMove(d: Site, a: seq<Move>, d1: Site, mv: Move, v: Visit) returns (moves: seq<Move>)
    requires Goes(d, a, d1, []) && |EndingOf(d1, mv)| == 1 && EndingOf(d1, mv)[0] == v
    ensures Goes(d, moves, Moved(d1, mv, Still, Echo), [v])
  {
    GoesOne(d1, mv);
    GoesOn(d, a, d1, [], [mv], Moved(d1, mv, Still, Echo), EndingOf(d1, mv));
    moves := a + [mv];
    assert [] + EndingOf(d1, mv) == [v];
  }

  /** From the loop head the call ends in the way wanted. */
  lemma EndFrom(d: Site, ending: Ending) returns (moves: seq<Move>, e: Site)
    requires Ready(d) && d.phase.Heading?
    requires if ending.Unanswered? then d.phase.left == 1 else ending.first == (d.phase.left == d.v.retries)
    requires ending.Replied? ==> Agrees(Owing(d.y.cs[d.id].calls), d.phase.r)
    ensures Goes(d, moves, e, [Visit(d.phase.r, ending)])
    ensures Rested(e, d.v.retries,
                   match ending { case Replied(_) => None
                                  case Interrupted(_) => Owing(d.y.cs[d.id].calls)
                                  case _ => Or(Owing(d.y.cs[d.id].calls), d.phase.r) })
  {
    if ending.Interrupted? {
      InterruptReady(d);
      GoesOne(d, Interrupt);
      moves, e := [Interrupt], Moved(d, Interrupt, Still, Echo);
    } else {
      moves, e := TryEnds(d, ending);
    }
  }

  /** How many tries are to go when the call ends. */
  function LeftAt(n: nat, ending: Ending): int {
    if ending.Unanswered? then 1 else if ending.first then n else n - 1
  }

  /** Any call that can end like that does so in some run. */
  lemma VisitGoes(d: Site, n: nat, owed: Option<Request>, v: Visit) returns (moves: seq<Move>, e: Site)
    requires Rested(d, n, owed) && CanEnd(n, owed, v)
    ensures Goes(d, moves, e, [v]) && Rested(e, n, DebtNext(n, owed, v))
  {
    if n == 0 {
      CallReady(d, v.r);
      GoesOne(d, Call(v.r));
      moves, e := [Call(v.r)], Moved(d, Call(v.r), Still, Echo);
    } else {
      var a, d1 := ToHead(d, v.r, LeftAt(n, v.ending));
      var b;
      b, e := EndFrom(d1, v.ending);
      GoesOn(d, a, d1, [], b, e, [v]);
      moves := a + b;
      assert [] + [v] == [v];
    }
  }

  lemma OneMoreCall(d: Site, a: seq<Move>, d1: Site, b: seq<Move>, e: Site, vs: seq<Visit>)
      returns (moves: seq<Move>)
    requires vs != [] && Goes(d, a, d1, [vs[0]]) && Goes(d1, b, e, vs[1..])
    ensures Goes(d, moves, e, vs)
  {
    GoesOn(d, a, d1, [vs[0]], b, e, vs[1..]);
    moves := a + b;
    assert [vs[0]] + vs[1..] == vs;
  }

  lemma {:induction false} SessionGoes(d: Site, n: nat, owed: Option<Request>, vs: seq<Visit>)
      returns (moves: seq<Move>, e: Site)
    requires Rested(d, n, owed) && Possible(n, owed, vs)
    ensures Goes(d, moves, e, vs) && Rested(e, n, Debt(n, owed, vs))
    decreases |vs|
  {
    if vs == [] {
      moves, e := [], d;
    } else {
      var v, rest := vs[0], vs[1..];
      assert Debt(n, owed, vs) == Debt(n, DebtNext(n, owed, v), rest);
      var a, d1 := VisitGoes(d, n, owed, v);
      var b;
      b, e := SessionGoes(d1, n, DebtNext(n, owed, v), rest);
      moves := OneMoreCall(d, a, d1, b, e, vs);
    }
  }

  lemma MismatchFails(d: Site) returns (mv: Move)
    requires Ready(d) && d.phase.Waiting? && !Agrees(Owing(d.y.cs[d.id].calls), d.phase.r)
    ensures !mv.Call? && Moved(d, mv, Still, Echo).failed
  {
    var i := ReadyFaces(d);
    mv := PollEnds(Some(i), "");
    PollGot(d, i, "", Still, Echo);
  }

  lemma FailsLast(d: Site, a: seq<Move>, d1: Site, mv: Move) returns (inside: seq<Move>)
    requires Goes(d, a, d1, []) && InsideCall(a) && !mv.Call? && Moved(d1, mv, Still, Echo).failed
    ensures InsideCall(inside) && MovedAll(d, inside, Still, Echo).failed
  {
    GoesOne(d1, mv);
    MovedJoin(d, a, [mv]);
    inside := a + [mv];
  }

  /** A call for another service than the one owed meets the late reply, and fails. */
  lemma MismatchGoes(d: Site, n: nat, owed: Option<Request>, r: Request) returns (inside: seq<Move>)
    requires Rested(d, n, owed) && Askable(r) && n > 0 && !Agrees(owed, r)
    ensures InsideCall(inside) && MovedAll(Moved(d, Call(r), Still, Echo), inside, Still, Echo).failed
  {
    CallReady(d, r);
    var d1 := Moved(d, Call(r), Still, Echo);
    var a, d2 := TryReady(d1);
    var mv := MismatchFails(d2);
    inside := FailsLast(d1, a, d2, mv);
  }

  // --------------------------------------------------- what the program can rely on, exactly

  /** A new client object on a new connection. */
  function Newborn(y: System, id: Id, n: nat, clock: nat -> int, ok: Rule): Site {
    Site(Act(y, NewClient(id), clock, ok), A.ClientSide(n, 0, [], false), id, Free, false)
  }

  /** If, from its start in that system, the object has made the calls `vs` and is between calls, then its
      next call, for `r`, passes its assertions, whatever happens in its course. */
  ghost predicate SafeThere(n: nat, vs: seq<Visit>, r: Request, start: seq<Step>, id: Id, moves: seq<Move>,
                            inside: seq<Move>, clock: nat -> int, ok: Rule) {
    var y := RunSystem(start, clock, ok);
    var d0 := Newborn(y, id, n, clock, ok);
    var d := MovedAll(d0, moves, clock, ok);
    Unused(y, id) && InsideCall(inside) && !d.failed && d.phase == Free && Visits(d0, moves, clock, ok) == vs ==>
      !MovedAll(Moved(d, Call(r), clock, ok), inside, clock, ok).failed
  }

  lemma NewbornTracks(start: seq<Step>, id: Id, n: nat, clock: nat -> int, ok: Rule)
    requires Unused(RunSystem(start, clock, ok), id)
    ensures var d := Newborn(RunSystem(start, clock, ok), id, n, clock, ok);
      Kept(d.y, ok) && Mirrors(d) && Tracks(d, None)
  {
    var y := RunSystem(start, clock, ok);
    ReachableInv(start, clock, ok);
    forall c ensures Books(y, c) { ReachableBooks(start, clock, ok, c); }
    StepsKept(y, [NewClient(id)], clock, ok);
    OneStep(y, NewClient(id), clock, ok);
    NewObject(y, n, id, clock, ok);
  }

  lemma SafeAll(n: nat, vs: seq<Visit>, r: Request, start: seq<Step>, id: Id, moves: seq<Move>,
                inside: seq<Move>, clock: nat -> int, ok: Rule)
    requires n == 0 || Agrees(Debt(n, None, vs), r)
    ensures SafeThere(n, vs, r, start, id, moves, inside, clock, ok)
  {
    var y := RunSystem(start, clock, ok);
    var d0 := Newborn(y, id, n, clock, ok);
    var d := MovedAll(d0, moves, clock, ok);
    if Unused(y, id) && InsideCall(inside) && !d.failed && d.phase == Free && Visits(d0, moves, clock, ok) == vs {
      NewbornTracks(start, id, n, clock, ok);
      TracksAll(d0, moves, None, clock, ok);
      CallSafe(d, r, inside, Debt(n, None, vs), clock, ok);
    }
  }

  lemma NewbornReady(n: nat)
    ensures var d := Newborn(RunSystem([], Still, Echo), "c", n, Still, Echo);
      Unused(RunSystem([], Still, Echo), "c") && Rested(d, n, None)
  {
    var y := RunSystem([], Still, Echo);
    ReachableInv([], Still, Echo);
    NewcomerStaged(y, "c");
    NewObject(y, n, "c", Still, Echo);
  }

  lemma SafeNot(n: nat, vs: seq<Visit>, r: Request) returns (moves: seq<Move>, inside: seq<Move>)
    requires n > 0 && Askable(r) && Possible(n, None, vs) && !Agrees(Debt(n, None, vs), r)
    ensures !SafeThere(n, vs, r, [], "c", moves, inside, Still, Echo)
  {
    NewbornReady(n);
    var d;
    moves, d := SessionGoes(Newborn(RunSystem([], Still, Echo), "c", n, Still, Echo), n, None, vs);
    inside := MismatchGoes(d, n, Debt(n, None, vs), r);
  }

  /** After the calls `vs`, ended as they did, the next call cannot fail an assertion, in any system and
      whatever connections the object went through, if and only if nothing is owed or it asks for the
      service owed. */
  lemma NextCallSafeIff(n: nat, vs: seq<Visit>, r: Request)
    requires Askable(r) && Possible(n, None, vs)
    ensures (forall start, id, moves, inside, clock, ok: Rule ::
               SafeThere(n, vs, r, start, id, moves, inside, clock, ok)) <==> n == 0 || Agrees(Debt(n, None, vs), r)
  {
    if n == 0 || Agrees(Debt(n, None, vs), r) {
      forall start, id, moves, inside, clock, ok: Rule { SafeAll(n, vs, r, start, id, moves, inside, clock, ok); }
    } else {
      var moves, inside := SafeNot(n, vs, r);
    }
  }

  /** And those are all the ways the calls of an object can go. */
  lemma SessionPossible(n: nat, start: seq<Step>, id: Id, moves: seq<Move>, clock: nat -> int, ok: Rule)
    requires Unused(RunSystem(start, clock, ok), id)
    ensures Possible(n, None, Visits(Newborn(RunSystem(start, clock, ok), id, n, clock, ok), moves, clock, ok))
  {
    NewbornTracks(start, id, n, clock, ok);
    TracksAll(Newborn(RunSystem(start, clock, ok), id, n, clock, ok), moves, None, clock, ok);
  }

  lemma {:induction false} DebtLast(n: nat, owed: Option<Request>, vs: seq<Visit>, v: Visit)
    ensures Debt(n, owed, vs + [v]) == DebtNext(n, Debt(n, owed, vs), v)
    decreases |vs|
  {
    if vs == [] {
      assert vs + [v] == [v] && [v][1..] == [];
    } else {
      assert (vs + [v])[1..] == vs[1..] + [v];
      DebtLast(n, DebtNext(n, owed, vs[0]), vs[1..], v);
    }
  }

  /** After a reply the next call is always safe. After NULL from silent polls alone it is safe if and only
      if it asks for the service owed: with more than one try, that of the call just given up; with one,
      that of the first call since the last reply. */
  lemma NextCallAfter(n: nat, vs: seq<Visit>, v: Visit, r: Request)
    requires n > 0 && Askable(r) && Possible(n, None, vs + [v])
    ensures var safe := forall start, id, moves, inside, clock, ok: Rule ::
                          SafeThere(n, vs + [v], r, start, id, moves, inside, clock, ok);
      && (v.ending.Replied? ==> safe)
      && (v.ending.Unanswered? ==>
            (safe <==> (if n > 1 then v.r else Or(Debt(n, None, vs), v.r).value).service == r.service))
  {
    NextCallSafeIff(n, vs + [v], r);
    DebtLast(n, None, vs, v);
  }
}
