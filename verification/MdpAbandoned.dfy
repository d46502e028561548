/** A call given up can spoil a later one: for every log of calls on a connection, exactly when. */
module MdpAbandoned {
  import opened Frames
  import opened MdpBroker
  import opened MdpInvariants
  import opened ClientCalls
  import opened MdpSystem
  import opened MdpDelivery
  import opened MdpStaging
  import opened Options

  const CLIENT: Id := "c"

  /** A run in which the client makes exactly the calls `h`. */
  function Script(h: seq<CallEvent>): seq<Step> {
    if h == [] then [NewClient(CLIENT)]
    else
      var pre := Script(h[..|h| - 1]);
      pre + NextAct(RunSystem(pre, Still, Echo), CLIENT, h[..|h| - 1], h[|h| - 1])
  }

  lemma StartStaged()
    ensures Staged(RunSystem([NewClient(CLIENT)], Still, Echo), CLIENT, [])
  {
    var y := RunSystem([], Still, Echo);
    ReachableInv([], Still, Echo);
    NewcomerStaged(y, CLIENT);
    RunsOn([], [NewClient(CLIENT)], Still, Echo);
    ActAllAppend(y, [], NewClient(CLIENT), Still, Echo);
    assert [] + [NewClient(CLIENT)] == [NewClient(CLIENT)];
  }

  /** Every log of calls that the API can produce is that of a run, with the answer owed at hand. */
  lemma {:induction false} ScriptStaged(h: seq<CallEvent>)
    requires Proper(h)
    ensures Staged(RunSystem(Script(h), Still, Echo), CLIENT, h)
  {
    if h == [] {
      StartStaged();
    } else {
      var pre, e := h[..|h| - 1], h[|h| - 1];
      ScriptStaged(pre);
      var y := RunSystem(Script(pre), Still, Echo);
      RunsOn(Script(pre), NextAct(y, CLIENT, pre, e), Still, Echo);
      assert h == pre + [e];
      EventStaged(y, CLIENT, pre, e);
    }
  }

  // ----------------------------------------------------- what a caller can rely on, exactly

  /** In that run, client `c`, having made the calls `h`, finds message `i` there for it. */
  ghost predicate Meets(steps: seq<Step>, clock: nat -> int, ok: Rule, c: Id, i: nat, h: seq<CallEvent>) {
    Facing(RunSystem(steps, clock, ok), c, i) && RunSystem(steps, clock, ok).cs[c].calls == h
  }

  lemma SomeRunMeets(h: seq<CallEvent>) returns (i: nat)
    requires Proper(h) && Current(h).Some?
    ensures Meets(Script(h), Still, Echo, CLIENT, i, h)
  {
    ScriptStaged(h);
    OwingInCall(h);
    i := |RunSystem(Script(h), Still, Echo).b.sent| - 1;
  }

  /** What `DeliveryIff` and `EchoIff` say of a run in which the calls `h` were made. */
  lemma MeetsIff(steps: seq<Step>, clock: nat -> int, ok: Rule, c: Id, i: nat, h: seq<CallEvent>)
    requires Meets(steps, clock, ok, c, i, h)
    ensures var y := RunSystem(steps, clock, ok);
      && Current(h).Some? && Owing(h).Some?
      && (Passes(y.b.sent[i], Current(h).value.service) <==> Owing(h).value.service == Current(h).value.service)
      && (y.cs[c].sender == |h| - 1 <==> !Abandoned(h))
  {
    DeliveryIff(steps, clock, ok, c, i);
  }

  lemma MeetsEcho(steps: seq<Step>, clock: nat -> int, c: Id, i: nat, h: seq<CallEvent>)
    requires Meets(steps, clock, Echo, c, i, h) && Owing(h).Some? && !StartsMmi(Owing(h).value.service)
    ensures Current(h).Some?
    ensures Brings(RunSystem(steps, clock, Echo).b.sent[i], Current(h).value.body) <==>
            Owing(h).value.body == Current(h).value.body
  {
    EchoIff(steps, clock, c, i);
  }

  /** If client `c` meets message `i` there, the message passes the assertions of its call. */
  ghost predicate PassesThere(steps: seq<Step>, clock: nat -> int, ok: Rule, c: Id, i: nat, h: seq<CallEvent>) {
    Meets(steps, clock, ok, c, i, h) ==>
      Passes(RunSystem(steps, clock, ok).b.sent[i], Current(h).value.service)
  }

  /** If client `c` meets message `i` there, the message answers the request of that very call. */
  ghost predicate OwnThere(steps: seq<Step>, clock: nat -> int, ok: Rule, c: Id, i: nat, h: seq<CallEvent>) {
    Meets(steps, clock, ok, c, i, h) ==> RunSystem(steps, clock, ok).cs[c].sender == |h| - 1
  }

  /** If client `c` meets message `i` there, the message brings back the body of that call. */
  ghost predicate EchoesThere(steps: seq<Step>, clock: nat -> int, c: Id, i: nat, h: seq<CallEvent>) {
    Meets(steps, clock, Echo, c, i, h) ==>
      Brings(RunSystem(steps, clock, Echo).b.sent[i], Current(h).value.body)
  }

  lemma PassesAll(steps: seq<Step>, clock: nat -> int, ok: Rule, c: Id, i: nat, h: seq<CallEvent>)
    requires SameService(Owing(h), Current(h))
    ensures PassesThere(steps, clock, ok, c, i, h)
  {
    if Meets(steps, clock, ok, c, i, h) { MeetsIff(steps, clock, ok, c, i, h); }
  }

  lemma PassesNot(h: seq<CallEvent>) returns (i: nat)
    requires Proper(h) && Current(h).Some? && !SameService(Owing(h), Current(h))
    ensures !PassesThere(Script(h), Still, Echo, CLIENT, i, h)
  {
    i := SomeRunMeets(h);
    MeetsIff(Script(h), Still, Echo, CLIENT, i, h);
  }

  /** A call is safe, in every run and whatever the workers, the network and the clock do, from failing the assertion
      on the service name if and only if the first call on its connection since the last reply asked for
      the same service. The caller knows that from its own calls and the NULLs it got. */
  lemma AlwaysPassesIff(h: seq<CallEvent>)
    requires Proper(h) && Current(h).Some?
    ensures (forall steps, clock, ok: Rule, c, i: nat :: PassesThere(steps, clock, ok, c, i, h)) <==>
            SameService(Owing(h), Current(h))
  {
    if SameService(Owing(h), Current(h)) {
      forall steps, clock, ok: Rule, c, i: nat { PassesAll(steps, clock, ok, c, i, h); }
    } else {
      var i := PassesNot(h);
    }
  }

  lemma OwnAll(steps: seq<Step>, clock: nat -> int, ok: Rule, c: Id, i: nat, h: seq<CallEvent>)
    requires Current(h).Some? && !Abandoned(h)
    ensures OwnThere(steps, clock, ok, c, i, h)
  {
    if Meets(steps, clock, ok, c, i, h) { MeetsIff(steps, clock, ok, c, i, h); }
  }

  lemma OwnNot(h: seq<CallEvent>) returns (i: nat)
    requires Proper(h) && Current(h).Some? && Abandoned(h)
    ensures !OwnThere(Script(h), Still, Echo, CLIENT, i, h)
  {
    i := SomeRunMeets(h);
    MeetsIff(Script(h), Still, Echo, CLIENT, i, h);
  }

  /** It always gets the answer to its own request if and only if no earlier call on its connection was
      given up and left without its reply. */
  lemma AlwaysOwnIff(h: seq<CallEvent>)
    requires Proper(h) && Current(h).Some?
    ensures (forall steps, clock, ok: Rule, c, i: nat :: OwnThere(steps, clock, ok, c, i, h)) <==> !Abandoned(h)
  {
    if Abandoned(h) {
      var i := OwnNot(h);
    } else {
      forall steps, clock, ok: Rule, c, i: nat { OwnAll(steps, clock, ok, c, i, h); }
    }
  }

  lemma EchoesAll(steps: seq<Step>, clock: nat -> int, c: Id, i: nat, h: seq<CallEvent>)
    requires Current(h).Some? && Owing(h).Some? && !StartsMmi(Owing(h).value.service)
    requires Owing(h).value.body == Current(h).value.body
    ensures EchoesThere(steps, clock, c, i, h)
  {
    if Meets(steps, clock, Echo, c, i, h) { MeetsEcho(steps, clock, c, i, h); }
  }

  lemma EchoesNot(h: seq<CallEvent>) returns (i: nat)
    requires Proper(h) && Current(h).Some? && Owing(h).Some? && !StartsMmi(Owing(h).value.service)
    requires Owing(h).value.body != Current(h).value.body
    ensures !EchoesThere(Script(h), Still, CLIENT, i, h)
  {
    i := SomeRunMeets(h);
    MeetsEcho(Script(h), Still, CLIENT, i, h);
  }

  /** With echo workers it always gets its own body back if and only if the first call since the last
      reply had the same body. */
  lemma AlwaysEchoIff(h: seq<CallEvent>)
    requires Proper(h) && Current(h).Some? && Owing(h).Some? && !StartsMmi(Owing(h).value.service)
    ensures (forall steps, clock, c, i: nat :: EchoesThere(steps, clock, c, i, h)) <==>
            Owing(h).value.body == Current(h).value.body
  {
    if Owing(h).value.body == Current(h).value.body {
      forall steps, clock, c, i: nat { EchoesAll(steps, clock, c, i, h); }
    } else {
      var i := EchoesNot(h);
    }
  }

  /** The log of a call for `a` given up, and another for `b` going on. */
  function AfterGivingUp(a: Request, b: Request): seq<CallEvent> {
    [Asked(a)] + [GaveUp] + [Asked(b)]
  }

  lemma AfterGivingUpIs(a: Request, b: Request)
    requires Askable(a) && Askable(b)
    ensures var h := AfterGivingUp(a, b); Proper(h) && Current(h) == Some(b) && Owing(h) == Some(a)
  {
    var h1, h2, h3 := [Asked(a)], [Asked(a)] + [GaveUp], AfterGivingUp(a, b);
    assert |h1| == 1 && h1[..0] == [] && h1[0] == Asked(a);
    assert |h2| == 2 && h2[..1] == h1 && h2[1] == GaveUp;
    assert |h3| == 3 && h3[..2] == h2 && h3[2] == Asked(b);
    assert Proper([]) && Owing([]) == None;
    assert Proper(h1) && Owing(h1) == Some(a) && Current(h1) == Some(a);
    assert Proper(h2) && Owing(h2) == Some(a) && AtLeisure(h2);
  }

  /** For any two requests there is such a run in which the late reply to `a` meets the call for `b`. */
  lemma LateReply(a: Request, b: Request) returns (steps: seq<Step>, i: nat)
    requires Askable(a) && Askable(b) && !StartsMmi(a.service)
    ensures Meets(steps, Still, Echo, CLIENT, i, AfterGivingUp(a, b))
    ensures RunSystem(steps, Still, Echo).b.sent[i] == [CLIENT, "", MDPC_CLIENT, a.service] + a.body
  {
    var h := AfterGivingUp(a, b);
    AfterGivingUpIs(a, b);
    steps := Script(h);
    i := SomeRunMeets(h);
    EchoIff(steps, Still, CLIENT, i);
  }

  /** Concretely: a call for "A" is given up, and the next, for "B", aborts on the reply to the first. */
  lemma LateReplyCrashes() returns (steps: seq<Step>, i: nat)
    ensures var a, b := Request("A", ["x"]), Request("B", ["x"]); var y := RunSystem(steps, Still, Echo);
      && Meets(steps, Still, Echo, CLIENT, i, AfterGivingUp(a, b)) && !Passes(y.b.sent[i], "B")
      && Act(y, Deliver(CLIENT, i), Still, Echo).cs[CLIENT].calls == AfterGivingUp(a, b) + [Crashed]
  {
    var a, b := Request("A", ["x"]), Request("B", ["x"]);
    steps, i := LateReply(a, b);
    AfterGivingUpIs(a, b);
    assert a.service[0] != b.service[0];
  }
}
