/** What a call of `mdcli_send` receives: whose answer it is, and exactly when it passes the
    assertions of the call. */
module MdpDelivery {
  import opened Frames
  import opened MdpBroker
  import opened MdpInvariants
  import opened ClientCalls
  import opened MdpSystem
  import opened Options

  /** The socket of client `c` and the log of its calls tell the same story: what is pending is what
      the log owes, put there by the first call since the last reply. */
  ghost predicate Books(y: System, c: Id) {
    c in y.cs ==>
      var k := y.cs[c];
      && Proper(k.calls) && k.pending == Owing(k.calls)
      && (k.pending.Some? ==>
            && k.sender < |k.calls| && k.calls[k.sender] == Asked(k.pending.value) && Owing(k.calls[..k.sender]).None?
            && forall j :: k.sender < j <= |k.calls| ==> Owing(k.calls[..j]).Some?)
  }

  /** Log and socket after one more event that leaves the request on the wire alone. */
  lemma BooksGrow(k: ClientConn, e: CallEvent, j: nat)
    requires j <= |k.calls|
    ensures (k.calls + [e])[..j] == k.calls[..j] && (k.calls + [e])[..|k.calls| + 1] == k.calls + [e]
  {
  }

  lemma BooksSubmit(y: System, c: Id, r: Request)
    requires Books(y, c) && c in y.cs && AtLeisure(y.cs[c].calls) && Askable(r)
    ensures Books(y.(cs := y.cs[c := Asking(y.cs[c], r)]), c)
  {
    var k := y.cs[c];
    var l := k.calls + [Asked(r)];
    OwingAppend(k.calls, Asked(r));
    assert l[..|l| - 1] == k.calls;
    forall j: nat | j <= |k.calls| { BooksGrow(k, Asked(r), j); }
    assert k.calls[..|k.calls|] == k.calls;
  }

  lemma BooksAbandon(y: System, c: Id)
    requires Books(y, c) && c in y.cs && Current(y.cs[c].calls).Some?
    ensures Books(y.(cs := y.cs[c := y.cs[c].(calls := y.cs[c].calls + [GaveUp])]), c)
  {
    var k := y.cs[c];
    var l := k.calls + [GaveUp];
    OwingAppend(k.calls, GaveUp);
    assert l[..|l| - 1] == k.calls;
    forall j: nat | j <= |k.calls| { BooksGrow(k, GaveUp, j); }
  }

  /** Message `i` of the broker is there for the call that client `c` is in. */
  predicate Facing(y: System, c: Id, i: nat) {
    c in y.cs && Current(y.cs[c].calls).Some? && y.cs[c].taken <= i < |y.b.sent| && To(y.b.sent[i], c)
  }

  /** In a sound state such a message answers what the connection owes. */
  lemma AnswersOwing(y: System, c: Id, i: nat, ok: Rule)
    requires SystemInv(y, ok) && Books(y, c) && Facing(y, c, i)
    ensures var m, o := y.b.sent[i], Owing(y.cs[c].calls);
      && o.Some? && |m| >= 5 && m == [c, "", MDPC_CLIENT, o.value.service] + m[4..] && Fits(o.value, m[4..], ok)
      && (forall j :: i < j < |y.b.sent| ==> !To(y.b.sent[j], c))
  {
    assert ClientOk(y, c, ok) && ClientForm(y, y.b.sent[i], c, ok);
    assert y.b.sent[i] == y.b.sent[i][..4] + y.b.sent[i][4..];
  }

  lemma BooksDeliver(y: System, c: Id, i: nat, ok: Rule)
    requires SystemInv(y, ok) && Books(y, c) && Facing(y, c, i)
    ensures Books(y.(cs := y.cs[c := Answering(y.cs[c], y.b.sent[i], i)]), c)
  {
    AnswersOwing(y, c, i, ok);
    var k := Answering(y.cs[c], y.b.sent[i], i);
    var e := k.calls[|k.calls| - 1];
    OwingAppend(y.cs[c].calls, e);
    assert k.calls[..|k.calls| - 1] == y.cs[c].calls;
  }

  lemma BooksAct(y: System, step: Step, clock: nat -> int, ok: Rule, c: Id)
    requires SystemInv(y, ok) && Books(y, c)
    ensures Books(Act(y, step, clock, ok), c)
  {
    var z := Act(y, step, clock, ok);
    if c in y.cs && z.cs != y.cs && c in z.cs && z.cs[c] != y.cs[c] {
      match step
      case Submit(_, r) => BooksSubmit(y, c, r);
      case Abandon(_) => BooksAbandon(y, c);
      case Deliver(_, i) => BooksDeliver(y, c, i, ok);
      case LoseClient(_) =>
      case TakeClient(_) =>
      case NewClient(_) =>
    }
  }

  lemma {:induction false} ReachableBooks(steps: seq<Step>, clock: nat -> int, ok: Rule, c: Id)
    ensures Books(RunSystem(steps, clock, ok), c)
  {
    if steps != [] {
      var n := |steps| - 1;
      ReachableBooks(steps[..n], clock, ok, c);
      ReachableInv(steps[..n], clock, ok);
      BooksAct(RunSystem(steps[..n], clock, ok), steps[n], clock, ok, c);
    }
  }

  // ------------------------------------------------------------------ what a call receives

  lemma OwnIff(y: System, c: Id)
    requires Books(y, c) && c in y.cs && Current(y.cs[c].calls).Some?
    ensures y.cs[c].sender == |y.cs[c].calls| - 1 <==> !Abandoned(y.cs[c].calls)
  {
    var k := y.cs[c];
    var n := |k.calls| - 1;
    OwingInCall(k.calls);
    if k.sender < n { assert Owing(k.calls[..n]).Some?; }
  }

  /** Whatever a call receives has three frames at least and the protocol header, so those two
      assertions never fail. It answers the first call since the last reply on that connection, and no
      second answer is on its way. So it passes the assertion on the service if and only if that call
      asked for the same service; and it is the answer to this call's own request if and only if no
      earlier call is still without its reply. */
  lemma DeliveryIff(steps: seq<Step>, clock: nat -> int, ok: Rule, c: Id, i: nat)
    requires Facing(RunSystem(steps, clock, ok), c, i)
    ensures var y := RunSystem(steps, clock, ok); var k, m := y.cs[c], y.b.sent[i];
      && |m| >= 5 && m[1] == "" && m[2] == MDPC_CLIENT
      && Owing(k.calls).Some? && Fits(Owing(k.calls).value, m[4..], ok)
      && (forall j :: i < j < |y.b.sent| ==> !To(y.b.sent[j], c))
      && (Passes(m, Current(k.calls).value.service) <==>
          Owing(k.calls).value.service == Current(k.calls).value.service)
      && (k.sender == |k.calls| - 1 <==> !Abandoned(k.calls))
  {
    var y := RunSystem(steps, clock, ok);
    var k := y.cs[c];
    ReachableInv(steps, clock, ok);
    ReachableBooks(steps, clock, ok, c);
    AnswersOwing(y, c, i, ok);
    OwnIff(y, c);
  }

  /** So a caller that never gives a call up, or reconnects when it does, always gets its own answer. */
  lemma UnabandonedIsOwn(steps: seq<Step>, clock: nat -> int, ok: Rule, c: Id, i: nat)
    requires Facing(RunSystem(steps, clock, ok), c, i) && !Abandoned(RunSystem(steps, clock, ok).cs[c].calls)
    ensures var y := RunSystem(steps, clock, ok); var r := Current(y.cs[c].calls).value;
      Passes(y.b.sent[i], r.service) && Fits(r, y.b.sent[i][4..], ok)
  {
    DeliveryIff(steps, clock, ok, c, i);
    OwingInCall(RunSystem(steps, clock, ok).cs[c].calls);
  }

  /** The frames of the message behind identity, delimiter, header and service are `body`. */
  predicate Brings(m: Msg, body: Msg) {
    |m| >= 4 && m[4..] == body
  }

  /** The workers of the echo program answer with the body they were sent. */
  function Echo(service: Frame, body: Msg, reply: Msg): bool {
    reply == body
  }

  /** With echo workers a call gets back, unchanged and leading empty frames included, the body of the
      first call since the last reply: its own body if and only if the two agree. */
  lemma EchoIff(steps: seq<Step>, clock: nat -> int, c: Id, i: nat)
    requires Facing(RunSystem(steps, clock, Echo), c, i)
    requires var o := Owing(RunSystem(steps, clock, Echo).cs[c].calls); o.Some? && !StartsMmi(o.value.service)
    ensures var y := RunSystem(steps, clock, Echo); var k, m := y.cs[c], y.b.sent[i]; var o := Owing(k.calls).value;
      && m == [c, "", MDPC_CLIENT, o.service] + o.body
      && (Brings(m, Current(k.calls).value.body) <==> o.body == Current(k.calls).value.body)
  {
    ReachableInv(steps, clock, Echo);
    ReachableBooks(steps, clock, Echo, c);
    AnswersOwing(RunSystem(steps, clock, Echo), c, i, Echo);
  }
}
