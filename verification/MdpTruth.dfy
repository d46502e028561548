/** The answers of the management interface, as they reach the client through the whole system. */
module MdpTruth {
  import opened Frames
  import opened MdpBroker
  import opened MdpInvariants
  import opened ClientCalls
  import opened MdpEffects
  import opened MdpSystem
  import opened Options

  /** Message `i` of the broker is on its way to client `c`, whose pending request is to the management
      interface. */
  ghost predicate Awaits(y: System, c: Id, i: nat) {
    && c in y.cs && y.cs[c].pending.Some? && StartsMmi(y.cs[c].pending.value.service)
    && y.cs[c].taken <= i < |y.b.sent| && To(y.b.sent[i], c)
  }

  /** The request with its last frame replaced by what is true of broker state `b`. */
  ghost function TrueAnswer(b: State, c: Id, r: Request): Msg
    requires r.body != []
  {
    var last := |r.body| - 1;
    [c, "", MDPC_CLIENT, r.service] + r.body[..last] + [Truth(b, r.service, r.body[last])]
  }

  lemma MmiFrames(c: Id, r: Request)
    requires r.body != []
    ensures var m := ClientFrames(c, r);
      && m[0] == c && m[2] == MDPC_CLIENT && |m[3..]| >= 2 && m[3..][0] == r.service
      && m[3..][..|m[3..]| - 1] == [r.service] + r.body[..|r.body| - 1]
      && m[3..][|m[3..]| - 1] == r.body[|r.body| - 1]
  {
    assert ClientFrames(c, r)[3..] == [r.service] + r.body;
  }

  lemma ReceiveAnswersMmi(b: State, c: Id, r: Request, clock: nat -> int)
    requires Inv(b) && r.body != [] && StartsMmi(r.service)
    ensures var t := MdpBroker.Receive(b, ClientFrames(c, r), clock);
      Inv(t) && !t.dead && t.sent == b.sent + [TrueAnswer(b, c, r)]
  {
    var m, last := ClientFrames(c, r), |r.body| - 1;
    MmiFrames(c, r);
    MmiAnswer(b, c, m[3..], clock);
    ClientMsgInv(b, c, m[3..], clock);
    var code := Truth(b, r.service, r.body[last]);
    assert [c, "", MDPC_CLIENT] + ([r.service] + r.body[..last]) + [code] == TrueAnswer(b, c, r);
  }

  /** The broker takes a request to the management interface: the answer is the next message it sends. */
  lemma TurnAnswersMmi(b: State, c: Id, r: Request, clock: nat -> int)
    requires Inv(b) && r.body != [] && StartsMmi(r.service)
    ensures var t := Turn(b, Some(ClientFrames(c, r)), clock); b.sent + [TrueAnswer(b, c, r)] <= t.sent
  {
    var t := MdpBroker.Receive(b, ClientFrames(c, r), clock);
    ReceiveAnswersMmi(b, c, r, clock);
    TimerAdds(t, clock, t.workers.Keys);
  }

  /** And it is the one on its way to the client. */
  lemma TakesMmi(y: System, c: Id, clock: nat -> int, ok: Rule, i: nat)
    requires SystemInv(y, ok) && c in y.cs && y.cs[c].unsent && i >= |y.b.sent|
    requires Awaits(Act(y, TakeClient(c), clock, ok), c, i)
    ensures y.cs[c].pending.Some? && y.cs[c].pending.value.body != [] && i == |y.b.sent|
    ensures Act(y, TakeClient(c), clock, ok).b.sent[i] == TrueAnswer(y.b, c, y.cs[c].pending.value)
  {
    var z := Act(y, TakeClient(c), clock, ok);
    ActInv(y, TakeClient(c), clock, ok);
    assert ClientOk(y, c, ok);
    var r := y.cs[c].pending.value;
    TurnAnswersMmi(y.b, c, r, clock);
    assert z.b.sent[|y.b.sent|] == (y.b.sent + [TrueAnswer(y.b, c, r)])[|y.b.sent|];
    FirstOnly(z, c, ok, |y.b.sent|, i);
  }

  /** A reply is for the client it names. */
  lemma ReplyIsFor(w: Id, service: Name, out: WorkerOut)
    ensures var m := WorkerFrames(w, service, out);
      |m| >= 4 && m[0] == w && ReplyFor(m[3..]) == if out.Reply? then {out.client} else {}
  {
    Commands();
    var m := WorkerFrames(w, service, out);
    if out.Reply? {
      assert m[3..] == [REPLY] + Wrap(out.client, out.body) && m[3..][1..] == Wrap(out.client, out.body);
      WrapUnwrap(out.client, out.body);
    } else {
      assert m[3..][0] == if out.Hello? then READY else HEARTBEAT;
    }
  }

  /** The client waits for an answer of the management interface. */
  ghost predicate AsksMmi(y: System, c: Id) {
    c in y.cs && y.cs[c].pending.Some? && StartsMmi(y.cs[c].pending.value.service)
  }

  /** It is no worker, and no reply on its way is for it. */
  lemma NoReplyFor(y: System, w: Id, k: nat, ok: Rule, c: Id)
    requires SystemInv(y, ok) && AsksMmi(y, c) && w in y.ws && k < |y.ws[w].outbox|
    ensures w != c && c !in y.b.workers && (y.ws[w].outbox[k].Reply? ==> y.ws[w].outbox[k].client != c)
  {
    assert WorkerOk(y, w, ok) && y.ws[w].outbox[k] in y.ws[w].outbox;
  }

  lemma WorkerWritesElsewhere(y: System, w: Id, k: nat, clock: nat -> int, ok: Rule, c: Id, i: nat)
    requires SystemInv(y, ok) && AsksMmi(y, c) && w in y.ws && k < |y.ws[w].outbox|
    requires |y.b.sent| <= i < |Act(y, TakeWorker(w, k), clock, ok).b.sent|
    ensures !To(Act(y, TakeWorker(w, k), clock, ok).b.sent[i], c)
  {
    var b, out := y.b, y.ws[w].outbox[k];
    var m, ids := WorkerFrames(w, y.ws[w].service, out), b.workers.Keys + {w} + if out.Reply? then {out.client} else {};
    NoReplyFor(y, w, k, ok, c);
    ReplyIsFor(w, y.ws[w].service, out);
    assert Inv(b) && Compliant(b, m) by { TakeWorkerInv(y, w, k, clock, ok); }
    TurnAdds(b, Some(m), clock, ids);
    assert c !in ids;
  }

  lemma ClientWritesElsewhere(y: System, d: Id, clock: nat -> int, ok: Rule, c: Id, i: nat)
    requires SystemInv(y, ok) && AsksMmi(y, c) && d != c
    requires |y.b.sent| <= i < |Act(y, TakeClient(d), clock, ok).b.sent|
    ensures !To(Act(y, TakeClient(d), clock, ok).b.sent[i], c)
  {
    TakeClientInv(y, d, clock, ok);
    TurnAdds(y.b, Some(ClientFrames(d, y.cs[d].pending.value)), clock, y.b.workers.Keys + {d});
  }

  /** No other step sends such a client anything. */
  lemma OthersWriteElsewhere(y: System, step: Step, clock: nat -> int, ok: Rule, c: Id, i: nat)
    requires SystemInv(y, ok) && AsksMmi(y, c)
    requires step != TakeClient(c) && |y.b.sent| <= i < |Act(y, step, clock, ok).b.sent|
    ensures !To(Act(y, step, clock, ok).b.sent[i], c)
  {
    match step
    case TakeClient(d) => ClientWritesElsewhere(y, d, clock, ok, c, i);
    case TakeWorker(w, k) => WorkerWritesElsewhere(y, w, k, clock, ok, c, i);
    case Tick => TurnAdds(y.b, None, clock, y.b.workers.Keys);
    case _ =>
  }

  /** What is on its way to such a client stays as it is until it is delivered. */
  lemma AwaitsBefore(y: System, step: Step, clock: nat -> int, ok: Rule, c: Id, i: nat)
    requires SystemInv(y, ok) && Awaits(Act(y, step, clock, ok), c, i)
    ensures var z := Act(y, step, clock, ok);
      || (Awaits(y, c, i) && z.cs[c].pending == y.cs[c].pending && z.b.sent[i] == y.b.sent[i])
      || (step == TakeClient(c) && c in y.cs && y.cs[c].unsent && z.cs[c].pending == y.cs[c].pending && i >= |y.b.sent|)
  {
    var z := Act(y, step, clock, ok);
    ActInv(y, step, clock, ok);
    assert ClientOk(z, c, ok) && ClientForm(z, z.b.sent[i], c, ok);
    if c in y.cs {
      assert ClientOk(y, c, ok);
      PendingSame(y, step, clock, ok, c);
      if i >= |y.b.sent| && step != TakeClient(c) { OthersWriteElsewhere(y, step, clock, ok, c, i); }
      SentGrows(y, step, clock, ok);
    }
  }

  lemma PendingSame(y: System, step: Step, clock: nat -> int, ok: Rule, c: Id)
    requires c in y.cs && c in Act(y, step, clock, ok).cs
    ensures var z := Act(y, step, clock, ok);
      z.cs[c].pending.Some? && !z.cs[c].unsent ==> z.cs[c].pending == y.cs[c].pending && z.cs[c].taken == y.cs[c].taken
  {
  }

  lemma SentGrows(y: System, step: Step, clock: nat -> int, ok: Rule)
    requires SystemInv(y, ok)
    ensures y.b.sent <= Act(y, step, clock, ok).b.sent
  {
    match step
    case TakeClient(d) =>
      if d in y.cs && y.cs[d].unsent && y.cs[d].pending.Some? {
        TakeClientInv(y, d, clock, ok);
        TurnAdds(y.b, Some(ClientFrames(d, y.cs[d].pending.value)), clock, y.b.workers.Keys + {d});
      }
    case TakeWorker(w, k) =>
      if w in y.ws && k < |y.ws[w].outbox| {
        var out := y.ws[w].outbox[k];
        TakeWorkerInv(y, w, k, clock, ok);
        ReplyIsFor(w, y.ws[w].service, out);
        TurnAdds(y.b, Some(WorkerFrames(w, y.ws[w].service, out)), clock,
                 y.b.workers.Keys + {w} + if out.Reply? then {out.client} else {});
      }
    case Tick => TurnAdds(y.b, None, clock, y.b.workers.Keys);
    case _ =>
  }

  /** In every run: whatever the management interface has on its way to a client is the client's own request
      with its last frame replaced by what was true of the broker when it took that request. */
  lemma {:induction false} MmiTrue(steps: seq<Step>, clock: nat -> int, ok: Rule, c: Id, i: nat) returns (k: nat)
    requires Awaits(RunSystem(steps, clock, ok), c, i)
    ensures k < |steps| && steps[k] == TakeClient(c)
    ensures var y, x := RunSystem(steps, clock, ok), RunSystem(steps[..k], clock, ok);
      && |x.b.sent| == i && y.cs[c].pending.value.body != []
      && y.b.sent[i] == TrueAnswer(x.b, c, y.cs[c].pending.value)
  {
    var n := |steps| - 1;
    var pre := steps[..n];
    var y, z := RunSystem(pre, clock, ok), RunSystem(steps, clock, ok);
    ReachableInv(pre, clock, ok);
    AwaitsBefore(y, steps[n], clock, ok, c, i);
    if Awaits(y, c, i) && z.cs[c].pending == y.cs[c].pending && z.b.sent[i] == y.b.sent[i] {
      k := MmiTrue(pre, clock, ok, c, i);
      assert pre[..k] == steps[..k];
    } else {
      k := n;
      TakesMmi(y, c, clock, ok, i);
    }
  }

  /** Only one message is on its way to a client. */
  lemma FirstOnly(z: System, c: Id, ok: Rule, j: nat, i: nat)
    requires SystemInv(z, ok) && c in z.cs && z.cs[c].taken <= j <= i < |z.b.sent|
    requires To(z.b.sent[j], c) && To(z.b.sent[i], c)
    ensures i == j
  {
    assert ClientOk(z, c, ok);
  }
}
