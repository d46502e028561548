/** Short runs of the broker in which it does what its reader may not expect. */
module MdpBrokerRuns {
  import opened Frames
  import opened MdpBroker
  import opened MdpInvariants
  import opened Options

  /** The time at each reading: two workers have registered by the seventh, one of them beats at 2000,
      and then nothing happens until 8000. */
  function Clock(i: nat): int {
    if i < 7 then 0 else if i < 9 then 2000 else 8000
  }

  function Hello(w: Id): Option<Msg> {
    Some([w, "", MDPW_WORKER, READY, "s"])
  }

  function Beat(w: Id): Option<Msg> {
    Some([w, "", MDPW_WORKER, HEARTBEAT])
  }

  function Answer(w: Id): Option<Msg> {
    Some([w, "", MDPW_WORKER, REPLY, "c", "", "x"])
  }

  /** One worker waits. */
  function One(ticks: nat): State {
    State(map["s" := Service([], ["a"], 1)], map["a" := Worker(Some("s"), 7500)], ["a"], [], [], ticks, 2500, false)
  }

  /** Two workers wait, until the times given. */
  function Two(ticks: nat, a: int, b: int): State {
    State(map["s" := Service([], ["a", "b"], 2)], map["a" := Worker(Some("s"), a), "b" := Worker(Some("s"), b)],
          ["a", "b"], [], [], ticks, 2500, false)
  }

  lemma RunMore(msgs: seq<Option<Msg>>, m: Option<Msg>, clock: nat -> int)
    ensures Run(msgs + [m], clock) == Turn(Run(msgs, clock), m, clock)
  {
    assert (msgs + [m])[..|msgs|] == msgs;
  }

  lemma Plain()
    ensures CString("s") == "s" && !StartsMmi("a") && !StartsMmi("b")
  {
    assert "s"[1..] == "";
  }

  lemma Commands()
    ensures READY != REPLY && READY != HEARTBEAT && REPLY != HEARTBEAT && MDPC_CLIENT != MDPW_WORKER
  {
    assert READY[0] != REPLY[0] && READY[0] != HEARTBEAT[0] && REPLY[0] != HEARTBEAT[0];
    assert MDPC_CLIENT[3] != MDPW_WORKER[3];
  }

  /** Nothing is due, so the timer only reads the clock. */
  lemma NotDue(s: State)
    requires Clock(s.ticks) <= s.heartbeatAt
    ensures Timer(s, Clock) == s.(ticks := s.ticks + 1)
  {
  }

  /** A newcomer for service "s" is bound and listed. */
  lemma HelloIs(s: State, w: Id)
    requires w !in s.workers && !StartsMmi(w)
    ensures var m := Hello(w).value; var l := Listed(Bind(WorkerRequire(s, w), w, "s"), w, Clock);
      MdpBroker.Receive(s, m, Clock) == Dispatch(l, "s", None, Clock)
  {
    Plain();
    Commands();
    var m := Hello(w).value;
    assert m[3..] == [READY, "s"] && m[3..][1..] == ["s"];
  }

  /** With the head of the list fresh and nothing queued, a dispatch only reads the clock. */
  lemma DispatchIdle(s: State)
    requires "s" in s.services && s.services["s"].requests == [] && s.waiting != [] && s.waiting[0] in s.workers
    requires Clock(s.ticks) < s.workers[s.waiting[0]].expiry && !s.dead
    ensures Dispatch(s, "s", None, Clock) == s.(ticks := s.ticks + 1)
  {
  }

  lemma FirstHello()
    ensures Turn(Init(Clock), Hello("a"), Clock) == One(4)
  {
    var s := Init(Clock);
    Plain();
    HelloIs(s, "a");
    var r := Bind(WorkerRequire(s, "a"), "a", "s");
    assert r.workers == map["a" := Worker(Some("s"), 0)] && r.services == map["s" := Service([], [], 1)];
    var l := Listed(r, "a", Clock);
    assert [] + ["a"] == ["a"];
    assert l.workers == One(2).workers && l.services == One(2).services;
    DispatchIdle(One(2));
    NotDue(One(3));
  }

  lemma SecondHello()
    ensures Turn(One(4), Hello("b"), Clock) == Two(7, 7500, 7500)
  {
    var s := One(4);
    Plain();
    assert "a"[0] != "b"[0];
    HelloIs(s, "b");
    var r := Bind(WorkerRequire(s, "b"), "b", "s");
    assert r.workers == map["a" := Worker(Some("s"), 7500), "b" := Worker(Some("s"), 0)];
    assert r.services == map["s" := Service([], ["a"], 2)];
    var l, t := Listed(r, "b", Clock), Two(5, 7500, 7500);
    assert ["a"] + ["b"] == ["a", "b"];
    assert l.workers == t.workers && l.services == t.services;
    DispatchIdle(t);
    NotDue(Two(6, 7500, 7500));
  }

  /** The heartbeat refreshes `a` where it stands. */
  lemma ThirdBeat()
    ensures Turn(Two(7, 7500, 7500), Beat("a"), Clock) == Two(9, 9500, 7500)
  {
    var s, m := Two(7, 7500, 7500), Beat("a").value;
    Commands();
    assert "a"[0] != "b"[0];
    assert m[3..] == [HEARTBEAT] && m[3..][0] == HEARTBEAT;
    assert s.workers["a" := Worker(Some("s"), 9500)] == Two(8, 9500, 7500).workers;
    NotDue(Two(8, 9500, 7500));
  }

  /** The purge of the next turn stops at `a`, though `b` has expired. */
  lemma PurgeStops()
    ensures var t := Turn(Two(9, 9500, 7500), None, Clock);
      !t.dead && t.waiting == ["a", "b"] && t.workers == Two(9, 9500, 7500).workers
  {
    var s := Two(10, 9500, 7500);
    assert "a"[0] != "b"[0];
    assert Purge(s, Clock) == Two(11, 9500, 7500);
    HeartbeatAllSends(Two(11, 9500, 7500), ["a", "b"]);
  }

  function Registered(): seq<Option<Msg>> {
    [] + [Hello("a")] + [Hello("b")] + [Beat("a")]
  }

  lemma RegisteredIs()
    ensures Run(Registered(), Clock) == Two(9, 9500, 7500)
  {
    FirstHello();
    SecondHello();
    ThirdBeat();
    RunMore([], Hello("a"), Clock);
    RunMore([] + [Hello("a")], Hello("b"), Clock);
    RunMore([] + [Hello("a")] + [Hello("b")], Beat("a"), Clock);
  }

  /** Two workers register, the first beats, and time passes: every clock reading of the next turn is past
      the expiry of the second worker, and the purge of that turn leaves it listed. */
  lemma ExpiredRemains()
    ensures var s, t := Run(Registered(), Clock), Run(Registered() + [None], Clock);
      && (forall i: nat :: i >= s.ticks ==> "b" in t.workers && Clock(i) >= t.workers["b"].expiry)
      && !t.dead && t.waiting == ["a", "b"] && t.heartbeatAt > s.heartbeatAt
  {
    RegisteredIs();
    PurgeStops();
    RunMore(Registered(), None, Clock);
    assert "a"[0] != "b"[0];
    TimerWasDue();
  }

  lemma TimerWasDue()
    ensures Turn(Two(9, 9500, 7500), None, Clock).heartbeatAt == 10500
  {
    assert "a"[0] != "b"[0];
    assert Purge(Two(10, 9500, 7500), Clock) == Two(11, 9500, 7500);
    HeartbeatAllSends(Two(11, 9500, 7500), ["a", "b"]);
  }

  /** The worker, listed once more. */
  function Doubled(ticks: nat): State {
    State(map["s" := Service([], ["a", "a"], 1)], map["a" := Worker(Some("s"), 7500)], ["a", "a"],
          [["c", "", MDPC_CLIENT, "s", "x"]], [Answered("c")], ticks, 2500, false)
  }

  lemma AnswerIs()
    ensures MdpBroker.Receive(One(4), Answer("a").value, Clock) == Dispatch(Doubled(5), "s", None, Clock)
  {
    var s, m, rest := One(4), Answer("a").value, ["c", "", "x"];
    Commands();
    assert m[3..] == [REPLY, "c", "", "x"] && m[3..][1..] == rest;
    assert rest[2..] == ["x"] && Unwrap(rest) == ("c", ["x"]);
    var f, l := Forward(s, "a", rest), Doubled(5);
    assert Wrap("c", [MDPC_CLIENT, "s"] + ["x"]) == ["c", "", MDPC_CLIENT, "s", "x"];
    assert f.sent == [] + l.sent && f.log == [] + l.log;
    assert ["a"] + ["a"] == ["a", "a"];
    assert Listed(f, "a", Clock) == l;
    assert MdpBroker.Receive(s, m, Clock) == WorkerWaiting(f, "a", Clock);
  }

  lemma TwiceIsUnsound(t: State)
    requires t.waiting == ["a", "a"]
    ensures !Inv(t)
  {
    assert t.waiting[0] == t.waiting[1];
  }

  /** A worker registers and then replies, without having been asked: it is listed twice, for the broker
      and for its service. */
  lemma ListedTwice()
    ensures var t := Run([] + [Hello("a")] + [Answer("a")], Clock);
      && !t.dead && t.waiting == ["a", "a"] && !Inv(t)
      && "s" in t.services && t.services["s"].waiting == ["a", "a"] && t.services["s"].workers == 1
  {
    FirstHello();
    RunMore([], Hello("a"), Clock);
    RunMore([] + [Hello("a")], Answer("a"), Clock);
    AnswerIs();
    DispatchIdle(Doubled(5));
    NotDue(Doubled(6));
    assert Run([] + [Hello("a")] + [Answer("a")], Clock) == Doubled(7);
    TwiceIsUnsound(Doubled(7));
  }
}
