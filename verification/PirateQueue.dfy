/** The Paranoid Pirate queue: a list of live workers kept in the order they were last heard from. */
module PirateQueue {
  import opened Options

  type Id = string

  const HEARTBEAT_INTERVAL := 1000
  const EXPIRY := 3000

  datatype Worker = Worker(id: Id, expiry: int)

  /** `heard`, `dispatched` and `beats` record whose messages came in, who was given a request and who
      was sent a heartbeat; `dead` is set if the assertion in `s_workers_next` fails. */
  datatype State = State(
    workers: seq<Worker>,
    ticks: nat,
    heartbeatAt: int,
    heard: seq<Id>,
    dispatched: seq<Id>,
    beats: seq<Id>,
    dead: bool)

  /** Drop the first worker with identity `id`. */
  function Without(ws: seq<Worker>, id: Id): seq<Worker> {
    if ws == [] then [] else if ws[0].id == id then ws[1..] else [ws[0]] + Without(ws[1..], id)
  }

  /** A message from a worker: `s_worker_new` and `s_worker_ready`. */
  function Ready(s: State, id: Id, clock: nat -> int): State {
    s.(workers := Without(s.workers, id) + [Worker(id, clock(s.ticks) + EXPIRY)],
       ticks := s.ticks + 1, heard := s.heard + [id])
  }

  /** A request from a client: `s_workers_next`. */
  function Give(s: State): State {
    if s.workers == [] then s.(dead := true)
    else s.(workers := s.workers[1..], dispatched := s.dispatched + [s.workers[0].id])
  }

  /** `s_workers_purge`. */
  function Purge(s: State, clock: nat -> int): State
    decreases |s.workers|
  {
    if s.workers == [] then s
    else if clock(s.ticks) < s.workers[0].expiry then s.(ticks := s.ticks + 1)
    else Purge(s.(workers := s.workers[1..], ticks := s.ticks + 1), clock)
  }

  function Ids(ws: seq<Worker>): (ids: seq<Id>)
    ensures |ids| == |ws| && forall i :: 0 <= i < |ws| ==> ids[i] == ws[i].id
  {
    if ws == [] then [] else Ids(ws[..|ws| - 1]) + [ws[|ws| - 1].id]
  }

  /** A heartbeat to every worker listed, when it is time. */
  function Timer(s: State, clock: nat -> int): State {
    if clock(s.ticks) < s.heartbeatAt then s.(ticks := s.ticks + 1)
    else s.(beats := s.beats + Ids(s.workers), heartbeatAt := clock(s.ticks + 1) + HEARTBEAT_INTERVAL,
            ticks := s.ticks + 2)
  }

  /** What a turn dispatches from: a message from a worker comes before the request. */
  function Heard(s: State, back: Option<Id>, clock: nat -> int): State {
    if back.Some? then Ready(s, back.value, clock) else s
  }

  /** One turn of the main loop. The client side is polled only if a worker was listed before
      the poll. */
  function Turn(s: State, back: Option<Id>, front: bool, clock: nat -> int): State {
    var s1 := Heard(s, back, clock);
    var s2 := if front && s.workers != [] then Give(s1) else s1;
    if s2.dead then s2 else Purge(Timer(s2, clock), clock)
  }

  function Init(clock: nat -> int): State {
    State([], 1, clock(0) + HEARTBEAT_INTERVAL, [], [], [], false)
  }

  datatype Input = Input(back: Option<Id>, front: bool)

  function Run(ins: seq<Input>, clock: nat -> int): State {
    if ins == [] then Init(clock)
    else
      var i := ins[|ins| - 1];
      Turn(Run(ins[..|ins| - 1], clock), i.back, i.front, clock)
  }

  // ---------------------------------------------------------------------- invariants

  /** One reading of the clock; a name for triggers. */
  function At(clock: nat -> int, i: nat): int {
    clock(i)
  }

  ghost predicate NonDecreasing(clock: nat -> int) {
    forall i: nat, j: nat :: i <= j ==> At(clock, i) <= At(clock, j)
  }

  /** The number of the last message from `id`, 0 if none. */
  function LastHeard(heard: seq<Id>, id: Id): nat {
    if heard == [] then 0
    else if heard[|heard| - 1] == id then |heard|
    else LastHeard(heard[..|heard| - 1], id)
  }

  /** Identities are distinct and listed least recently heard first. */
  ghost predicate ByLastHeard(ws: seq<Worker>, heard: seq<Id>) {
    && (forall i, j :: 0 <= i < j < |ws| ==> LastHeard(heard, ws[i].id) < LastHeard(heard, ws[j].id))
    && (forall i :: 0 <= i < |ws| ==> LastHeard(heard, ws[i].id) > 0)
  }

  ghost predicate Sorted(ws: seq<Worker>) {
    forall i, j :: 0 <= i < j < |ws| ==> ws[i].expiry <= ws[j].expiry
  }

  /** No expiry lies further ahead than one issued at the latest reading. */
  ghost predicate Inv(s: State, clock: nat -> int) {
    && !s.dead && s.ticks > 0
    && Sorted(s.workers)
    && (forall i :: 0 <= i < |s.workers| ==> s.workers[i].expiry <= At(clock, s.ticks - 1) + EXPIRY)
    && ByLastHeard(s.workers, s.heard)
  }

  ghost function Cut(ws: seq<Worker>, k: nat): (r: seq<Worker>)
    requires k < |ws|
    ensures |r| == |ws| - 1 && forall i :: 0 <= i < |r| ==> r[i] == ws[if i < k then i else i + 1]
  {
    ws[..k] + ws[k + 1..]
  }

  lemma CutBehind(ws: seq<Worker>, j: nat)
    requires ws != [] && j < |ws| - 1
    ensures [ws[0]] + Cut(ws[1..], j) == Cut(ws, j + 1)
  {
  }

  /** `Without` takes out the first place that holds `id`, if any. */
  lemma {:induction false} WithoutPlace(ws: seq<Worker>, id: Id) returns (k: nat)
    ensures k <= |ws| && (forall i :: 0 <= i < k ==> ws[i].id != id)
    ensures if k < |ws| then ws[k].id == id && Without(ws, id) == Cut(ws, k) else Without(ws, id) == ws
  {
    k := 0;
    if ws != [] && ws[0].id != id {
      var t := ws[1..];
      var j := WithoutPlace(t, id);
      k := j + 1;
      assert forall i :: 0 < i < |ws| ==> ws[i] == t[i - 1];
      if j < |t| { CutBehind(ws, j); } else { assert [ws[0]] + t == ws; }
    }
  }

  lemma LastHeardBound(heard: seq<Id>, id: Id)
    ensures LastHeard(heard, id) <= |heard|
  {
  }

  lemma LastHeardAppend(heard: seq<Id>, x: Id, id: Id)
    ensures LastHeard(heard + [x], id) == if id == x then |heard| + 1 else LastHeard(heard, id)
  {
    assert (heard + [x])[..|heard|] == heard;
  }

  lemma CutOrder(ws: seq<Worker>, heard: seq<Id>, k: nat)
    requires ByLastHeard(ws, heard) && k < |ws|
    ensures ByLastHeard(Cut(ws, k), heard)
    ensures forall i :: 0 <= i < |Cut(ws, k)| ==> Cut(ws, k)[i].id != ws[k].id
  {
    forall i | 0 <= i < |Cut(ws, k)| ensures Cut(ws, k)[i].id != ws[k].id {
      var j := if i < k then i else i + 1;
      assert LastHeard(heard, ws[j].id) != LastHeard(heard, ws[k].id);
    }
  }

  lemma CutSorted(ws: seq<Worker>, k: nat, limit: int)
    requires Sorted(ws) && k < |ws| && forall i :: 0 <= i < |ws| ==> ws[i].expiry <= limit
    ensures Sorted(Cut(ws, k)) && forall i :: 0 <= i < |Cut(ws, k)| ==> Cut(ws, k)[i].expiry <= limit
  {
  }

  lemma ReadyOrder(s: State, id: Id, clock: nat -> int)
    requires ByLastHeard(s.workers, s.heard)
    ensures var t := Ready(s, id, clock); ByLastHeard(t.workers, t.heard)
  {
    var t, r := Ready(s, id, clock), Without(s.workers, id);
    var k := WithoutPlace(s.workers, id);
    if k < |s.workers| { CutOrder(s.workers, s.heard, k); }
    forall i | 0 <= i < |t.workers|
      ensures LastHeard(t.heard, t.workers[i].id) == if i < |r| then LastHeard(s.heard, r[i].id) else |t.heard|
    {
      LastHeardAppend(s.heard, id, t.workers[i].id);
    }
    forall i | 0 <= i < |r| ensures LastHeard(s.heard, r[i].id) <= |s.heard| { LastHeardBound(s.heard, r[i].id); }
  }

  lemma AppendSorted(ws: seq<Worker>, w: Worker)
    requires Sorted(ws) && forall i :: 0 <= i < |ws| ==> ws[i].expiry <= w.expiry
    ensures Sorted(ws + [w])
  {
  }

  lemma ReadyInv(s: State, id: Id, clock: nat -> int)
    requires Inv(s, clock) && NonDecreasing(clock)
    ensures Inv(Ready(s, id, clock), clock)
  {
    ReadyOrder(s, id, clock);
    var k := WithoutPlace(s.workers, id);
    var limit := At(clock, s.ticks) + EXPIRY;
    assert At(clock, s.ticks - 1) <= At(clock, s.ticks);
    if k < |s.workers| { CutSorted(s.workers, k, limit); }
    AppendSorted(Without(s.workers, id), Worker(id, limit));
  }

  lemma TailInv(s: State, t: State, clock: nat -> int)
    requires Inv(s, clock) && NonDecreasing(clock) && s.workers != []
    requires t.workers == s.workers[1..] && t.ticks >= s.ticks && t.heard == s.heard && !t.dead
    ensures Inv(t, clock)
  {
    assert forall i :: 0 <= i < |t.workers| ==> t.workers[i] == s.workers[i + 1];
    assert At(clock, s.ticks - 1) <= At(clock, t.ticks - 1);
  }

  lemma LaterInv(s: State, t: State, clock: nat -> int)
    requires Inv(s, clock) && NonDecreasing(clock)
    requires t.workers == s.workers && t.ticks >= s.ticks && t.heard == s.heard && !t.dead
    ensures Inv(t, clock)
  {
    assert At(clock, s.ticks - 1) <= At(clock, t.ticks - 1);
  }

  lemma {:induction false} PurgeInv(s: State, clock: nat -> int)
    requires Inv(s, clock) && NonDecreasing(clock)
    ensures Inv(Purge(s, clock), clock)
    decreases |s.workers|
  {
    if s.workers != [] {
      var t := s.(ticks := s.ticks + 1);
      LaterInv(s, t, clock);
      if clock(s.ticks) >= s.workers[0].expiry {
        TailInv(s, t.(workers := s.workers[1..]), clock);
        PurgeInv(t.(workers := s.workers[1..]), clock);
      }
    }
  }

  /** With a clock that never runs back the list stays ordered, by expiry and by last message, and
      the assertion in `s_workers_next` holds. */
  lemma TurnInv(s: State, back: Option<Id>, front: bool, clock: nat -> int)
    requires Inv(s, clock) && NonDecreasing(clock)
    ensures Inv(Turn(s, back, front, clock), clock)
  {
    var s1 := if back.Some? then Ready(s, back.value, clock) else s;
    if back.Some? { ReadyInv(s, back.value, clock); }
    var s2 := if front && s.workers != [] then Give(s1) else s1;
    if front && s.workers != [] { TailInv(s1, s2, clock); }
    LaterInv(s2, Timer(s2, clock), clock);
    PurgeInv(Timer(s2, clock), clock);
  }

  lemma {:induction false} RunInv(ins: seq<Input>, clock: nat -> int)
    requires NonDecreasing(clock)
    ensures Inv(Run(ins, clock), clock)
  {
    if ins != [] {
      var n := |ins| - 1;
      RunInv(ins[..n], clock);
      TurnInv(Run(ins[..n], clock), ins[n].back, ins[n].front, clock);
    }
  }

  // ------------------------------------------------------------- purge and dispatch

  ghost function Fresh(ws: seq<Worker>, now: int): seq<Worker> {
    if ws == [] then [] else (if now < ws[0].expiry then [ws[0]] else []) + Fresh(ws[1..], now)
  }

  lemma {:induction false} AllFresh(ws: seq<Worker>, now: int)
    requires forall i :: 0 <= i < |ws| ==> now < ws[i].expiry
    ensures Fresh(ws, now) == ws
  {
    if ws != [] { AllFresh(ws[1..], now); }
  }

  /** The purge removes exactly the workers expired by its last reading of the clock. */
  lemma {:induction false} PurgeRemovesExactlyExpired(s: State, clock: nat -> int)
    requires Inv(s, clock) && NonDecreasing(clock)
    ensures var t := Purge(s, clock); t.ticks > 0 && t.workers == Fresh(s.workers, At(clock, t.ticks - 1))
    decreases |s.workers|
  {
    if s.workers != [] {
      if clock(s.ticks) < s.workers[0].expiry {
        AllFresh(s.workers, clock(s.ticks));
      } else {
        var t := s.(workers := s.workers[1..], ticks := s.ticks + 1);
        TailInv(s, t, clock);
        PurgeRemovesExactlyExpired(t, clock);
        PurgeTicks(t, clock);
        assert At(clock, s.ticks) <= At(clock, Purge(t, clock).ticks - 1);
      }
    }
  }

  lemma {:induction false} PurgeTicks(s: State, clock: nat -> int)
    ensures Purge(s, clock).ticks >= s.ticks
    decreases |s.workers|
  {
    if s.workers != [] && clock(s.ticks) >= s.workers[0].expiry {
      PurgeTicks(s.(workers := s.workers[1..], ticks := s.ticks + 1), clock);
    }
  }

  lemma {:induction false} PurgeKeepsDispatched(s: State, clock: nat -> int)
    ensures Purge(s, clock).dispatched == s.dispatched
    decreases |s.workers|
  {
    if s.workers != [] && clock(s.ticks) >= s.workers[0].expiry {
      PurgeKeepsDispatched(s.(workers := s.workers[1..], ticks := s.ticks + 1), clock);
    }
  }

  /** In every turn of every run: a request that is taken goes to the worker heard from least
      recently, the message of that very turn included, and to no other; no request is taken
      exactly when no worker was listed before the poll. */
  lemma GivesLeastRecent(ins: seq<Input>, back: Option<Id>, front: bool, clock: nat -> int)
    requires NonDecreasing(clock)
    ensures var s := Run(ins, clock); var u := Heard(s, back, clock); var t := Turn(s, back, front, clock);
      && (front && s.workers != [] ==>
            && u.workers != [] && t.dispatched == s.dispatched + [u.workers[0].id]
            && forall i :: 0 < i < |u.workers| ==>
                 LastHeard(u.heard, u.workers[0].id) < LastHeard(u.heard, u.workers[i].id))
      && (!front || s.workers == [] ==> t.dispatched == s.dispatched)
  {
    var s, u := Run(ins, clock), Heard(Run(ins, clock), back, clock);
    RunInv(ins, clock);
    if back.Some? { ReadyInv(s, back.value, clock); }
    PurgeKeepsDispatched(Timer(if front && s.workers != [] then Give(u) else u, clock), clock);
  }

  // ------------------------------------------------- one request for every message heard

  function Times(ids: seq<Id>, id: Id): nat {
    if ids == [] then 0 else Times(ids[..|ids| - 1], id) + if ids[|ids| - 1] == id then 1 else 0
  }

  lemma TimesMore(ids: seq<Id>, x: Id, id: Id)
    ensures Times(ids + [x], id) == Times(ids, id) + if x == id then 1 else 0
  {
    assert (ids + [x])[..|ids|] == ids;
  }

  ghost predicate Listed(ws: seq<Worker>, id: Id) {
    exists i :: 0 <= i < |ws| && ws[i].id == id
  }

  /** The requests given to `id`, and one more if it is listed, were each earned by a message. */
  ghost predicate Earned(s: State, id: Id) {
    Times(s.dispatched, id) + (if Listed(s.workers, id) then 1 else 0) <= Times(s.heard, id)
  }

  lemma WithoutListed(ws: seq<Worker>, id: Id, x: Id)
    requires Listed(Without(ws, id), x)
    ensures Listed(ws, x)
  {
    var k := WithoutPlace(ws, id);
    var i :| 0 <= i < |Without(ws, id)| && Without(ws, id)[i].id == x;
    assert ws[if i < k then i else i + 1].id == x || k == |ws|;
  }

  lemma EarnedReady(s: State, x: Id, clock: nat -> int, id: Id)
    requires Earned(s, id)
    ensures Earned(Ready(s, x, clock), id)
  {
    var t, r := Ready(s, x, clock), Without(s.workers, x);
    TimesMore(s.heard, x, id);
    if id != x && Listed(t.workers, id) {
      var i :| 0 <= i < |t.workers| && t.workers[i].id == id;
      assert i < |r| && r[i].id == id;
      WithoutListed(s.workers, x, id);
    }
  }

  /** Who is served leaves the list. */
  lemma GiveUnlists(s: State)
    requires s.workers != [] && ByLastHeard(s.workers, s.heard)
    ensures !Listed(Give(s).workers, s.workers[0].id)
  {
    forall i | 0 <= i < |s.workers[1..]| ensures s.workers[1..][i].id != s.workers[0].id {
      assert LastHeard(s.heard, s.workers[0].id) < LastHeard(s.heard, s.workers[i + 1].id);
    }
  }

  lemma TailListed(ws: seq<Worker>, id: Id)
    requires ws != [] && Listed(ws[1..], id)
    ensures Listed(ws, id)
  {
    var i :| 0 <= i < |ws[1..]| && ws[1..][i].id == id;
    assert ws[i + 1].id == id;
  }

  lemma EarnedGive(s: State, id: Id)
    requires s.workers != [] && ByLastHeard(s.workers, s.heard) && Earned(s, id)
    ensures Earned(Give(s), id)
  {
    TimesMore(s.dispatched, s.workers[0].id, id);
    GiveUnlists(s);
    assert Listed(s.workers, s.workers[0].id);
    if Listed(Give(s).workers, id) { TailListed(s.workers, id); }
  }

  lemma {:induction false} PurgeOnlyDrops(s: State, clock: nat -> int, id: Id)
    ensures var t := Purge(s, clock);
      && t.heard == s.heard && t.dispatched == s.dispatched && t.beats == s.beats && t.heartbeatAt == s.heartbeatAt
      && (Listed(t.workers, id) ==> Listed(s.workers, id))
    decreases |s.workers|
  {
    if s.workers != [] && clock(s.ticks) >= s.workers[0].expiry {
      var t := s.(workers := s.workers[1..], ticks := s.ticks + 1);
      PurgeOnlyDrops(t, clock, id);
      if Listed(t.workers, id) { TailListed(s.workers, id); }
    }
  }

  /** Between the dispatch and the end of the turn workers can only leave the list. */
  lemma SettleOnlyDrops(s: State, clock: nat -> int, id: Id)
    ensures var t := Purge(Timer(s, clock), clock);
      && t.heard == s.heard && t.dispatched == s.dispatched && (Listed(t.workers, id) ==> Listed(s.workers, id))
  {
    PurgeOnlyDrops(Timer(s, clock), clock, id);
  }

  lemma EarnedTurn(s: State, back: Option<Id>, front: bool, clock: nat -> int, id: Id)
    requires Inv(s, clock) && NonDecreasing(clock) && Earned(s, id)
    ensures Earned(Turn(s, back, front, clock), id)
  {
    var u := Heard(s, back, clock);
    if back.Some? {
      ReadyInv(s, back.value, clock);
      EarnedReady(s, back.value, clock, id);
    }
    var v := if front && s.workers != [] then Give(u) else u;
    if front && s.workers != [] { EarnedGive(u, id); }
    SettleOnlyDrops(v, clock, id);
  }

  /** In every run: nobody is given more requests than it has sent messages, not counting the message
      that keeps it listed. */
  lemma {:induction false} RunEarned(ins: seq<Input>, clock: nat -> int, id: Id)
    requires NonDecreasing(clock)
    ensures Earned(Run(ins, clock), id)
  {
    if ins != [] {
      var n := |ins| - 1;
      RunEarned(ins[..n], clock, id);
      RunInv(ins[..n], clock);
      EarnedTurn(Run(ins[..n], clock), ins[n].back, ins[n].front, clock, id);
    }
  }

  /** In every turn of every run that takes a request: whoever was given it is no longer listed after it. */
  lemma ServedLeaves(ins: seq<Input>, back: Option<Id>, clock: nat -> int)
    requires NonDecreasing(clock) && Run(ins, clock).workers != []
    ensures var t := Turn(Run(ins, clock), back, true, clock);
      t.dispatched != [] && !Listed(t.workers, t.dispatched[|t.dispatched| - 1])
  {
    var s, u := Run(ins, clock), Heard(Run(ins, clock), back, clock);
    RunInv(ins, clock);
    if back.Some? { ReadyInv(s, back.value, clock); }
    GiveUnlists(u);
    SettleOnlyDrops(Give(u), clock, u.workers[0].id);
  }

  // -------------------------------------------------------- until when a worker is listed

  /** The last turn in which `id` was heard, counting from 1; 0 if none. */
  function LastTurn(ins: seq<Input>, id: Id): nat {
    if ins == [] then 0
    else if ins[|ins| - 1].back == Some(id) then |ins|
    else LastTurn(ins[..|ins| - 1], id)
  }

  lemma {:induction false} LastTurnBound(ins: seq<Input>, id: Id)
    ensures LastTurn(ins, id) <= |ins|
  {
    if ins != [] { LastTurnBound(ins[..|ins| - 1], id); }
  }

  /** Every worker listed was heard, and is listed until three seconds after the clock reading of that turn. */
  ghost predicate Dated(w: Worker, ins: seq<Input>, clock: nat -> int) {
    var k := LastTurn(ins, w.id);
    0 < k <= |ins| && w.expiry == clock(Run(ins[..k - 1], clock).ticks) + 3000
  }

  lemma DatedLater(w: Worker, ins: seq<Input>, clock: nat -> int)
    requires ins != [] && ins[|ins| - 1].back != Some(w.id) && Dated(w, ins[..|ins| - 1], clock)
    ensures Dated(w, ins, clock)
  {
    var pre, k := ins[..|ins| - 1], LastTurn(ins, w.id);
    assert pre[..k - 1] == ins[..k - 1];
  }

  ghost predicate Within(ws: seq<Worker>, vs: seq<Worker>) {
    forall i :: 0 <= i < |ws| ==> ws[i] in vs
  }

  lemma {:induction false} PurgeWithin(s: State, clock: nat -> int)
    ensures Within(Purge(s, clock).workers, s.workers)
    decreases |s.workers|
  {
    if s.workers != [] && clock(s.ticks) >= s.workers[0].expiry {
      PurgeWithin(s.(workers := s.workers[1..], ticks := s.ticks + 1), clock);
    }
  }

  /** What is listed when the dispatch comes: the sender of the message, anew, and others as they were. */
  lemma HeardLists(s: State, back: Option<Id>, clock: nat -> int, w: Worker)
    requires w in Heard(s, back, clock).workers && ByLastHeard(s.workers, s.heard)
    ensures if back == Some(w.id) then w == Worker(w.id, clock(s.ticks) + 3000) else w in s.workers
  {
    if back.Some? {
      var u := Heard(s, back, clock);
      var k := WithoutPlace(s.workers, back.value);
      if k < |s.workers| { CutOrder(s.workers, s.heard, k); }
      var i :| 0 <= i < |u.workers| && u.workers[i] == w;
      if i < |u.workers| - 1 { assert w == s.workers[if i < k then i else i + 1]; }
    }
  }

  lemma TurnWithin(s: State, back: Option<Id>, front: bool, clock: nat -> int, w: Worker)
    requires w in Turn(s, back, front, clock).workers
    ensures w in Heard(s, back, clock).workers
  {
    var u := Heard(s, back, clock);
    var v := if front && s.workers != [] then Give(u) else u;
    if !v.dead { PurgeWithin(Timer(v, clock), clock); }
  }

  /** What a turn lists: its own sender, anew, and others as they were. */
  lemma TurnLists(s: State, back: Option<Id>, front: bool, clock: nat -> int, w: Worker)
    requires w in Turn(s, back, front, clock).workers && ByLastHeard(s.workers, s.heard)
    ensures if back == Some(w.id) then w == Worker(w.id, clock(s.ticks) + 3000) else w in s.workers
  {
    TurnWithin(s, back, front, clock, w);
    HeardLists(s, back, clock, w);
  }

  /** So no worker heard within the last three seconds is ever purged, and none stays listed longer. */
  lemma {:induction false} RunDated(ins: seq<Input>, clock: nat -> int, w: Worker)
    requires NonDecreasing(clock) && w in Run(ins, clock).workers
    ensures Dated(w, ins, clock)
  {
    var n := |ins| - 1;
    var pre, s := ins[..n], Run(ins[..n], clock);
    RunInv(pre, clock);
    TurnLists(s, ins[n].back, ins[n].front, clock, w);
    if ins[n].back != Some(w.id) {
      RunDated(pre, clock, w);
      DatedLater(w, ins, clock);
    }
  }

  // ---------------------------------------------------- the list, read off the inputs

  /** Whose messages came in, by the inputs alone. */
  function Backs(ins: seq<Input>): seq<Id> {
    if ins == [] then []
    else Backs(ins[..|ins| - 1]) + if ins[|ins| - 1].back.Some? then [ins[|ins| - 1].back.value] else []
  }

  lemma {:induction false} RunHeard(ins: seq<Input>, clock: nat -> int)
    ensures Run(ins, clock).heard == Backs(ins)
  {
    if ins != [] {
      var n := |ins| - 1;
      RunHeard(ins[..n], clock);
      var s, back := Run(ins[..n], clock), ins[n].back;
      var u := Heard(s, back, clock);
      var v := if ins[n].front && s.workers != [] then Give(u) else u;
      SettleOnlyDrops(v, clock, "");
    }
  }

  lemma {:induction false} FreshMember(ws: seq<Worker>, now: int, w: Worker)
    ensures w in Fresh(ws, now) <==> w in ws && now < w.expiry
  {
    if ws != [] {
      FreshMember(ws[1..], now, w);
      assert w in ws <==> w == ws[0] || w in ws[1..];
    }
  }

  lemma SettleKeeps(v: State, clock: nat -> int, w: Worker)
    requires Inv(v, clock) && NonDecreasing(clock)
    ensures var t := Purge(Timer(v, clock), clock);
      t.ticks > 0 && (w in t.workers <==> w in v.workers && clock(t.ticks - 1) < w.expiry)
  {
    LaterInv(v, Timer(v, clock), clock);
    PurgeRemovesExactlyExpired(Timer(v, clock), clock);
    FreshMember(v.workers, At(clock, Purge(Timer(v, clock), clock).ticks - 1), w);
  }

  lemma GiveKeeps(u: State, clock: nat -> int, w: Worker)
    requires Inv(u, clock) && NonDecreasing(clock) && u.workers != []
    ensures Inv(Give(u), clock) && (w in Give(u).workers <==> w in u.workers && u.workers[0] != w)
  {
    TailInv(u, Give(u), clock);
    GiveUnlists(u);
    assert w in u.workers <==> w == u.workers[0] || w in Give(u).workers;
  }

  lemma TurnIs(s: State, back: Option<Id>, front: bool, clock: nat -> int)
    requires Inv(s, clock) && NonDecreasing(clock)
    ensures var u := Heard(s, back, clock);
      && Inv(u, clock) && (s.workers != [] ==> u.workers != [])
      && Turn(s, back, front, clock) ==
         Purge(Timer(if front && s.workers != [] then Give(u) else u, clock), clock)
  {
    if back.Some? { ReadyInv(s, back.value, clock); }
    assert s.workers != [] ==> Heard(s, back, clock).workers != [];
  }

  /** An entry listed when the dispatch comes stays to the end of the turn unless it is served or expires. */
  lemma TurnKeeps(s: State, back: Option<Id>, front: bool, clock: nat -> int, w: Worker)
    requires Inv(s, clock) && NonDecreasing(clock)
    ensures var u := Heard(s, back, clock); var t := Turn(s, back, front, clock);
      && t.ticks > 0 && Inv(u, clock) && (s.workers != [] ==> u.workers != [])
      && (w in t.workers <==>
            w in u.workers && !(front && s.workers != [] && u.workers[0] == w) && clock(t.ticks - 1) < w.expiry)
  {
    var u := Heard(s, back, clock);
    TurnIs(s, back, front, clock);
    if front && s.workers != [] {
      GiveKeeps(u, clock, w);
      SettleKeeps(Give(u), clock, w);
    } else {
      SettleKeeps(u, clock, w);
    }
  }

  /** From state `r` on, `id` has been given no request, and three seconds are not over at the last reading
      of the clock. */
  ghost predicate DueSince(s: State, r: State, id: Id, clock: nat -> int) {
    Times(s.dispatched, id) == Times(r.dispatched, id) && s.ticks > 0 && clock(s.ticks - 1) < clock(r.ticks) + 3000
  }

  /** So it is from turn `k` on. */
  ghost predicate Due(ins: seq<Input>, k: nat, id: Id, clock: nat -> int)
    requires 0 < k <= |ins|
  {
    DueSince(Run(ins, clock), Run(ins[..k - 1], clock), id, clock)
  }

  /** What a turn gives out, and that the clock has been read. */
  lemma TurnGives(s: State, back: Option<Id>, front: bool, clock: nat -> int, id: Id)
    ensures var u := Heard(s, back, clock); var t := Turn(s, back, front, clock);
      && t.ticks >= s.ticks && (s.workers != [] ==> u.workers != [])
      && Times(t.dispatched, id) ==
         Times(s.dispatched, id) + if front && s.workers != [] && u.workers[0].id == id then 1 else 0
  {
    var u := Heard(s, back, clock);
    assert s.workers != [] ==> u.workers != [];
    var v := if front && s.workers != [] then Give(u) else u;
    if front && s.workers != [] { TimesMore(s.dispatched, u.workers[0].id, id); }
    SettleOnlyDrops(v, clock, id);
    PurgeTicks(Timer(v, clock), clock);
  }

  lemma {:induction false} DispatchedGrows(ins: seq<Input>, j: nat, clock: nat -> int, id: Id)
    requires j <= |ins|
    ensures Times(Run(ins[..j], clock).dispatched, id) <= Times(Run(ins, clock).dispatched, id)
  {
    if j == |ins| {
      assert ins[..j] == ins;
    } else {
      var n := |ins| - 1;
      DispatchedGrows(ins[..n], j, clock, id);
      assert ins[..n][..j] == ins[..j];
      TurnGives(Run(ins[..n], clock), ins[n].back, ins[n].front, clock, id);
    }
  }

  /** A message from someone else leaves an entry in place. */
  lemma HeardKeeps(s: State, back: Option<Id>, clock: nat -> int, w: Worker)
    requires w in s.workers && back != Some(w.id)
    ensures w in Heard(s, back, clock).workers
  {
    if back.Some? {
      var k := WithoutPlace(s.workers, back.value);
      var i :| 0 <= i < |s.workers| && s.workers[i] == w;
      if k < |s.workers| { assert Cut(s.workers, k)[if i < k then i else i - 1] == w; }
    }
  }

  lemma OneEntry(s: State, clock: nat -> int, v: Worker, w: Worker)
    requires Inv(s, clock) && v in s.workers && w in s.workers && v.id == w.id
    ensures v == w
  {
    var i :| 0 <= i < |s.workers| && s.workers[i] == v;
    var j :| 0 <= j < |s.workers| && s.workers[j] == w;
    assert LastHeard(s.heard, s.workers[i].id) == LastHeard(s.heard, s.workers[j].id);
  }

  /** Whether an entry listed when the dispatch comes is still there at the end of the turn. */
  lemma EntryAfter(s: State, back: Option<Id>, front: bool, clock: nat -> int, w: Worker)
    requires Inv(s, clock) && NonDecreasing(clock) && w in Heard(s, back, clock).workers
    ensures var t := Turn(s, back, front, clock);
      && t.ticks > 0
      && (Listed(t.workers, w.id) <==>
            Times(t.dispatched, w.id) == Times(s.dispatched, w.id) && clock(t.ticks - 1) < w.expiry)
  {
    var u, t := Heard(s, back, clock), Turn(s, back, front, clock);
    TurnKeeps(s, back, front, clock, w);
    TurnGives(s, back, front, clock, w.id);
    if front && s.workers != [] && u.workers[0].id == w.id { OneEntry(u, clock, u.workers[0], w); }
    if i :| 0 <= i < |t.workers| && t.workers[i].id == w.id {
      TurnWithin(s, back, front, clock, t.workers[i]);
      OneEntry(u, clock, t.workers[i], w);
    }
    if w in t.workers { assert Listed(t.workers, w.id); }
  }

  lemma StillAfter(s: State, back: Option<Id>, front: bool, clock: nat -> int, w: Worker, r: State)
    requires Inv(s, clock) && NonDecreasing(clock) && w in s.workers && back != Some(w.id)
    requires w.expiry == clock(r.ticks) + 3000 && DueSince(s, r, w.id, clock)
    ensures var t := Turn(s, back, front, clock); Listed(t.workers, w.id) <==> DueSince(t, r, w.id, clock)
  {
    HeardKeeps(s, back, clock, w);
    EntryAfter(s, back, front, clock, w);
  }

  /** The turn in which `id` is heard. */
  lemma {:induction false} ListedNow(ins: seq<Input>, clock: nat -> int, id: Id)
    requires NonDecreasing(clock) && ins != [] && ins[|ins| - 1].back == Some(id)
    ensures Listed(Run(ins, clock).workers, id) <==> Due(ins, |ins|, id, clock)
  {
    var n := |ins| - 1;
    var s := Run(ins[..n], clock);
    var w, u := Worker(id, clock(s.ticks) + 3000), Heard(s, Some(id), clock);
    assert u.workers[|u.workers| - 1] == w;
    RunInv(ins[..n], clock);
    EntryAfter(s, Some(id), ins[n].front, clock, w);
  }

  /** A later turn, in which it is not. */
  lemma {:induction false} ListedStill(ins: seq<Input>, clock: nat -> int, id: Id, k: nat)
    requires NonDecreasing(clock) && ins != [] && ins[|ins| - 1].back != Some(id)
    requires var pre := ins[..|ins| - 1];
      LastTurn(pre, id) == k && 0 < k <= |pre| && Listed(Run(pre, clock).workers, id) && Due(pre, k, id, clock)
    ensures Listed(Run(ins, clock).workers, id) <==> Due(ins, k, id, clock)
  {
    var n := |ins| - 1;
    var pre := ins[..n];
    var s := Run(pre, clock);
    var i :| 0 <= i < |s.workers| && s.workers[i].id == id;
    var w := s.workers[i];
    assert pre[..k - 1] == ins[..k - 1];
    RunInv(pre, clock);
    RunDated(pre, clock, w);
    StillAfter(s, ins[n].back, ins[n].front, clock, w, Run(ins[..k - 1], clock));
  }

  /** Once unlisted, `id` stays so until it is heard again. */
  lemma {:induction false} UnlistedStill(ins: seq<Input>, clock: nat -> int, id: Id)
    requires NonDecreasing(clock) && ins != [] && ins[|ins| - 1].back != Some(id)
    requires !Listed(Run(ins[..|ins| - 1], clock).workers, id)
    ensures !Listed(Run(ins, clock).workers, id)
  {
    var n := |ins| - 1;
    var s, t := Run(ins[..n], clock), Run(ins, clock);
    RunInv(ins[..n], clock);
    forall j | 0 <= j < |t.workers| ensures t.workers[j].id != id {
      if t.workers[j].id == id { TurnLists(s, ins[n].back, ins[n].front, clock, t.workers[j]); }
    }
  }

  lemma DueBefore(s: State, back: Option<Id>, front: bool, clock: nat -> int, id: Id, r: State)
    requires NonDecreasing(clock) && s.ticks > 0 && Times(r.dispatched, id) <= Times(s.dispatched, id)
    requires DueSince(Turn(s, back, front, clock), r, id, clock)
    ensures DueSince(s, r, id, clock)
  {
    TurnGives(s, back, front, clock, id);
    assert At(clock, s.ticks - 1) <= At(clock, Turn(s, back, front, clock).ticks - 1);
  }

  lemma {:induction false} DueEarlier(ins: seq<Input>, k: nat, id: Id, clock: nat -> int)
    requires NonDecreasing(clock) && 0 < k < |ins| && Due(ins, k, id, clock)
    ensures Due(ins[..|ins| - 1], k, id, clock)
  {
    var n := |ins| - 1;
    var pre := ins[..n];
    assert pre[..k - 1] == ins[..k - 1];
    DispatchedGrows(pre, k - 1, clock, id);
    RunInv(pre, clock);
    DueBefore(Run(pre, clock), ins[n].back, ins[n].front, clock, id, Run(ins[..k - 1], clock));
  }

  /** In every run a worker is listed if and only if it has been heard, has been given no request since,
      and its three seconds are not over. */
  lemma {:induction false} ListedIff(ins: seq<Input>, clock: nat -> int, id: Id)
    requires NonDecreasing(clock)
    ensures LastTurn(ins, id) <= |ins|
    ensures Listed(Run(ins, clock).workers, id) <==>
            LastTurn(ins, id) > 0 && Due(ins, LastTurn(ins, id), id, clock)
  {
    LastTurnBound(ins, id);
    if ins != [] {
      var n, k := |ins| - 1, LastTurn(ins, id);
      var pre := ins[..n];
      if ins[n].back == Some(id) {
        ListedNow(ins, clock, id);
      } else {
        ListedIff(pre, clock, id);
        if Listed(Run(pre, clock).workers, id) {
          ListedStill(ins, clock, id, k);
        } else {
          UnlistedStill(ins, clock, id);
          if k > 0 && Due(ins, k, id, clock) { DueEarlier(ins, k, id, clock); }
        }
      }
    }
  }

  /** One heartbeat each for `ws`, in order. */
  ghost predicate BeatEach(before: seq<Id>, after: seq<Id>, ws: seq<Worker>) {
    |after| == |before| + |ws| && before <= after && forall i :: 0 <= i < |ws| ==> after[|before| + i] == ws[i].id
  }

  lemma BeatsAre(before: seq<Id>, after: seq<Id>, ws: seq<Worker>)
    requires BeatEach(before, after, ws)
    ensures after == before + Ids(ws)
  {
    assert forall i :: 0 <= i < |ws| ==> (before + Ids(ws))[|before| + i] == ws[i].id;
  }

  lemma TimerBeats(s: State, clock: nat -> int)
    ensures var t := Purge(Timer(s, clock), clock);
      if clock(s.ticks) < s.heartbeatAt then t.beats == s.beats && t.heartbeatAt == s.heartbeatAt
      else t.heartbeatAt == clock(s.ticks + 1) + 1000 && BeatEach(s.beats, t.beats, s.workers)
  {
    PurgeOnlyDrops(Timer(s, clock), clock, "");
  }

  /** In every turn: when a second has passed since the last heartbeats, every worker still listed after
      the dispatch gets one, in order, and otherwise nobody does. */
  lemma BeatsAll(s: State, back: Option<Id>, front: bool, clock: nat -> int)
    requires Inv(s, clock) && NonDecreasing(clock)
    ensures var u := Heard(s, back, clock); var t := Turn(s, back, front, clock);
      var ws := if front && s.workers != [] then u.workers[1..] else u.workers;
      if clock(u.ticks) < s.heartbeatAt then t.beats == s.beats && t.heartbeatAt == s.heartbeatAt
      else t.heartbeatAt == clock(u.ticks + 1) + 1000 && BeatEach(s.beats, t.beats, ws)
  {
    var u := Heard(s, back, clock);
    assert s.workers != [] ==> u.workers != [];
    var v := if front && s.workers != [] then Give(u) else u;
    assert !v.dead && v.beats == s.beats && v.heartbeatAt == s.heartbeatAt && v.ticks == u.ticks;
    TimerBeats(v, clock);
  }

  // --------------------------------------------------------------------- the program

  class Queue {
    const clock: nat -> int
    var workers: seq<Worker>
    var ticks: nat
    var heartbeatAt: int
    ghost var heard: seq<Id>
    var dispatched: seq<Id>
    var beats: seq<Id>

    ghost function Abs(): State
      reads this
    {
      State(workers, ticks, heartbeatAt, heard, dispatched, beats, false)
    }

    constructor (clock: nat -> int)
      ensures this.clock == clock && Abs() == Init(clock) && heartbeatAt == clock(0) + 1000 && ticks == 1
      ensures workers == [] && dispatched == [] && beats == []
    {
      this.clock := clock;
      workers, ticks, heard, dispatched, beats := [], 1, [], [], [];
      heartbeatAt := clock(0) + HEARTBEAT_INTERVAL;
    }

    /** `s_worker_new` and `s_worker_ready`: find the old entry, remove it, append the new one. */
    method OnBackend(id: Id)
      modifies this
      ensures Abs() == Ready(old(Abs()), id, clock)
    {
      var w := Worker(id, clock(ticks) + EXPIRY);
      ticks := ticks + 1;
      var ws := workers;
      ghost var k := WithoutPlace(ws, id);
      var i := 0;
      while i < |ws| && ws[i].id != id
        invariant 0 <= i <= k
      {
        i := i + 1;
      }
      if i < |ws| {
        ws := ws[..i] + ws[i + 1..];
      }
      assert ws == Without(old(workers), id);
      workers := ws + [w];
      heard := heard + [id];
    }

    /** `s_workers_next`, where a worker is listed. */
    method OnFrontend()
      requires workers != []
      modifies this
      ensures Abs() == Give(old(Abs()))
      ensures workers == old(workers)[1..] && dispatched == old(dispatched) + [old(workers)[0].id]
    {
      dispatched := dispatched + [workers[0].id];
      workers := workers[1..];
    }

    /** One heartbeat to every worker listed, in order. */
    method SendBeats()
      modifies `beats
      ensures BeatEach(old(beats), beats, workers)
    {
      var i := 0;
      while i < |workers|
        invariant 0 <= i <= |workers| && |beats| == |old(beats)| + i && old(beats) <= beats
        invariant forall j :: 0 <= j < i ==> beats[|old(beats)| + j] == workers[j].id
      {
        beats := beats + [workers[i].id];
        i := i + 1;
      }
    }

    /** The heartbeats, when it is time. */
    method Heartbeat()
      modifies this
      ensures Abs() == Timer(old(Abs()), clock) && workers == old(workers)
      ensures BeatEach(old(beats), beats, if clock(old(ticks)) >= old(heartbeatAt) then workers else [])
    {
      if clock(ticks) >= heartbeatAt {
        SendBeats();
        BeatsAre(old(beats), beats, workers);
        heartbeatAt := clock(ticks + 1) + HEARTBEAT_INTERVAL;
        ticks := ticks + 2;
      } else {
        ticks := ticks + 1;
      }
    }

    /** `s_workers_purge`. */
    method PurgeExpired()
      modifies this
      ensures Abs() == Purge(old(Abs()), clock)
    {
      while workers != []
        invariant Purge(Abs(), clock) == Purge(old(Abs()), clock)
        decreases |workers|
      {
        var now := clock(ticks);
        ticks := ticks + 1;
        if now < workers[0].expiry { break; }
        workers := workers[1..];
      }
    }

    /** One turn of the main loop; it takes every input and never meets the failing assertion. */
    method LoopOnce(back: Option<Id>, front: bool)
      requires Inv(Abs(), clock) && NonDecreasing(clock)
      modifies this
      ensures Inv(Abs(), clock) && Abs() == Turn(old(Abs()), back, front, clock)
    {
      TurnInv(Abs(), back, front, clock);
      var polled := workers != [];
      if back.Some? {
        OnBackend(back.value);
      }
      if front && polled {
        OnFrontend();
      }
      Heartbeat();
      PurgeExpired();
    }
  }
}
