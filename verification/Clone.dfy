/** State replication: a publisher of numbered updates, a state manager that serves
    snapshots, and a replica that combines one snapshot with the update stream. */
module Clone {
  import opened KvMsg
  import opened Options

  type Table = map<string, string>

  datatype Update = Update(key: string, body: string)

  const KTHXBAI: string := "KTHXBAI"

  /** The table after a sequence of stores. */
  function Fold(us: seq<Update>): Table {
    if us == [] then map[]
    else
      var n := |us| - 1;
      Fold(us[..n])[us[n].key := us[n].body]
  }

  /** `us` lists the entries of `t`, each once, in whatever order the hash table yields. */
  ghost predicate Enumerates(us: seq<Update>, t: Table) {
    && (forall i, j :: 0 <= i < j < |us| ==> us[i].key != us[j].key)
    && (forall i :: 0 <= i < |us| ==> us[i].key in t && t[us[i].key] == us[i].body)
    && (forall k :: k in t ==> exists i :: 0 <= i < |us| && us[i].key == k)
  }

  lemma {:induction false} FoldEntry(us: seq<Update>, i: nat)
    requires i < |us| && forall a, b :: 0 <= a < b < |us| ==> us[a].key != us[b].key
    ensures us[i].key in Fold(us) && Fold(us)[us[i].key] == us[i].body
  {
    var n := |us| - 1;
    if i < n {
      assert us[i].key != us[n].key && us[..n][i] == us[i];
      FoldEntry(us[..n], i);
    }
  }

  lemma {:induction false} FoldKeys(us: seq<Update>, k: string)
    ensures k in Fold(us) <==> exists i :: 0 <= i < |us| && us[i].key == k
  {
    if us != [] {
      var n := |us| - 1;
      FoldKeys(us[..n], k);
      if i :| 0 <= i < n && us[i].key == k { assert us[..n][i].key == k; }
      if i :| 0 <= i < n && us[..n][i].key == k { assert us[i].key == k; }
    }
  }

  /** Loading a snapshot rebuilds the table it was taken from, in any order. */
  lemma SnapshotRebuilds(us: seq<Update>, t: Table)
    requires Enumerates(us, t)
    ensures Fold(us) == t
  {
    forall k ensures k in Fold(us) <==> k in t { FoldKeys(us, k); }
    forall k | k in t ensures Fold(us)[k] == t[k] {
      var i :| 0 <= i < |us| && us[i].key == k;
      FoldEntry(us, i);
    }
  }

  // ------------------------------------------------------------------ the distributed run

  /** The published updates in order (number i is `pub[i - 1]`), how many the state manager
      has stored, where the subscriber's stream starts and how far it has been read, which
      state the snapshot held, and the replica's own table and sequence number. */
  datatype System = System(
    pub: seq<Update>,
    managed: nat,
    joined: Option<nat>,
    taken: nat,
    loaded: Option<nat>,
    table: Table,
    sequence: int)

  datatype Event =
    | Publish(u: Update)
    | Manage
    | Subscribe
    | Load(us: seq<Update>)
    | Deliver

  ghost predicate WellFormed(s: System) {
    && s.managed <= |s.pub| && s.taken <= |s.pub|
    && (forall i :: 0 <= i < |s.pub| ==> s.pub[i].key != KTHXBAI)
    && (s.joined.Some? ==> s.joined.value <= s.taken && (s.loaded.None? ==> s.taken == s.joined.value))
  }

  /** The number the state manager holds: what it saw of the last update it stored. */
  function ManagerSequence(s: System, seen: int -> int): int {
    if s.managed == 0 then 0 else seen(s.managed)
  }

  /** One step; `seen(n)` is what a reader decodes of the number `n`. */
  ghost function Next(s: System, e: Event, seen: int -> int): (t: System)
    requires WellFormed(s)
    ensures WellFormed(t)
  {
    match e
    case Publish(u) => if u.key == KTHXBAI then s else s.(pub := s.pub + [u])
    case Manage => if s.managed < |s.pub| then s.(managed := s.managed + 1) else s
    case Subscribe => if s.joined.None? then s.(joined := Some(|s.pub|), taken := |s.pub|) else s
    case Load(us) =>
      if s.loaded.None? && Enumerates(us, Fold(s.pub[..s.managed])) then
        s.(loaded := Some(s.managed), table := Fold(us), sequence := seen(ManagerSequence(s, seen)))
      else s
    case Deliver =>
      if s.loaded.Some? && s.joined.Some? && s.taken < |s.pub| then
        var n, u := s.taken + 1, s.pub[s.taken];
        if seen(n) > s.sequence then s.(taken := n, sequence := seen(n), table := s.table[u.key := u.body])
        else s.(taken := n)
      else s
  }

  ghost function Run(es: seq<Event>, seen: int -> int): (s: System)
    ensures WellFormed(s)
  {
    if es == [] then System([], 0, None, 0, None, map[], 0)
    else Next(Run(es[..|es| - 1], seen), es[|es| - 1], seen)
  }

  /** The stream reaches back to the snapshot: its first update is at most one past it. */
  ghost predicate Timely(s: System) {
    s.loaded.Some? && s.joined.Some? ==> s.joined.value <= s.loaded.value
  }

  /** The last update the replica has, through snapshot or stream. */
  ghost function Position(s: System): nat
    requires s.loaded.Some?
  {
    if s.joined.Some? && s.taken > s.loaded.value then s.taken else s.loaded.value
  }

  /** The replica holds exactly the first `Position` updates, and its number says so. */
  ghost predicate Faithful(s: System, seen: int -> int) {
    s.loaded.Some? ==>
      && Position(s) <= |s.pub|
      && s.sequence == seen(Position(s))
      && s.table == Fold(s.pub[..Position(s)])
  }

  /** A number read, up to `n`, is stable. */
  ghost predicate Stable(seen: int -> int, n: int) {
    seen(0) == 0 && forall i :: 0 <= i <= n ==> seen(seen(i)) == seen(i)
  }

  ghost predicate InOrder(seen: int -> int, lo: int, hi: int) {
    forall i, j :: lo <= i < j <= hi ==> seen(i) < seen(j)
  }

  /** The numbers of the stream, from where it was joined, are read in order. */
  ghost predicate Reads(s: System, seen: int -> int) {
    Stable(seen, |s.pub|) && (s.joined.Some? ==> InOrder(seen, s.joined.value, |s.pub|))
  }

  /** An update behind the snapshot is dropped, the next one is applied. */
  lemma FaithfulDeliver(s: System, seen: int -> int)
    requires WellFormed(s) && Faithful(s, seen) && Timely(s) && Reads(s, seen)
    requires s.loaded.Some? && s.joined.Some? && s.taken < |s.pub|
    ensures Faithful(Next(s, Deliver, seen), seen)
  {
    var n := s.taken + 1;
    if n > s.loaded.value {
      assert seen(s.taken) < seen(n);
      assert s.pub[..n] == s.pub[..s.taken] + [s.pub[s.taken]];
      assert s.pub[..n][..s.taken] == s.pub[..s.taken];
    } else if n < s.loaded.value {
      assert seen(n) < seen(s.loaded.value);
    }
  }

  lemma FaithfulStep(s: System, e: Event, seen: int -> int)
    requires WellFormed(s) && Faithful(s, seen) && Timely(Next(s, e, seen)) && Reads(Next(s, e, seen), seen)
    ensures Faithful(Next(s, e, seen), seen)
  {
    var t := Next(s, e, seen);
    match e
    case Publish(u) =>
      if s.loaded.Some? { assert t.pub[..Position(s)] == s.pub[..Position(s)] || t == s; }
    case Manage =>
    case Subscribe =>
    case Load(us) =>
      if t != s {
        SnapshotRebuilds(us, Fold(s.pub[..s.managed]));
        assert seen(seen(s.managed)) == seen(s.managed);
        assert seen(seen(0)) == seen(0);
      }
    case Deliver => if t != s { FaithfulDeliver(s, seen); }
  }

  lemma EarlierToo(s: System, e: Event, seen: int -> int)
    requires WellFormed(s) && Timely(Next(s, e, seen)) && Reads(Next(s, e, seen), seen)
    ensures Timely(s) && Reads(s, seen)
  {
    assert |s.pub| <= |Next(s, e, seen).pub|;
  }

  /** In every run with a timely stream whose numbers are read in order, the replica is faithful. */
  lemma {:induction false} RunFaithful(es: seq<Event>, seen: int -> int)
    requires Timely(Run(es, seen)) && Reads(Run(es, seen), seen)
    ensures Faithful(Run(es, seen), seen)
  {
    if es != [] {
      var pre, e := es[..|es| - 1], es[|es| - 1];
      var s := Run(pre, seen);
      EarlierToo(s, e, seen);
      RunFaithful(pre, seen);
      FaithfulStep(s, e, seen);
    }
  }

  /** Once its queue is drained a faithful replica holds the whole published state. */
  lemma DrainedIsComplete(s: System, seen: int -> int)
    requires WellFormed(s) && Faithful(s, seen) && s.loaded.Some? && s.joined.Some? && s.taken == |s.pub|
    ensures s.table == Fold(s.pub)
  {
    assert s.pub[..|s.pub|] == s.pub;
  }

  // ---------------------------------------------------------- from the events alone

  /** The updates published in `es`, in order. */
  ghost function Published(es: seq<Event>): seq<Update> {
    if es == [] then []
    else
      var e := es[|es| - 1];
      Published(es[..|es| - 1]) + if e.Publish? && e.u.key != KTHXBAI then [e.u] else []
  }

  lemma {:induction false} PublishedIs(es: seq<Event>, seen: int -> int)
    ensures Run(es, seen).pub == Published(es)
  {
    if es != [] { PublishedIs(es[..|es| - 1], seen); }
  }

  /** `es`, then `n` times `e`. */
  ghost function Then(es: seq<Event>, e: Event, n: nat): seq<Event> {
    if n == 0 then es else Then(es, e, n - 1) + [e]
  }

  function Min(a: int, b: int): int {
    if a < b then a else b
  }

  ghost function Steps(s: System, e: Event, n: nat, seen: int -> int): (t: System)
    requires WellFormed(s)
    ensures WellFormed(t)
  {
    if n == 0 then s else Next(Steps(s, e, n - 1, seen), e, seen)
  }

  lemma {:induction false} RunThen(es: seq<Event>, e: Event, n: nat, seen: int -> int)
    ensures Run(Then(es, e, n), seen) == Steps(Run(es, seen), e, n, seen)
  {
    if n > 0 {
      RunThen(es, e, n - 1, seen);
      RunAppend(Then(es, e, n - 1), e, seen);
    }
  }

  lemma {:induction false} Managing(s: System, n: nat, seen: int -> int)
    requires WellFormed(s)
    ensures Steps(s, Manage, n, seen) == s.(managed := Min(s.managed + n, |s.pub|))
  {
    if n > 0 { Managing(s, n - 1, seen); }
  }

  /** `t` is `s` with `n` more updates of the stream received, as far as there are any. */
  ghost predicate Advanced(s: System, t: System, n: nat) {
    && t.pub == s.pub && t.joined == s.joined && t.loaded == s.loaded && s.loaded.Some? && s.joined.Some?
    && t.taken == Min(s.taken + n, |s.pub|)
  }

  lemma {:induction false} Draining(s: System, n: nat, seen: int -> int)
    requires WellFormed(s) && s.loaded.Some? && s.joined.Some?
    ensures Advanced(s, Steps(s, Deliver, n, seen), n)
  {
    if n > 0 { Draining(s, n - 1, seen); }
  }

  /** A snapshot the manager may serve is taken, at its state. */
  lemma Loading(es: seq<Event>, us: seq<Update>, seen: int -> int)
    requires var s := Run(es, seen); s.loaded.None? && Enumerates(us, Fold(s.pub[..s.managed]))
    ensures var s, t := Run(es, seen), Run(es + [Load(us)], seen);
      t.pub == s.pub && t.joined == s.joined && t.taken == s.taken && t.loaded == Some(s.managed)
  {
    RunAppend(es, Load(us), seen);
  }

  /** A replica with a timely stream that receives all of it is complete. */
  lemma DrainedRun(es: seq<Event>, n: nat, seen: int -> int)
    requires var s := Run(es, seen);
      s.loaded.Some? && s.joined.Some? && Timely(s) && Reads(s, seen) && |s.pub| <= s.taken + n
    ensures var s, t := Run(es, seen), Run(Then(es, Deliver, n), seen);
      t.table == Fold(s.pub) && t.sequence == seen(|s.pub|)
  {
    var s, es' := Run(es, seen), Then(es, Deliver, n);
    RunThen(es, Deliver, n, seen);
    Draining(s, n, seen);
    RunFaithful(es', seen);
    DrainedIsComplete(Run(es', seen), seen);
  }

  lemma {:induction false} LoadedRun(es: seq<Event>, us: seq<Update>, n: nat, seen: int -> int)
    requires var s := Run(es, seen);
      && s.joined.Some? && s.loaded.None? && s.joined.value <= s.managed && |s.pub| <= s.taken + n
      && Enumerates(us, Fold(s.pub[..s.managed])) && Reads(s, seen)
    ensures var s, t := Run(es, seen), Run(Then(es + [Load(us)], Deliver, n), seen);
      t.table == Fold(s.pub) && t.sequence == seen(|s.pub|)
  {
    Loading(es, us, seen);
    DrainedRun(es + [Load(us)], n, seen);
  }

  /** Whatever happened before: once a subscriber has joined, let the manager store `m` updates, the replica
      load any snapshot of that state, no older than the stream, and then receive what is left of the stream.
      The replica then holds every update published, and the number of the last. */
  lemma {:induction false} Converges(es: seq<Event>, m: nat, us: seq<Update>, n: nat, seen: int -> int)
    requires var s := Run(es, seen); var k := Min(s.managed + m, |s.pub|);
      && s.joined.Some? && s.loaded.None? && s.joined.value <= k && |s.pub| <= s.taken + n
      && Enumerates(us, Fold(s.pub[..k])) && Reads(s, seen)
    ensures var t := Run(Then(Then(es, Manage, m) + [Load(us)], Deliver, n), seen);
      t.table == Fold(Published(es)) && t.sequence == seen(|Published(es)|)
  {
    PublishedIs(es, seen);
    RunThen(es, Manage, m, seen);
    Managing(Run(es, seen), m, seen);
    LoadedRun(Then(es, Manage, m), us, n, seen);
  }

  // ------------------------------------------- the decoder as written, and how far it works

  lemma SeenStable(n: int)
    requires n < INT64_HALF
    ensures Stable(Seen, n)
  {
    SeenIffByteClear(0);
    forall i | 0 <= i <= n ensures Seen(Seen(i)) == Seen(i) { SeenIdempotent(i); }
  }

  /** Within one block of 2^24 numbers the decoder as written reads in order. */
  lemma SeenInOrder(lo: int, hi: int)
    requires 0 <= lo <= hi < TOP && lo / LIMIT == hi / LIMIT
    ensures InOrder(Seen, lo, hi)
  {
    forall i, j | lo <= i < j <= hi ensures Seen(i) < Seen(j) {
      assert lo / LIMIT <= i / LIMIT <= j / LIMIT <= hi / LIMIT;
      SeenIncreasesInBlock(i, j);
    }
  }

  const PLAIN: Update := Update("a", "x")

  /** `j` updates to one key, each stored by the state manager at once. */
  ghost function Warm(j: nat): seq<Event> {
    if j == 0 then [] else Warm(j - 1) + [Publish(PLAIN)] + [Manage]
  }

  /** Then a subscriber that loads at once, and `n` more such updates, each delivered at once. */
  ghost function Drill(j: nat, n: nat): seq<Event> {
    if n == 0 then Warm(j) + [Subscribe] + [Load(Stock(j))]
    else Drill(j, n - 1) + [Publish(PLAIN)] + [Deliver]
  }

  lemma RunAppend(es: seq<Event>, e: Event, seen: int -> int)
    ensures Run(es + [e], seen) == Next(Run(es, seen), e, seen)
  {
    assert (es + [e])[..|es|] == es;
  }

  ghost predicate AllPlain(us: seq<Update>) {
    forall i :: 0 <= i < |us| ==> us[i] == PLAIN
  }

  lemma {:induction false} FoldPlain(us: seq<Update>)
    requires AllPlain(us)
    ensures Fold(us) == if us == [] then map[] else map["a" := "x"]
  {
    if us != [] { FoldPlain(us[..|us| - 1]); }
  }

  lemma {:induction false} WarmState(j: nat, seen: int -> int)
    ensures var s := Run(Warm(j), seen);
      |s.pub| == j == s.managed && AllPlain(s.pub) && s.joined == None && s.loaded == None
  {
    if j > 0 {
      WarmState(j - 1, seen);
      RunAppend(Warm(j - 1), Publish(PLAIN), seen);
      RunAppend(Warm(j - 1) + [Publish(PLAIN)], Manage, seen);
      assert PLAIN.key != KTHXBAI;
    }
  }

  /** Everything since update `j` has been delivered, all of it alike. */
  ghost predicate Drilled(s: System, j: nat, n: nat) {
    s.joined == Some(j) && s.loaded == Some(j) && s.taken == j + n == |s.pub| && AllPlain(s.pub)
  }

  function Stock(j: nat): seq<Update> {
    if j == 0 then [] else [PLAIN]
  }

  lemma StockEnumerates(j: nat)
    ensures Enumerates(Stock(j), if j == 0 then map[] else map["a" := "x"])
  {
    if j > 0 { assert Stock(j)[0].key == "a"; }
  }

  lemma StartFrom(s: System, j: nat, seen: int -> int)
    requires WellFormed(s) && |s.pub| == j == s.managed && AllPlain(s.pub) && s.joined == None && s.loaded == None
    ensures Drilled(Next(Next(s, Subscribe, seen), Load(Stock(j)), seen), j, 0)
  {
    assert s.pub[..s.managed] == s.pub;
    FoldPlain(s.pub);
    StockEnumerates(j);
  }

  lemma DrillStart(j: nat, seen: int -> int)
    ensures Drilled(Run(Drill(j, 0), seen), j, 0)
  {
    WarmState(j, seen);
    StartFrom(Run(Warm(j), seen), j, seen);
    RunAppend(Warm(j), Subscribe, seen);
    RunAppend(Warm(j) + [Subscribe], Load(Stock(j)), seen);
  }

  lemma DrillOnce(s: System, j: nat, n: nat, seen: int -> int)
    requires WellFormed(s) && Drilled(s, j, n)
    ensures Drilled(Next(Next(s, Publish(PLAIN), seen), Deliver, seen), j, n + 1)
  {
    assert PLAIN.key != KTHXBAI;
  }

  lemma {:induction false} DrillState(j: nat, n: nat, seen: int -> int)
    ensures Drilled(Run(Drill(j, n), seen), j, n)
  {
    if n == 0 {
      DrillStart(j, seen);
    } else {
      DrillState(j, n - 1, seen);
      DrillOnce(Run(Drill(j, n - 1), seen), j, n - 1, seen);
      RunAppend(Drill(j, n - 1), Publish(PLAIN), seen);
      RunAppend(Drill(j, n - 1) + [Publish(PLAIN)], Deliver, seen);
    }
  }

  lemma DrilledReads(s: System, j: nat, n: nat)
    requires Drilled(s, j, n) && j + n < TOP && j / LIMIT == (j + n) / LIMIT
    ensures Timely(s) && Reads(s, Seen)
  {
    SeenStable(j + n);
    SeenInOrder(j, j + n);
  }

  lemma DrilledFaithful(s: System, j: nat, n: nat, seen: int -> int)
    requires WellFormed(s) && Drilled(s, j, n) && Faithful(s, seen)
    ensures s.sequence == seen(j + n) && s.table == Fold(s.pub)
  {
    assert Position(s) == j + n && s.pub[..j + n] == s.pub;
  }

  lemma DrillFaithful(j: nat, n: nat)
    requires j + n < TOP && j / LIMIT == (j + n) / LIMIT
    ensures var s := Run(Drill(j, n), Seen);
      Drilled(s, j, n) && s.sequence == Seen(j + n) && s.table == Fold(s.pub)
  {
    DrillState(j, n, Seen);
    DrilledReads(Run(Drill(j, n), Seen), j, n);
    RunFaithful(Drill(j, n), Seen);
    DrilledFaithful(Run(Drill(j, n), Seen), j, n, Seen);
  }

  /** One more update, for a key not seen before, whose number does not look newer. */
  lemma DroppedUpdate(s: System, u: Update, seen: int -> int)
    requires WellFormed(s) && s.loaded.Some? && s.joined.Some? && s.taken == |s.pub| && s.table == Fold(s.pub)
    requires u.key != KTHXBAI && u.key !in s.table && seen(|s.pub| + 1) <= s.sequence
    ensures var t := Next(Next(s, Publish(u), seen), Deliver, seen);
      && t.pub == s.pub + [u] && t.joined == s.joined && t.loaded == s.loaded && t.taken == |t.pub|
      && t.table != Fold(t.pub)
  {
    var pub := s.pub + [u];
    assert pub[..|s.pub|] == s.pub;
    assert u.key in Fold(pub);
  }

  /** In any run: a faithful replica that has read its whole stream drops the next update if its number is
      read as no newer than the last, and is faithful no more unless that update changes nothing. */
  lemma UpdateLost(es: seq<Event>, u: Update, seen: int -> int)
    requires var s := Run(es, seen);
      && s.loaded.Some? && s.joined.Some? && s.taken == |s.pub| && Faithful(s, seen) && u.key != KTHXBAI
      && seen(|s.pub| + 1) <= seen(|s.pub|)
    ensures var s, t := Run(es, seen), Run(es + [Publish(u)] + [Deliver], seen);
      && t.pub == s.pub + [u] && t.taken == |t.pub| && t.table == s.table && t.sequence == s.sequence
      && (t.table == Fold(t.pub) <==> u.key in s.table && s.table[u.key] == u.body)
      && (!(u.key in s.table && s.table[u.key] == u.body) ==> !Faithful(t, seen))
  {
    var s, t := Run(es, seen), Run(es + [Publish(u)] + [Deliver], seen);
    RunAppend(es, Publish(u), seen);
    RunAppend(es + [Publish(u)], Deliver, seen);
    assert s.pub[..|s.pub|] == s.pub && Position(s) == |s.pub|;
    assert t.pub == s.pub + [u] && t.pub[..|s.pub|] == s.pub && t.pub[..|t.pub|] == t.pub;
    assert Fold(t.pub) == Fold(s.pub)[u.key := u.body];
    assert Position(t) == |t.pub|;
  }

  const STRANGE: Update := Update("b", "x")

  lemma StrangeKey()
    ensures STRANGE.key != KTHXBAI && STRANGE.key != PLAIN.key
  {
    assert STRANGE.key[0] != KTHXBAI[0] && STRANGE.key[0] != PLAIN.key[0];
  }

  /** The run that breaks it: after number `j + n` an update for a new key reaches the replica. */
  ghost function LostUpdate(j: nat, n: nat): seq<Event> {
    Drill(j, n) + [Publish(STRANGE)] + [Deliver]
  }

  lemma LostUpdateRun(j: nat, n: nat, seen: int -> int)
    ensures Run(LostUpdate(j, n), seen) == Next(Next(Run(Drill(j, n), seen), Publish(STRANGE), seen), Deliver, seen)
  {
    RunAppend(Drill(j, n), Publish(STRANGE), seen);
    RunAppend(Drill(j, n) + [Publish(STRANGE)], Deliver, seen);
  }

  /** A replica that misses the last update is not faithful. */
  lemma Lost(s: System, j: nat, n: nat, seen: int -> int)
    requires WellFormed(s) && Drilled(s, j, n) && s.sequence == seen(j + n) && s.table == Fold(s.pub)
    requires seen(j + n + 1) <= seen(j + n)
    ensures var t := Next(Next(s, Publish(STRANGE), seen), Deliver, seen);
      && t.joined == Some(j) && Timely(t) && |t.pub| == j + n + 1 == t.taken && t.loaded == Some(j)
      && t.table != Fold(t.pub) && !Faithful(t, seen)
  {
    FoldPlain(s.pub);
    StrangeKey();
    DroppedUpdate(s, STRANGE, seen);
    var t := Next(Next(s, Publish(STRANGE), seen), Deliver, seen);
    assert t.pub[..|t.pub|] == t.pub && Position(t) == |t.pub|;
  }

  lemma DrillLosesUpdate(j: nat, n: nat)
    requires j + n < TOP && j / LIMIT == (j + n) / LIMIT && Seen(j + n + 1) <= Seen(j + n)
    ensures var s := Run(LostUpdate(j, n), Seen);
      && s.joined == Some(j) && Timely(s) && |s.pub| == j + n + 1 == s.taken && s.loaded == Some(j)
      && s.table != Fold(s.pub) && !Faithful(s, Seen)
  {
    DrillFaithful(j, n);
    Lost(Run(Drill(j, n), Seen), j, n, Seen);
    LostUpdateRun(j, n, Seen);
  }

  /** The last number of the block of `j`. */
  function LastInBlock(j: nat): nat {
    LIMIT * (j / LIMIT) + (LIMIT - 1)
  }

  lemma LastAhead(j: nat, n: nat)
    ensures j <= LastInBlock(j) && LastInBlock(j) / LIMIT == j / LIMIT
    ensures j <= n && j / LIMIT != n / LIMIT ==> LastInBlock(j) < n
  {
    SplitBlock(j);
    SplitBlock(n);
    assert j <= n ==> j / LIMIT <= n / LIMIT;
  }

  /** The run that crosses the end of the block. */
  ghost function Crossing(j: nat): seq<Event> {
    LastAhead(j, j);
    LostUpdate(j, LastInBlock(j) - j)
  }

  lemma UpdateLostAtEdge(j: nat)
    requires LastInBlock(j) + 1 < TOP
    ensures var s := Run(Crossing(j), Seen);
      && s.joined == Some(j) && Timely(s) && |s.pub| == LastInBlock(j) + 1 == s.taken
      && s.table != Fold(s.pub) && !Faithful(s, Seen)
  {
    LastAhead(j, j);
    SeenDropsAtEdge(j / LIMIT, LastInBlock(j));
    DrillLosesUpdate(j, LastInBlock(j) - j);
  }

  /** Every timely run whose stream was joined at number `j` and that has at most `n` updates is faithful
      if and only if `j` and `n` lie in the same block of 2^24 numbers. */
  lemma FaithfulIffOneBlock(j: nat, n: nat)
    requires j <= n < TOP
    ensures (forall es :: Run(es, Seen).joined == Some(j) && Timely(Run(es, Seen)) && |Run(es, Seen).pub| <= n ==>
               Faithful(Run(es, Seen), Seen)) <==> j / LIMIT == n / LIMIT
  {
    if j / LIMIT == n / LIMIT {
      forall es | Run(es, Seen).joined == Some(j) && Timely(Run(es, Seen)) && |Run(es, Seen).pub| <= n
        ensures Faithful(Run(es, Seen), Seen)
      {
        FaithfulInBlock(es, j, n);
      }
    } else {
      LastAhead(j, n);
      UpdateLostAtEdge(j);
      assert |Run(Crossing(j), Seen).pub| <= n;
    }
  }

  lemma FaithfulInBlock(es: seq<Event>, j: nat, n: nat)
    requires j <= n < TOP && j / LIMIT == n / LIMIT
    requires Run(es, Seen).joined == Some(j) && Timely(Run(es, Seen)) && |Run(es, Seen).pub| <= n
    ensures Faithful(Run(es, Seen), Seen)
  {
    var m := |Run(es, Seen).pub|;
    assert j <= m && j / LIMIT <= m / LIMIT <= n / LIMIT;
    SeenStable(m);
    SeenInOrder(j, m);
    RunFaithful(es, Seen);
  }

  /** So, wherever the stream is joined, every timely run of at most `n` updates is faithful if and only
      if `n` is below 2^24. */
  lemma FaithfulIffBelowLimit(n: nat)
    ensures (forall es :: Timely(Run(es, Seen)) && |Run(es, Seen).pub| <= n ==>
               Faithful(Run(es, Seen), Seen)) <==> n < LIMIT
  {
    if n < LIMIT {
      forall es | Timely(Run(es, Seen)) && |Run(es, Seen).pub| <= n ensures Faithful(Run(es, Seen), Seen) {
        var s := Run(es, Seen);
        SeenStable(|s.pub|);
        if s.joined.Some? { SeenInOrder(s.joined.value, |s.pub|); }
        RunFaithful(es, Seen);
      }
    } else {
      UpdateLostAtEdge(0);
      assert |Run(Crossing(0), Seen).pub| <= n;
    }
  }

  /** The number read if byte 5 is given the weight the encoder implies. */
  function Exact(n: int): int {
    DecodeWith(Encode(n), 0x1_0000)
  }

  /** With that decoder there is no limit short of the 64-bit range. */
  lemma FaithfulWhenExact(es: seq<Event>)
    requires Timely(Run(es, Exact)) && |Run(es, Exact).pub| < INT64_HALF
    ensures Faithful(Run(es, Exact), Exact)
  {
    var n := |Run(es, Exact).pub|;
    forall i | 0 <= i <= n ensures Exact(i) == i { RoundTrip(i); }
    assert Reads(Run(es, Exact), Exact);
    RunFaithful(es, Exact);
  }

  // ------------------------------------------------------------------ the two programs

  /** A message on the wire. */
  datatype Wire = Wire(u: Update, seqno: seq<int>)

  type Frames8 = m: Wire | |m.seqno| == 8 witness Wire(Update("", ""), [0, 0, 0, 0, 0, 0, 0, 0])

  ghost function Updates(ms: seq<Frames8>): (us: seq<Update>)
    ensures |us| == |ms| && forall i :: 0 <= i < |ms| ==> us[i] == ms[i].u
  {
    if ms == [] then [] else Updates(ms[..|ms| - 1]) + [ms[|ms| - 1].u]
  }

  ghost function Bodies(m: map<string, Frames8>): Table {
    map k | k in m :: m[k].u.body
  }

  /** How many messages come before the closing one, or before the stream breaks off. */
  function Closing(ms: seq<Frames8>): (k: nat)
    ensures k <= |ms|
  {
    if ms == [] || ms[0].u.key == KTHXBAI then 0 else 1 + Closing(ms[1..])
  }

  lemma {:induction false} ClosingIs(ms: seq<Frames8>, i: nat)
    requires i <= |ms| && (i < |ms| ==> ms[i].u.key == KTHXBAI)
    requires forall j :: 0 <= j < i ==> ms[j].u.key != KTHXBAI
    ensures Closing(ms) == i
  {
    if i > 0 { ClosingIs(ms[1..], i - 1); }
  }

  /** A table after further stores. */
  function Stores(t: Table, us: seq<Update>): Table {
    if us == [] then t
    else
      var n := |us| - 1;
      Stores(t, us[..n])[us[n].key := us[n].body]
  }

  lemma {:induction false} StoresFold(us: seq<Update>)
    ensures Stores(map[], us) == Fold(us)
  {
    if us != [] { StoresFold(us[..|us| - 1]); }
  }

  /** The same, message by message. */
  function StoresUpTo(t: Table, ms: seq<Frames8>, i: nat): Table
    requires i <= |ms|
  {
    if i == 0 then t else StoresUpTo(t, ms, i - 1)[ms[i - 1].u.key := ms[i - 1].u.body]
  }

  lemma {:induction false} StoresUpToIs(t: Table, ms: seq<Frames8>, i: nat)
    requires i <= |ms|
    ensures StoresUpTo(t, ms, i) == Stores(t, Updates(ms[..i]))
  {
    if i > 0 {
      var us := Updates(ms[..i]);
      assert ms[..i][..i - 1] == ms[..i - 1];
      assert us == Updates(ms[..i - 1]) + [ms[i - 1].u];
      assert us[..i - 1] == Updates(ms[..i - 1]);
      StoresUpToIs(t, ms, i - 1);
    }
  }

  /** `ms` holds each entry of `m` outside `rest` once, and no other. */
  ghost predicate Lists(ms: seq<Frames8>, m: map<string, Frames8>, rest: set<string>) {
    && (forall i :: 0 <= i < |ms| ==> ms[i].u.key in m && ms[i].u.key !in rest && m[ms[i].u.key] == ms[i])
    && (forall i, j :: 0 <= i < j < |ms| ==> ms[i].u.key != ms[j].u.key)
    && (forall k :: k in m && k !in rest ==> exists i :: 0 <= i < |ms| && ms[i].u.key == k)
  }

  lemma ListsGrows(ms: seq<Frames8>, m: map<string, Frames8>, rest: set<string>, k: string)
    requires Lists(ms, m, rest) && k in rest && k in m && m[k].u.key == k
    ensures Lists(ms + [m[k]], m, rest - {k})
  {
    var ms' := ms + [m[k]];
    assert ms'[|ms|].u.key == k;
    forall x | x in m && x !in rest - {k} ensures exists i :: 0 <= i < |ms'| && ms'[i].u.key == x {
      if x != k {
        var i :| 0 <= i < |ms| && ms[i].u.key == x;
        assert ms'[i].u.key == x;
      }
    }
  }

  lemma ListsEnumerates(ms: seq<Frames8>, m: map<string, Frames8>)
    requires Lists(ms, m, {})
    ensures Enumerates(Updates(ms), Bodies(m))
  {
    forall k | k in Bodies(m) ensures exists i :: 0 <= i < |ms| && Updates(ms)[i].key == k {
      var i :| 0 <= i < |ms| && ms[i].u.key == k;
      assert Updates(ms)[i].key == k;
    }
  }

  /** The state manager thread of the server. */
  class StateManager {
    var kvmap: map<string, Frames8>
    var sequence: int

    ghost predicate Valid()
      reads this
    {
      forall k :: k in kvmap ==> kvmap[k].u.key == k
    }

    constructor ()
      ensures Valid() && Bodies(kvmap) == map[] && sequence == 0
    {
      kvmap, sequence := map[], 0;
    }

    method OnUpdate(m: Frames8)
      requires Valid()
      modifies this
      ensures Valid() && sequence == Decode(m.seqno)
      ensures Bodies(kvmap) == Bodies(old(kvmap))[m.u.key := m.u.body]
    {
      sequence := Decode(m.seqno);
      kvmap := kvmap[m.u.key := m];
    }

    /** Every stored message once, then the closing message with the current number. */
    method Snapshot() returns (ms: seq<Frames8>)
      requires Valid()
      ensures |ms| > 0
      ensures Enumerates(Updates(ms[..|ms| - 1]), Bodies(kvmap))
      ensures ms[|ms| - 1] == Wire(Update(KTHXBAI, ""), Encode(sequence))
    {
      ms := [];
      var rest := kvmap.Keys;
      while rest != {}
        invariant rest <= kvmap.Keys && Lists(ms, kvmap, rest)
      {
        var k :| k in rest;
        ListsGrows(ms, kvmap, rest, k);
        ms := ms + [kvmap[k]];
        rest := rest - {k};
      }
      ListsEnumerates(ms, kvmap);
      var last := Wire(Update(KTHXBAI, ""), Encode(sequence));
      assert (ms + [last])[..|ms|] == ms;
      ms := ms + [last];
    }

    /** The object is the state manager of the run state `s`. */
    ghost predicate Mirrors(s: System)
      reads this
    {
      s.managed <= |s.pub| && Bodies(kvmap) == Fold(s.pub[..s.managed]) && sequence == ManagerSequence(s, Seen)
    }

    /** Storing the next published update is the run's `Manage`. */
    method ManageNext(m: Frames8, ghost s: System)
      requires Valid() && WellFormed(s) && Mirrors(s) && s.managed < |s.pub|
      requires m == Wire(s.pub[s.managed], Encode(s.managed + 1))
      modifies this
      ensures Valid() && Mirrors(Next(s, Manage, Seen))
    {
      OnUpdate(m);
      assert s.pub[..s.managed + 1][..s.managed] == s.pub[..s.managed];
    }

    /** A snapshot is one the run's `Load` accepts. */
    method SnapshotOf(ghost s: System) returns (ms: seq<Frames8>)
      requires Valid() && WellFormed(s) && Mirrors(s)
      ensures ms != [] && ms[|ms| - 1] == Wire(Update(KTHXBAI, ""), Encode(ManagerSequence(s, Seen)))
      ensures Enumerates(Updates(ms[..|ms| - 1]), Fold(s.pub[..s.managed]))
    {
      ms := Snapshot();
    }
  }

  /** A snapshot has no closing message but the one at its end. */
  lemma {:induction false} SnapshotCloses(ms: seq<Frames8>, s: System)
    requires WellFormed(s) && ms != [] && ms[|ms| - 1].u.key == KTHXBAI
    requires Enumerates(Updates(ms[..|ms| - 1]), Fold(s.pub[..s.managed]))
    ensures Closing(ms) == |ms| - 1
  {
    forall i | 0 <= i < |ms| - 1 ensures ms[i].u.key != KTHXBAI {
      assert Updates(ms[..|ms| - 1])[i] == ms[i].u;
      FoldKeys(s.pub[..s.managed], ms[i].u.key);
    }
    ClosingIs(ms, |ms| - 1);
  }

  lemma {:induction false} LoadsAs(us: seq<Update>, s: System)
    requires WellFormed(s) && s.loaded.None? && Enumerates(us, Fold(s.pub[..s.managed]))
    ensures var t := Next(s, Load(us), Seen);
      t.table == Stores(map[], us) && t.sequence == Seen(ManagerSequence(s, Seen))
  {
    StoresFold(us);
  }

  lemma {:induction false} SnapshotLoads(ms: seq<Frames8>, s: System)
    requires WellFormed(s) && s.loaded.None?
    requires ms != [] && ms[|ms| - 1] == Wire(Update(KTHXBAI, ""), Encode(ManagerSequence(s, Seen)))
    requires Enumerates(Updates(ms[..|ms| - 1]), Fold(s.pub[..s.managed]))
    ensures var us := Updates(ms[..|ms| - 1]); var t := Next(s, Load(us), Seen);
      Closing(ms) == |ms| - 1 && t.table == Stores(map[], us) && t.sequence == Decode(ms[|ms| - 1].seqno)
  {
    SnapshotCloses(ms, s);
    LoadsAs(Updates(ms[..|ms| - 1]), s);
  }

  /** The client: a table, the last number applied, and the two receive loops. */
  class Replica {
    var kvmap: Table
    var sequence: int

    constructor ()
      ensures kvmap == map[] && sequence == 0
    {
      kvmap, sequence := map[], 0;
    }

    /** The snapshot loop: store everything up to the closing message, and take its number; or up to a
        receive that fails, which ends the list, and take none. */
    method LoadSnapshot(ms: seq<Frames8>)
      modifies this
      ensures kvmap == Stores(old(kvmap), Updates(ms[..Closing(ms)]))
      ensures sequence == if Closing(ms) < |ms| then Decode(ms[Closing(ms)].seqno) else old(sequence)
    {
      var i := 0;
      while i < |ms| && ms[i].u.key != KTHXBAI
        invariant 0 <= i <= |ms| && (forall j :: 0 <= j < i ==> ms[j].u.key != KTHXBAI)
        invariant kvmap == StoresUpTo(old(kvmap), ms, i) && sequence == old(sequence)
      {
        kvmap := kvmap[ms[i].u.key := ms[i].u.body];
        i := i + 1;
      }
      if i < |ms| { sequence := Decode(ms[i].seqno); }
      ClosingIs(ms, i);
      StoresUpToIs(old(kvmap), ms, i);
    }

    /** The update loop's body: apply what is newer than the last number, drop the rest. */
    method OnUpdate(m: Frames8)
      modifies this
      ensures var n := Decode(m.seqno);
        if n > old(sequence) then sequence == n && kvmap == old(kvmap)[m.u.key := m.u.body]
        else sequence == old(sequence) && kvmap == old(kvmap)
    {
      if Decode(m.seqno) > sequence {
        sequence := Decode(m.seqno);
        kvmap := kvmap[m.u.key := m.u.body];
      }
    }

    /** The object is the replica of the run state `s`. */
    ghost predicate Mirrors(s: System)
      reads this
    {
      kvmap == s.table && sequence == s.sequence
    }

    /** Loading a snapshot taken in run state `s` is the run's `Load`. */
    method LoadFrom(ms: seq<Frames8>, ghost s: System)
      requires WellFormed(s) && Mirrors(s) && s.loaded.None? && s.table == map[]
      requires ms != [] && ms[|ms| - 1] == Wire(Update(KTHXBAI, ""), Encode(ManagerSequence(s, Seen)))
      requires Enumerates(Updates(ms[..|ms| - 1]), Fold(s.pub[..s.managed]))
      modifies this
      ensures Mirrors(Next(s, Load(Updates(ms[..|ms| - 1])), Seen))
    {
      SnapshotLoads(ms, s);
      LoadSnapshot(ms);
    }

    /** Receiving the next update of the stream is the run's `Deliver`. */
    method DeliverNext(m: Frames8, ghost s: System)
      requires WellFormed(s) && Mirrors(s) && s.loaded.Some? && s.joined.Some? && s.taken < |s.pub|
      requires m == Wire(s.pub[s.taken], Encode(s.taken + 1))
      modifies this
      ensures Mirrors(Next(s, Deliver, Seen))
    {
      OnUpdate(m);
    }
  }
}
