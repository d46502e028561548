/** The parent of a process pool: round-robin dispatch of new connections over the children
    still alive, and the bookkeeping of children that exit. */
module ProcessPool {

  predicate Alive(pids: seq<int>, i: int) {
    0 <= i < |pids| && pids[i] != -1
  }

  ghost function LiveSet(pids: seq<int>): set<int> {
    set i | 0 <= i < |pids| && Alive(pids, i)
  }

  /** The slot after `i`, around the ring. */
  function Succ(i: int, n: int): int {
    if i + 1 == n then 0 else i + 1
  }

  /** The first live slot among the `k` from `i` on; the slot behind them if there is none. */
  function Find(pids: seq<int>, i: int, k: nat): int
    decreases k
  {
    if k == 0 || Alive(pids, i) then i else Find(pids, Succ(i, |pids|), k - 1)
  }

  /** The child the dispatcher picks when its counter is `c`. */
  function Pick(pids: seq<int>, c: int): int {
    Find(pids, c, |pids|)
  }

  /** The children picked by `m` new connections in a row. */
  ghost function Serve(pids: seq<int>, c: int, m: nat): (r: seq<int>)
    ensures |r| == m
    decreases m
  {
    if m == 0 then []
    else
      var i := Pick(pids, c);
      [i] + Serve(pids, Succ(i, |pids|), m - 1)
  }

  /** The live slots among the `k` from `i` on, in ring order. */
  ghost function LiveFrom(pids: seq<int>, i: int, k: nat): seq<int>
    decreases k
  {
    if k == 0 then []
    else (if Alive(pids, i) then [i] else []) + LiveFrom(pids, Succ(i, |pids|), k - 1)
  }

  /** How far `j` lies ahead of `i` on the ring. */
  function Ahead(i: int, j: int, n: int): int {
    if j >= i then j - i else j - i + n
  }

  lemma {:induction false} FindSettles(pids: seq<int>, i: int, k: nat)
    requires Alive(pids, Find(pids, i, k))
    ensures Find(pids, i, k + 1) == Find(pids, i, k)
    decreases k
  {
    if k > 0 && !Alive(pids, i) { FindSettles(pids, Succ(i, |pids|), k - 1); }
  }

  /** A live child within reach is found, or one before it. */
  lemma {:induction false} FindReaches(pids: seq<int>, i: int, k: nat, j: int)
    requires 0 <= i < |pids| && Alive(pids, j) && Ahead(i, j, |pids|) < k
    ensures Alive(pids, Find(pids, i, k)) && j in LiveFrom(pids, i, k)
    decreases k
  {
    if i != j { FindReaches(pids, Succ(i, |pids|), k - 1, j); }
  }

  lemma {:induction false} FindNone(pids: seq<int>, i: int, k: nat)
    requires forall x :: 0 <= x < |pids| ==> !Alive(pids, x)
    ensures !Alive(pids, Find(pids, i, k))
    decreases k
  {
    if k > 0 { FindNone(pids, Succ(i, |pids|), k - 1); }
  }

  /** The dispatcher finds a live child if and only if there is one. */
  lemma PickAliveIff(pids: seq<int>, c: int)
    requires 0 <= c < |pids|
    ensures Alive(pids, Pick(pids, c)) <==> exists i :: 0 <= i < |pids| && Alive(pids, i)
  {
    if i :| 0 <= i < |pids| && Alive(pids, i) {
      FindReaches(pids, c, |pids|, i);
    } else {
      FindNone(pids, c, |pids|);
    }
  }

  lemma {:induction false} FindNearest(pids: seq<int>, i: int, k: nat, j: int)
    requires 0 <= i < |pids| && k <= |pids| && Alive(pids, j) && Ahead(i, j, |pids|) < k
    ensures var p := Find(pids, i, k); Alive(pids, p) && Ahead(i, p, |pids|) <= Ahead(i, j, |pids|)
    decreases k
  {
    FindReaches(pids, i, k, j);
    if !Alive(pids, i) { FindNearest(pids, Succ(i, |pids|), k - 1, j); }
  }

  /** The child picked is the first live one from the counter on, going up and around: no live child is
      nearer. */
  lemma PickNearest(pids: seq<int>, c: int, j: int)
    requires 0 <= c < |pids| && Alive(pids, j)
    ensures var p := Pick(pids, c); Alive(pids, p) && Ahead(c, p, |pids|) <= Ahead(c, j, |pids|)
  {
    FindNearest(pids, c, |pids|, j);
  }

  /** Passing over a dead slot does not change the choice, while any child lives. */
  lemma PickSkips(pids: seq<int>, c: int, j: int)
    requires 0 <= c < |pids| && !Alive(pids, c) && Alive(pids, j)
    ensures Pick(pids, c) == Pick(pids, Succ(c, |pids|))
  {
    FindReaches(pids, Succ(c, |pids|), |pids| - 1, j);
    FindSettles(pids, Succ(c, |pids|), |pids| - 1);
  }

  lemma {:induction false} LiveFromMembers(pids: seq<int>, i: int, k: nat)
    requires 0 <= i < |pids| && k <= |pids|
    ensures forall x :: x in LiveFrom(pids, i, k) ==> Alive(pids, x) && Ahead(i, x, |pids|) < k
    ensures forall a, b :: 0 <= a < b < |LiveFrom(pids, i, k)| ==> LiveFrom(pids, i, k)[a] != LiveFrom(pids, i, k)[b]
    decreases k
  {
    if k > 0 {
      LiveFromMembers(pids, Succ(i, |pids|), k - 1);
      var r := LiveFrom(pids, Succ(i, |pids|), k - 1);
      assert i !in r;
    }
  }

  /** Successive dispatches walk the live slots in ring order. */
  lemma {:induction false} ServeWalks(pids: seq<int>, c: int, k: nat)
    requires 0 <= c < |pids| && k <= |pids|
    ensures Serve(pids, c, |LiveFrom(pids, c, k)|) == LiveFrom(pids, c, k)
    decreases k
  {
    if k > 0 {
      var d := Succ(c, |pids|);
      ServeWalks(pids, d, k - 1);
      var r := LiveFrom(pids, d, k - 1);
      if !Alive(pids, c) && r != [] {
        LiveFromMembers(pids, d, k - 1);
        assert r[0] in r;
        PickSkips(pids, c, r[0]);
      }
    }
  }

  lemma {:induction false} DistinctLength(r: seq<int>, s: set<int>)
    requires (forall a, b :: 0 <= a < b < |r| ==> r[a] != r[b]) && (forall x :: x in r <==> x in s)
    ensures |r| == |s|
  {
    if r == [] {
      assert forall x :: x !in s;
    } else {
      var t := r[1..];
      assert forall a, b :: 0 <= a < b < |t| ==> t[a] == r[a + 1] && t[b] == r[b + 1];
      assert r == [r[0]] + t;
      assert forall x :: x in t <==> x in s - {r[0]};
      DistinctLength(t, s - {r[0]});
    }
  }

  /** While the set of live children stays the same, any run of as many new connections as there
      are live children reaches each of them exactly once. */
  lemma EachOncePerRound(pids: seq<int>, c: int)
    requires 0 <= c < |pids|
    ensures var r := Serve(pids, c, |LiveSet(pids)|);
      && (forall x :: x in r <==> x in LiveSet(pids))
      && (forall a, b :: 0 <= a < b < |r| ==> r[a] != r[b])
  {
    var r := LiveFrom(pids, c, |pids|);
    LiveFromMembers(pids, c, |pids|);
    forall x | x in LiveSet(pids) ensures x in r { FindReaches(pids, c, |pids|, x); }
    DistinctLength(r, LiveSet(pids));
    ServeWalks(pids, c, |pids|);
  }

  lemma NextSlot(i: int, n: int)
    requires 0 <= i < n
    ensures (i + 1) % n == Succ(i, n)
  {
  }

  /** `seq` view of what one exited child changes. */
  ghost function Reaped(pids: seq<int>, pid: int): (r: seq<int>)
    ensures |r| == |pids| && forall i :: 0 <= i < |pids| ==> r[i] == if pids[i] == pid then -1 else pids[i]
  {
    seq(|pids|, i requires 0 <= i < |pids| => if pids[i] == pid then -1 else pids[i])
  }

  ghost function ReapedAll(pids: seq<int>, gone: seq<int>): (r: seq<int>)
    ensures |r| == |pids|
  {
    if gone == [] then pids else Reaped(ReapedAll(pids, gone[..|gone| - 1]), gone[|gone| - 1])
  }

  class Parent {
    const pids: array<int>
    var counter: int
    var stop: bool

    ghost predicate Valid()
      reads this
    {
      0 <= counter < pids.Length
    }

    constructor (pids: array<int>)
      requires pids.Length > 0
      ensures Valid() && this.pids == pids && counter == 0 && !stop
    {
      this.pids, counter, stop := pids, 0, false;
    }

    /** A new connection: find the next live child and advance, or stop when there is none.
        `child` is the slot the connection goes to. */
    method Dispatch() returns (child: int)
      requires Valid()
      modifies this
      ensures Valid()
      ensures child == Pick(pids[..], old(counter))
      ensures if exists i :: 0 <= i < pids.Length && Alive(pids[..], i)
              then Alive(pids[..], child) && stop == old(stop) && counter == (child + 1) % pids.Length
              else stop && counter == old(counter)
    {
      ghost var ps, n, c := pids[..], pids.Length, counter;
      var i := counter;
      ghost var k := n;
      while pids[i] == -1
        invariant counter == c && stop == old(stop) && 0 <= i < n && 0 < k <= n
        invariant Find(ps, i, k) == Pick(ps, c) && Ahead(c, i, n) == n - k
        decreases k
      {
        NextSlot(i, n);
        i := (i + 1) % pids.Length;
        k := k - 1;
        if i == counter { break; }
      }
      child := i;
      PickAliveIff(ps, counter);
      if pids[i] == -1 {
        stop := true;
      } else {
        NextSlot(i, n);
        counter := (i + 1) % pids.Length;
      }
    }

    /** SIGCHLD: mark every reaped child, then stop exactly when none is left. */
    method Reap(gone: seq<int>)
      requires Valid()
      modifies this, pids
      ensures Valid() && counter == old(counter)
      ensures pids[..] == ReapedAll(old(pids[..]), gone)
      ensures stop <==> forall i :: 0 <= i < pids.Length ==> !Alive(pids[..], i)
    {
      for g := 0 to |gone|
        invariant Valid() && counter == old(counter)
        invariant pids[..] == ReapedAll(old(pids[..]), gone[..g])
      {
        MarkGone(gone[g]);
        assert gone[..g + 1][..g] == gone[..g];
      }
      assert gone[..|gone|] == gone;
      stop := true;
      for i := 0 to pids.Length
        invariant counter == old(counter) && pids[..] == ReapedAll(old(pids[..]), gone)
        invariant stop <==> forall j :: 0 <= j < i ==> !Alive(pids[..], j)
      {
        assert Alive(pids[..], i) <==> pids[i] != -1;
        if pids[i] != -1 { stop := false; }
      }
    }

    method MarkGone(pid: int)
      modifies pids
      ensures pids[..] == Reaped(old(pids[..]), pid)
    {
      for i := 0 to pids.Length
        invariant forall j :: 0 <= j < pids.Length ==>
          pids[j] == if j < i && old(pids[j]) == pid then -1 else old(pids[j])
        invariant forall j :: i <= j < pids.Length ==> pids[j] == old(pids[j])
      {
        if pids[i] == pid { pids[i] := -1; }
      }
    }
  }
}
