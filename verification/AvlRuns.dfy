/** Whole runs of inserts and removes against one tree: order, balance, agreement with
    a map, ownership of data, and the Fibonacci height bound. */
module AvlRuns {
  import opened Ordering
  import opened AvlTree

  /** The tree and the data handed to the destroy callback so far. */
  datatype State<T> = State(tree: Tree<T>, destroyed: seq<T>)

  function Step<T>(s: State<T>, op: Op<T>, cmp: (T, T) -> int): (r: State<T>)
    requires Avl(s.tree)
    ensures Avl(r.tree)
  {
    match op
    case Put(x, mem) =>
      var o := Insert(s.tree, x, cmp, mem);
      State(o.tree, s.destroyed + o.freed)
    case Remove(x) =>
      HideKeepsShape(s.tree, x, cmp);
      ShapeDecides(s.tree, Hide(s.tree, x, cmp));
      State(Hide(s.tree, x, cmp), s.destroyed)
  }

  function Ret<T>(s: State<T>, op: Op<T>, cmp: (T, T) -> int): int
    requires Avl(s.tree)
  {
    match op
    case Put(x, mem) => Insert(s.tree, x, cmp, mem).ret
    case Remove(x) => if Find(s.tree, x, cmp).Absent? then -1 else 0
  }

  /** The state after the calls `ops`, from an empty tree. */
  function Run<T>(ops: seq<Op<T>>, cmp: (T, T) -> int): (s: State<T>)
    ensures Avl(s.tree)
  {
    if ops == [] then State(Empty, [])
    else Step(Run(ops[..|ops| - 1], cmp), ops[|ops| - 1], cmp)
  }

  /** The return code of call `i`. */
  function Code<T>(ops: seq<Op<T>>, i: nat, cmp: (T, T) -> int): int
    requires i < |ops|
  {
    Ret(Run(ops[..i], cmp), ops[i], cmp)
  }

  lemma RunGrows<T>(ops: seq<Op<T>>, op: Op<T>, cmp: (T, T) -> int)
    ensures Run(ops + [op], cmp) == Step(Run(ops, cmp), op, cmp)
    ensures Code(ops + [op], |ops|, cmp) == Ret(Run(ops, cmp), op, cmp)
  {
    assert (ops + [op])[..|ops|] == ops;
  }

  // ---------------------------------------------------------- agreement with a map

  /** The map the calls build, read off the calls alone: the slot of key `q`. */
  ghost function SlotOf<T>(ops: seq<Op<T>>, q: T, cmp: (T, T) -> int): Slot<T> {
    if ops == [] then Absent
    else
      var prev, op := SlotOf(ops[..|ops| - 1], q, cmp), ops[|ops| - 1];
      if Cmp(cmp, q, op.x) == 0 then SlotStep(prev, op) else prev
  }

  /** After any run the tree is ordered and every search meets the map's slot. */
  lemma {:induction false} RunRefinesMap<T(!new)>(ops: seq<Op<T>>, cmp: (T, T) -> int, q: T)
    requires TotalOrder(cmp)
    ensures Ordered(Run(ops, cmp).tree, cmp)
    ensures Find(Run(ops, cmp).tree, q, cmp) == SlotOf(ops, q, cmp)
  {
    if ops != [] {
      var pre, op := ops[..|ops| - 1], ops[|ops| - 1];
      RunRefinesMap(pre, cmp, q);
      match op
      case Put(x, mem) => InsertRefines(Run(pre, cmp).tree, x, cmp, mem, q);
      case Remove(x) => HideRefines(Run(pre, cmp).tree, x, cmp, q);
    }
  }

  /** Every return code of a run is the one the map predicts. */
  lemma RunReturns<T(!new)>(ops: seq<Op<T>>, i: nat, cmp: (T, T) -> int)
    requires TotalOrder(cmp) && i < |ops|
    ensures Code(ops, i, cmp) == SlotCode(SlotOf(ops[..i], ops[i].x, cmp), ops[i])
  {
    RunRefinesMap(ops[..i], cmp, ops[i].x);
    if ops[i].Put? {
      InsertReturns(Run(ops[..i], cmp).tree, ops[i].x, cmp, ops[i].mem);
    }
  }

  /** Call `i` inserted `d` under the key of `q`, was accepted, and no later call removed that key. */
  ghost predicate LastInsert<T>(ops: seq<Op<T>>, i: nat, q: T, d: T, cmp: (T, T) -> int) {
    && i < |ops| && ops[i].Put? && ops[i].x == d && Cmp(cmp, q, d) == 0 && Code(ops, i, cmp) == 0
    && forall j :: i < j < |ops| && ops[j].Remove? ==> Cmp(cmp, q, ops[j].x) != 0
  }

  lemma CodePrefix<T>(ops: seq<Op<T>>, pre: seq<Op<T>>, i: nat, cmp: (T, T) -> int)
    requires i < |pre| && pre <= ops
    ensures Code(pre, i, cmp) == Code(ops, i, cmp) && pre[i] == ops[i]
  {
    assert pre[..i] == ops[..i];
  }

  lemma SameClass<T(!new)>(ops: seq<Op<T>>, q: T, x: T, cmp: (T, T) -> int)
    requires TotalOrder(cmp) && Cmp(cmp, q, x) == 0
    ensures SlotOf(ops, q, cmp) == SlotOf(ops, x, cmp)
  {
    if ops != [] {
      SameClass(ops[..|ops| - 1], q, x, cmp);
      Apart(cmp, q, x, ops[|ops| - 1].x);
      Apart(cmp, ops[|ops| - 1].x, x, q);
      Apart(cmp, ops[|ops| - 1].x, q, x);
    }
  }

  lemma LastInsertStays<T(!new)>(ops: seq<Op<T>>, i: nat, q: T, d: T, cmp: (T, T) -> int)
    requires ops != [] && LastInsert(ops[..|ops| - 1], i, q, d, cmp)
    requires ops[|ops| - 1].Remove? ==> Cmp(cmp, q, ops[|ops| - 1].x) != 0
    ensures LastInsert(ops, i, q, d, cmp)
  {
    var pre := ops[..|ops| - 1];
    CodePrefix(ops, pre, i, cmp);
    forall j | i < j < |ops| && ops[j].Remove? ensures Cmp(cmp, q, ops[j].x) != 0 {
      if j < |pre| { assert pre[j] == ops[j]; }
    }
  }

  lemma {:induction false} LiveHasInsert<T(!new)>(ops: seq<Op<T>>, q: T, d: T, cmp: (T, T) -> int) returns (i: nat)
    requires TotalOrder(cmp) && SlotOf(ops, q, cmp) == Live(d)
    ensures LastInsert(ops, i, q, d, cmp)
  {
    var pre, op := ops[..|ops| - 1], ops[|ops| - 1];
    if SlotOf(pre, q, cmp) == Live(d) {
      i := LiveHasInsert(pre, q, d, cmp);
      LastInsertStays(ops, i, q, d, cmp);
    } else {
      i := |pre|;
      assert ops[..i] == pre;
      SameClass(pre, q, d, cmp);
      RunReturns(ops, i, cmp);
    }
  }

  lemma {:induction false} InsertIsLive<T(!new)>(ops: seq<Op<T>>, i: nat, q: T, d: T, cmp: (T, T) -> int)
    requires TotalOrder(cmp) && LastInsert(ops, i, q, d, cmp)
    ensures SlotOf(ops, q, cmp) == Live(d)
  {
    var pre := ops[..|ops| - 1];
    if i < |pre| {
      CodePrefix(ops, pre, i, cmp);
      assert LastInsert(pre, i, q, d, cmp);
      InsertIsLive(pre, i, q, d, cmp);
    } else {
      assert ops[..i] == pre;
      SameClass(pre, q, d, cmp);
      RunReturns(ops, i, cmp);
    }
  }

  /** `lookup` finds exactly the keys whose last accepted insert has not been removed since,
      and returns that insert's datum. */
  lemma LookupIffLastInsert<T(!new)>(ops: seq<Op<T>>, q: T, d: T, cmp: (T, T) -> int)
    requires TotalOrder(cmp)
    ensures Find(Run(ops, cmp).tree, q, cmp) == Live(d) <==> exists i: nat :: LastInsert(ops, i, q, d, cmp)
  {
    RunRefinesMap(ops, cmp, q);
    if SlotOf(ops, q, cmp) == Live(d) {
      var i := LiveHasInsert(ops, q, d, cmp);
    }
    forall i: nat | LastInsert(ops, i, q, d, cmp) ensures SlotOf(ops, q, cmp) == Live(d) {
      InsertIsLive(ops, i, q, d, cmp);
    }
  }

  // ------------------------------------------------------------------- ownership

  /** How many accepted inserts of a run carried exactly the datum `e`. */
  ghost function Accepted<T>(ops: seq<Op<T>>, e: T, cmp: (T, T) -> int): nat {
    if ops == [] then 0
    else
      var n := |ops| - 1;
      Accepted(ops[..n], e, cmp) +
      if ops[n].Put? && ops[n].x == e && Code(ops, n, cmp) == 0 then 1 else 0
  }

  /** At every point each accepted datum is either still stored or already destroyed, never both. */
  lemma {:induction false} OwnershipConserved<T>(ops: seq<Op<T>>, e: T, cmp: (T, T) -> int)
    ensures var s := Run(ops, cmp);
      multiset(s.destroyed)[e] + Occurrences(s.tree, e) == Accepted(ops, e, cmp)
  {
    if ops != [] {
      var n := |ops| - 1;
      OwnershipConserved(ops[..n], e, cmp);
      var s := Run(ops[..n], cmp);
      match ops[n]
      case Put(x, mem) =>
        InsertConserves(s.tree, x, cmp, mem, e);
        assert multiset(s.destroyed + Insert(s.tree, x, cmp, mem).freed)[e] ==
               multiset(s.destroyed)[e] + multiset(Insert(s.tree, x, cmp, mem).freed)[e];
      case Remove(x) =>
        HideConserves(s.tree, x, cmp, e);
    }
  }

  /** `destroy`: every stored datum goes to the callback in postorder, leaving nothing. */
  function Teardown<T>(s: State<T>): State<T> {
    State(Empty, s.destroyed + Postorder(s.tree))
  }

  /** Over a run ending in teardown the callback gets each accepted datum exactly once per
      accepted insert, and a rejected datum never. */
  lemma TeardownDestroysAccepted<T>(ops: seq<Op<T>>, e: T, cmp: (T, T) -> int)
    ensures multiset(Teardown(Run(ops, cmp)).destroyed)[e] == Accepted(ops, e, cmp)
  {
    OwnershipConserved(ops, e, cmp);
    PostorderCounts(Run(ops, cmp).tree, e);
  }

  // ---------------------------------------------------------------- height bound

  function Fib(n: nat): nat {
    if n < 2 then n else Fib(n - 1) + Fib(n - 2)
  }

  function Square(n: int): int {
    n * n
  }

  function Pow2(n: nat): nat {
    if n == 0 then 1 else 2 * Pow2(n - 1)
  }

  lemma FibGrows(m: nat, n: nat)
    requires m <= n
    ensures Fib(m + 1) <= Fib(n + 1)
  {
    if m < n { FibGrows(m, n - 1); }
  }

  lemma FibJoin(a: nat, b: nat)
    requires a - 1 <= b <= a + 1
    ensures Fib((if a < b then b else a) + 3) <= Fib(a + 2) + Fib(b + 2)
  {
    var lo, hi := if a < b then a else b, if a < b then b else a;
    FibGrows(hi, lo + 1);
    assert Fib(hi + 3) == Fib(hi + 2) + Fib(hi + 1);
  }

  /** A balanced tree has at least Fib(height + 2) - 1 nodes, hidden ones included. */
  lemma {:induction false} SizeAtLeastFib<T>(t: Tree<T>)
    requires Avl(t)
    ensures Size(t) + 1 >= Fib(Height(t) + 2)
  {
    if t.Node? {
      SizeAtLeastFib(t.left);
      SizeAtLeastFib(t.right);
      FibJoin(Height(t.left), Height(t.right));
    }
  }

  /** The bound is the best possible: some balanced tree of every height meets it. */
  function Sparsest(h: nat): (t: Tree<()>)
    ensures Avl(t) && Height(t) == h && Size(t) + 1 == Fib(h + 2)
  {
    if h == 0 then Empty
    else if h == 1 then assert Fib(3) == Fib(2) + Fib(1); Node(Empty, (), false, BALANCED, Empty)
    else Node(Sparsest(h - 1), (), false, LFT_HEAVY, Sparsest(h - 2))
  }

  lemma {:induction false} ComparisonsBelowHeight<T>(t: Tree<T>, q: T, cmp: (T, T) -> int)
    ensures Comparisons(t, q, cmp) <= Height(t)
  {
    if t.Node? {
      ComparisonsBelowHeight(t.left, q, cmp);
      ComparisonsBelowHeight(t.right, q, cmp);
    }
  }

  lemma SquareOfSum(a: nat, b: nat, r: nat)
    requires b <= a && 2 * r <= a * a && r <= b * b
    ensures 4 * r <= (a + b) * (a + b)
  {
    assert (a + b) * (a + b) == a * a + 2 * (a * b) + b * b;
    assert a * b == b * b + (a - b) * b;
  }

  lemma {:induction false} FibSquared(h: nat)
    ensures Pow2(h) <= Fib(h + 2) * Fib(h + 2)
  {
    if h == 1 {
      assert Fib(3) == Fib(2) + Fib(1);
    } else if h >= 2 {
      FibSquared(h - 1);
      FibSquared(h - 2);
      FibGrows(h - 1, h);
      SquareOfSum(Fib(h + 1), Fib(h), Pow2(h - 2));
    }
  }

  lemma SquareBound(p: nat, f: nat, n: nat)
    requires p <= f * f && f <= n
    ensures p <= n * n
  {
    assert n * n == f * f + (n - f) * (n + f);
  }

  lemma Pow2Grows(m: nat, n: nat)
    requires m <= n
    ensures Pow2(m) <= Pow2(n)
  {
  }

  /** `c` is at most 2 log2(n + 1). */
  predicate WithinLog(c: nat, n: int) {
    Pow2(c) <= Square(n + 1)
  }

  lemma LogBound(c: nat, h: nat, n: nat)
    requires c <= h && Fib(h + 2) <= n + 1
    ensures WithinLog(c, n)
  {
    FibSquared(h);
    Pow2Grows(c, h);
    SquareBound(Pow2(c), Fib(h + 2), n + 1);
  }

  /** After any run, any search makes at most 2 log2(size + 1) comparisons. */
  lemma SearchIsLogarithmic<T>(ops: seq<Op<T>>, q: T, cmp: (T, T) -> int)
    ensures var t := Run(ops, cmp).tree;
      WithinLog(Comparisons(t, q, cmp), Size(t))
  {
    var t := Run(ops, cmp).tree;
    ComparisonsBelowHeight(t, q, cmp);
    SizeAtLeastFib(t);
    LogBound(Comparisons(t, q, cmp), Height(t), Size(t));
  }
}
