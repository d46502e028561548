/** The comparison callback of a search tree, and what the tree demands of it. */
module Ordering {

  /** One call of the callback; a heap-independent name for it. */
  function Cmp<T>(cmp: (T, T) -> int, a: T, b: T): int {
    cmp(a, b)
  }

  /** The callback is a three-way comparison of a total preorder. */
  ghost predicate TotalOrder<T(!new)>(cmp: (T, T) -> int) {
    && (forall a, b :: Cmp(cmp, a, b) < 0 <==> Cmp(cmp, b, a) > 0)
    && (forall a, b, c {:trigger Cmp(cmp, a, b), Cmp(cmp, b, c)} ::
          Cmp(cmp, a, b) <= 0 && Cmp(cmp, b, c) <= 0 ==> Cmp(cmp, a, c) <= 0)
  }
}

/** The AVL tree with lazy deletion, as a value: every operation of the search
    tree is a function here, and the heap version is proved equal to it. */
module AvlTree {
  import opened Ordering

  const LFT_HEAVY: int := 1
  const BALANCED: int := 0
  const RGT_HEAVY: int := -1

  datatype Tree<T> =
    | Empty
    | Node(left: Tree<T>, data: T, hidden: bool, factor: int, right: Tree<T>)

  /** What a search for a key meets. */
  datatype Slot<T> = Absent | Hidden(stale: T) | Live(datum: T)

  /** What one insert does: its return code, the new subtree, the `balanced` flag
      it leaves, and the data it hands to the destroy callback. */
  datatype Outcome<T> = Outcome(ret: int, tree: Tree<T>, balanced: bool, freed: seq<T>)

  function Height<T>(t: Tree<T>): nat {
    match t
    case Empty => 0
    case Node(l, _, _, _, r) => 1 + if Height(l) > Height(r) then Height(l) else Height(r)
  }

  function Size<T>(t: Tree<T>): nat {
    match t
    case Empty => 0
    case Node(l, _, _, _, r) => Size(l) + 1 + Size(r)
  }

  /** Every stored datum in key order, hidden ones included. */
  function Inorder<T>(t: Tree<T>): seq<T> {
    match t
    case Empty => []
    case Node(l, d, _, _, r) => Inorder(l) + [d] + Inorder(r)
  }

  /** Every stored datum in the order teardown visits them. */
  function Postorder<T>(t: Tree<T>): seq<T> {
    match t
    case Empty => []
    case Node(l, d, _, _, r) => Postorder(l) + Postorder(r) + [d]
  }

  /** How often `e` is stored, hidden nodes included. */
  ghost function Occurrences<T>(t: Tree<T>, e: T): nat {
    match t
    case Empty => 0
    case Node(l, d, _, _, r) => Occurrences(l, e) + (if d == e then 1 else 0) + Occurrences(r, e)
  }

  /** The tree without its data and hidden marks: shape and stored factors. */
  function Shape<T>(t: Tree<T>): Tree<()> {
    match t
    case Empty => Empty
    case Node(l, _, _, f, r) => Node(Shape(l), (), false, f, Shape(r))
  }

  /** Every stored factor is left height minus right height, and within one. */
  ghost predicate Avl<T>(t: Tree<T>) {
    t.Node? ==>
      && Avl(t.left) && Avl(t.right)
      && t.factor == Height(t.left) - Height(t.right)
      && RGT_HEAVY <= t.factor <= LFT_HEAVY
  }

  ghost function Elems<T>(t: Tree<T>): set<T> {
    match t
    case Empty => {}
    case Node(l, d, _, _, r) => Elems(l) + {d} + Elems(r)
  }

  ghost predicate AllBelow<T>(s: set<T>, d: T, cmp: (T, T) -> int) {
    forall e :: e in s ==> Cmp(cmp, e, d) < 0
  }

  ghost predicate AllAbove<T>(s: set<T>, d: T, cmp: (T, T) -> int) {
    forall e :: e in s ==> Cmp(cmp, d, e) < 0
  }

  ghost predicate Ordered<T>(t: Tree<T>, cmp: (T, T) -> int) {
    t.Node? ==>
      && Ordered(t.left, cmp) && Ordered(t.right, cmp)
      && AllBelow(Elems(t.left), t.data, cmp)
      && AllAbove(Elems(t.right), t.data, cmp)
  }

  /** The search both `hide` and `lookup` make. */
  function Find<T>(t: Tree<T>, q: T, cmp: (T, T) -> int): Slot<T> {
    match t
    case Empty => Absent
    case Node(l, d, h, _, r) =>
      var c := Cmp(cmp, q, d);
      if c < 0 then Find(l, q, cmp)
      else if c > 0 then Find(r, q, cmp)
      else if h then Hidden(d) else Live(d)
  }

  /** The number of calls to the comparison callback that search makes. */
  function Comparisons<T>(t: Tree<T>, q: T, cmp: (T, T) -> int): nat {
    match t
    case Empty => 0
    case Node(l, d, _, _, r) =>
      var c := Cmp(cmp, q, d);
      1 + if c < 0 then Comparisons(l, q, cmp)
          else if c > 0 then Comparisons(r, q, cmp) else 0
  }

  // ---------------------------------------------------------------- rotations

  function TurnLeftLeft<T>(t: Tree<T>): Tree<T>
    requires t.Node? && t.left.Node?
  {
    var l := t.left;
    Node(l.left, l.data, l.hidden, BALANCED, Node(l.right, t.data, t.hidden, BALANCED, t.right))
  }

  function TurnLeftRight<T>(t: Tree<T>): Tree<T>
    requires t.Node? && t.left.Node? && t.left.right.Node?
  {
    var l, g := t.left, t.left.right;
    Node(Node(l.left, l.data, l.hidden, if g.factor == RGT_HEAVY then LFT_HEAVY else BALANCED, g.left),
         g.data, g.hidden, BALANCED,
         Node(g.right, t.data, t.hidden, if g.factor == LFT_HEAVY then RGT_HEAVY else BALANCED, t.right))
  }

  function TurnRightRight<T>(t: Tree<T>): Tree<T>
    requires t.Node? && t.right.Node?
  {
    var r := t.right;
    Node(Node(t.left, t.data, t.hidden, BALANCED, r.left), r.data, r.hidden, BALANCED, r.right)
  }

  function TurnRightLeft<T>(t: Tree<T>): Tree<T>
    requires t.Node? && t.right.Node? && t.right.left.Node?
  {
    var r, g := t.right, t.right.left;
    Node(Node(t.left, t.data, t.hidden, if g.factor == RGT_HEAVY then LFT_HEAVY else BALANCED, g.left),
         g.data, g.hidden, BALANCED,
         Node(g.right, r.data, r.hidden, if g.factor == LFT_HEAVY then RGT_HEAVY else BALANCED, r.right))
  }

  /** `rotate_left`: the left subtree has grown two levels above the right one. */
  function RotateLeft<T>(t: Tree<T>): (r: Tree<T>)
    requires LeftTooHigh(t)
    ensures Avl(r) && Height(r) == Height(t.left)
  {
    if t.left.factor == LFT_HEAVY then TurnLeftLeft(t)
    else
      var r := TurnLeftRight(t);
      assert Avl(t.left.right) && Avl(r.left) && Avl(r.right);
      r
  }

  /** `rotate_right`: the right subtree has grown two levels above the left one. */
  function RotateRight<T>(t: Tree<T>): (r: Tree<T>)
    requires RightTooHigh(t)
    ensures Avl(r) && Height(r) == Height(t.right)
  {
    if t.right.factor == RGT_HEAVY then TurnRightRight(t)
    else
      var r := TurnRightLeft(t);
      assert Avl(t.right.left) && Avl(r.left) && Avl(r.right);
      r
  }

  // ------------------------------------------------------------------- insert

  /** What `insert` owes its caller: factors repaired, `balanced` cleared exactly
      when the subtree grew by one level, and nothing changed on a nonzero return. */
  ghost predicate Repaired<T>(t: Tree<T>, o: Outcome<T>) {
    && Avl(o.tree)
    && (o.ret != 0 ==> o.tree == t && o.freed == [])
    && (o.ret == 0 ==> o.tree.Node? && Height(o.tree) == Height(t) + if o.balanced then 0 else 1)
    && (o.ret == 0 && !o.balanced && t.Node? ==> o.tree.factor != BALANCED)
  }

  /** The left half of `insert` after the recursive call returned `o`. */
  function AfterLeft<T>(t: Tree<T>, o: Outcome<T>): (r: Outcome<T>)
    requires t.Node? && Avl(t) && Repaired(t.left, o)
    ensures Repaired(t, r)
  {
    if o.ret != 0 then Outcome(o.ret, t, o.balanced, [])
    else
      var t1 := t.(left := o.tree);
      if o.balanced then Outcome(0, t1, true, o.freed)
      else if t.factor == LFT_HEAVY then Outcome(0, RotateLeft(t1), true, o.freed)
      else if t.factor == BALANCED then Outcome(0, t1.(factor := LFT_HEAVY), false, o.freed)
      else Outcome(0, t1.(factor := BALANCED), true, o.freed)
  }

  /** The right half of `insert` after the recursive call returned `o`. */
  function AfterRight<T>(t: Tree<T>, o: Outcome<T>): (r: Outcome<T>)
    requires t.Node? && Avl(t) && Repaired(t.right, o)
    ensures Repaired(t, r)
  {
    if o.ret != 0 then Outcome(o.ret, t, o.balanced, [])
    else
      var t1 := t.(right := o.tree);
      if o.balanced then Outcome(0, t1, true, o.freed)
      else if t.factor == LFT_HEAVY then Outcome(0, t1.(factor := BALANCED), true, o.freed)
      else if t.factor == BALANCED then Outcome(0, t1.(factor := RGT_HEAVY), false, o.freed)
      else Outcome(0, RotateRight(t1), true, o.freed)
  }

  /** `insert` of `x`; `mem` says whether the allocations it may need succeed. */
  function Insert<T>(t: Tree<T>, x: T, cmp: (T, T) -> int, mem: bool): (o: Outcome<T>)
    requires Avl(t)
    ensures Repaired(t, o)
  {
    match t
    case Empty =>
      if mem then Outcome(0, Node(Empty, x, false, BALANCED, Empty), false, [])
      else Outcome(-1, t, false, [])
    case Node(l, d, h, f, r) =>
      var c := Cmp(cmp, x, d);
      if c < 0 then AfterLeft(t, Insert(l, x, cmp, mem))
      else if c > 0 then AfterRight(t, Insert(r, x, cmp, mem))
      else if !h then Outcome(1, t, false, [])
      else Outcome(0, t.(data := x, hidden := false), true, [d])
  }

  /** `hide`: mark the node whose key equals `x`. */
  function Hide<T>(t: Tree<T>, x: T, cmp: (T, T) -> int): Tree<T> {
    match t
    case Empty => Empty
    case Node(l, d, h, f, r) =>
      var c := Cmp(cmp, x, d);
      if c < 0 then t.(left := Hide(l, x, cmp))
      else if c > 0 then t.(right := Hide(r, x, cmp))
      else t.(hidden := true)
  }

  // ------------------------------------------------- rotations keep the content

  /** `u` holds the elements of `t` in the same order, and a search for `q` cannot tell them apart. */
  ghost predicate Alike<T>(t: Tree<T>, u: Tree<T>, cmp: (T, T) -> int, q: T) {
    && Elems(u) == Elems(t)
    && Ordered(u, cmp)
    && Find(u, q, cmp) == Find(t, q, cmp)
  }

  /** `l` and `r` differ by one pivot about their roots; stored factors play no part in it. */
  ghost predicate Pivoted<T>(l: Tree<T>, r: Tree<T>) {
    && l.Node? && l.left.Node? && r.Node? && r.right.Node?
    && l.left.left == r.left && l.left.right == r.right.left && l.right == r.right.right
    && l.left.data == r.data && l.left.hidden == r.hidden
    && l.data == r.right.data && l.hidden == r.right.hidden
  }

  lemma PivotRight<T(!new)>(l: Tree<T>, r: Tree<T>, cmp: (T, T) -> int, q: T)
    requires TotalOrder(cmp) && Pivoted(l, r) && Ordered(l, cmp)
    ensures Alike(l, r, cmp, q)
  {
    assert r.data in Elems(l.left);
  }

  lemma PivotLeft<T(!new)>(l: Tree<T>, r: Tree<T>, cmp: (T, T) -> int, q: T)
    requires TotalOrder(cmp) && Pivoted(l, r) && Ordered(r, cmp)
    ensures Alike(r, l, cmp, q)
  {
    assert l.data in Elems(r.right);
  }

  lemma PivotKeepsData<T>(l: Tree<T>, r: Tree<T>, e: T)
    requires Pivoted(l, r)
    ensures Occurrences(l, e) == Occurrences(r, e)
  {
  }

  lemma LeftAlike<T>(t: Tree<T>, l: Tree<T>, cmp: (T, T) -> int, q: T)
    requires t.Node? && Ordered(t, cmp) && Alike(t.left, l, cmp, q)
    ensures Alike(t, t.(left := l), cmp, q)
  {
  }

  lemma RightAlike<T>(t: Tree<T>, r: Tree<T>, cmp: (T, T) -> int, q: T)
    requires t.Node? && Ordered(t, cmp) && Alike(t.right, r, cmp, q)
    ensures Alike(t, t.(right := r), cmp, q)
  {
  }

  lemma RefactorAlike<T>(t: Tree<T>, f: int, cmp: (T, T) -> int, q: T)
    requires t.Node? && Ordered(t, cmp)
    ensures Alike(t, t.(factor := f), cmp, q)
  {
  }

  ghost predicate LeftTooHigh<T>(t: Tree<T>) {
    && t.Node? && Avl(t.left) && Avl(t.right)
    && Height(t.left) == Height(t.right) + 2 && t.left.factor != BALANCED
  }

  ghost predicate RightTooHigh<T>(t: Tree<T>) {
    && t.Node? && Avl(t.left) && Avl(t.right)
    && Height(t.right) == Height(t.left) + 2 && t.right.factor != BALANCED
  }

  /** Between the two pivots of a left-right rotation. */
  ghost function LeftMidway<T>(t: Tree<T>): Tree<T>
    requires LeftTooHigh(t) && t.left.factor == RGT_HEAVY
    ensures Pivoted(LeftMidway(t), t.left) && Pivoted(t.(left := LeftMidway(t)), RotateLeft(t))
  {
    var g := t.left.right;
    Node(RotateLeft(t).left, g.data, g.hidden, BALANCED, g.right)
  }

  /** Between the two pivots of a right-left rotation. */
  ghost function RightMidway<T>(t: Tree<T>): Tree<T>
    requires RightTooHigh(t) && t.right.factor == LFT_HEAVY
    ensures Pivoted(t.right, RightMidway(t)) && Pivoted(RotateRight(t), t.(right := RightMidway(t)))
  {
    var g := t.right.left;
    Node(g.left, g.data, g.hidden, BALANCED, RotateRight(t).right)
  }

  /** Rotations neither lose data nor disturb the order or any search. */
  lemma RotateLeftKeeps<T(!new)>(t: Tree<T>, cmp: (T, T) -> int, q: T)
    requires LeftTooHigh(t)
    requires TotalOrder(cmp) && Ordered(t, cmp)
    ensures Alike(t, RotateLeft(t), cmp, q)
  {
    if t.left.factor == LFT_HEAVY {
      PivotRight(t, RotateLeft(t), cmp, q);
    } else {
      var l := LeftMidway(t);
      PivotLeft(l, t.left, cmp, q);
      LeftAlike(t, l, cmp, q);
      PivotRight(t.(left := l), RotateLeft(t), cmp, q);
    }
  }

  lemma RotateRightKeeps<T(!new)>(t: Tree<T>, cmp: (T, T) -> int, q: T)
    requires RightTooHigh(t)
    requires TotalOrder(cmp) && Ordered(t, cmp)
    ensures Alike(t, RotateRight(t), cmp, q)
  {
    if t.right.factor == RGT_HEAVY {
      PivotLeft(RotateRight(t), t, cmp, q);
    } else {
      var r := RightMidway(t);
      PivotRight(t.right, r, cmp, q);
      RightAlike(t, r, cmp, q);
      PivotLeft(RotateRight(t), t.(right := r), cmp, q);
    }
  }

  // ------------------------------------------------------- what insert and hide do

  /** One call by a client. `mem` says whether the allocations an insert may need succeed. */
  datatype Op<T> = Put(x: T, mem: bool) | Remove(x: T)

  /** The abstract effect of a call on the slot of its own key. */
  function SlotStep<T>(s: Slot<T>, op: Op<T>): Slot<T> {
    match op
    case Put(x, mem) =>
      (match s
       case Live(_) => s
       case Hidden(_) => Live(x)
       case Absent => if mem then Live(x) else Absent)
    case Remove(_) => if s.Live? then Hidden(s.datum) else s
  }

  /** The return code of a call whose own key has slot `s`. */
  function SlotCode<T>(s: Slot<T>, op: Op<T>): int {
    match op
    case Put(_, mem) =>
      (match s
       case Live(_) => 1
       case Hidden(_) => 0
       case Absent => if mem then 0 else -1)
    case Remove(_) => if s.Absent? then -1 else 0
  }

  /** From `t` to `u` only the slot of the key of `op` changed, as `op` says. */
  ghost predicate Stepped<T>(t: Tree<T>, u: Tree<T>, op: Op<T>, cmp: (T, T) -> int, q: T) {
    && Ordered(u, cmp)
    && Elems(u) <= Elems(t) + {op.x}
    && Find(u, q, cmp) == if Cmp(cmp, q, op.x) == 0 then SlotStep(Find(t, q, cmp), op) else Find(t, q, cmp)
  }

  lemma Apart<T(!new)>(cmp: (T, T) -> int, x: T, d: T, q: T)
    requires TotalOrder(cmp)
    ensures Cmp(cmp, x, d) < 0 && Cmp(cmp, q, d) >= 0 ==> Cmp(cmp, q, x) != 0
    ensures Cmp(cmp, x, d) > 0 && Cmp(cmp, q, d) <= 0 ==> Cmp(cmp, q, x) != 0
    ensures Cmp(cmp, x, d) == 0 ==> (Cmp(cmp, q, d) == 0 <==> Cmp(cmp, q, x) == 0)
    ensures Cmp(cmp, x, d) == 0 ==> (Cmp(cmp, q, d) < 0 <==> Cmp(cmp, q, x) < 0)
    ensures Cmp(cmp, x, d) > 0 <==> Cmp(cmp, d, x) < 0
  {
    assert Cmp(cmp, d, q) > 0 <==> Cmp(cmp, q, d) < 0;
  }

  lemma LeftStepped<T(!new)>(t: Tree<T>, u: Tree<T>, op: Op<T>, cmp: (T, T) -> int, q: T)
    requires t.Node? && Ordered(t, cmp) && Stepped(t.left, u, op, cmp, q)
    requires Cmp(cmp, op.x, t.data) < 0
    requires Cmp(cmp, q, t.data) >= 0 ==> Cmp(cmp, q, op.x) != 0
    ensures Stepped(t, t.(left := u), op, cmp, q)
  {
  }

  lemma RightStepped<T(!new)>(t: Tree<T>, u: Tree<T>, op: Op<T>, cmp: (T, T) -> int, q: T)
    requires t.Node? && Ordered(t, cmp) && Stepped(t.right, u, op, cmp, q)
    requires Cmp(cmp, t.data, op.x) < 0
    requires Cmp(cmp, q, t.data) <= 0 ==> Cmp(cmp, q, op.x) != 0
    ensures Stepped(t, t.(right := u), op, cmp, q)
  {
  }

  lemma ReplaceStepped<T(!new)>(t: Tree<T>, op: Op<T>, cmp: (T, T) -> int, q: T)
    requires TotalOrder(cmp) && t.Node? && Ordered(t, cmp) && op.Put? && Cmp(cmp, op.x, t.data) == 0
    ensures Stepped(t, if t.hidden then t.(data := op.x, hidden := false) else t, op, cmp, q)
  {
    var x := op.x;
    Apart(cmp, x, t.data, q);
    forall e | e in Elems(t.left) ensures Cmp(cmp, e, x) < 0 { Apart(cmp, x, t.data, e); }
    forall e | e in Elems(t.right) ensures Cmp(cmp, x, e) < 0 {
      Apart(cmp, x, t.data, e);
      Apart(cmp, e, t.data, e);
      Apart(cmp, e, x, e);
    }
  }

  /** The tree `insert` has in hand once its left call succeeded, before any repair,
      and the one it returns, answer every search alike. */
  lemma AfterLeftAlike<T(!new)>(t: Tree<T>, o: Outcome<T>, cmp: (T, T) -> int, q: T)
    requires t.Node? && Avl(t) && Repaired(t.left, o) && o.ret == 0
    requires TotalOrder(cmp) && Ordered(t.(left := o.tree), cmp)
    ensures Alike(t.(left := o.tree), AfterLeft(t, o).tree, cmp, q)
  {
    var t1 := t.(left := o.tree);
    if o.balanced {
      assert AfterLeft(t, o).tree == t1;
    } else if t.factor == LFT_HEAVY {
      assert LeftTooHigh(t1) && AfterLeft(t, o).tree == RotateLeft(t1);
      RotateLeftKeeps(t1, cmp, q);
    } else {
      RefactorAlike(t1, AfterLeft(t, o).tree.factor, cmp, q);
    }
  }

  lemma AfterRightAlike<T(!new)>(t: Tree<T>, o: Outcome<T>, cmp: (T, T) -> int, q: T)
    requires t.Node? && Avl(t) && Repaired(t.right, o) && o.ret == 0
    requires TotalOrder(cmp) && Ordered(t.(right := o.tree), cmp)
    ensures Alike(t.(right := o.tree), AfterRight(t, o).tree, cmp, q)
  {
    var t1 := t.(right := o.tree);
    if o.balanced {
      assert AfterRight(t, o).tree == t1;
    } else if t.factor == RGT_HEAVY {
      assert RightTooHigh(t1) && AfterRight(t, o).tree == RotateRight(t1);
      RotateRightKeeps(t1, cmp, q);
    } else {
      RefactorAlike(t1, AfterRight(t, o).tree.factor, cmp, q);
    }
  }

  lemma AfterLeftStepped<T(!new)>(t: Tree<T>, o: Outcome<T>, op: Op<T>, cmp: (T, T) -> int, q: T)
    requires t.Node? && Avl(t) && Repaired(t.left, o)
    requires TotalOrder(cmp) && Ordered(t, cmp) && Stepped(t.left, o.tree, op, cmp, q)
    requires Cmp(cmp, op.x, t.data) < 0
    ensures Stepped(t, AfterLeft(t, o).tree, op, cmp, q)
  {
    Apart(cmp, op.x, t.data, q);
    LeftStepped(t, o.tree, op, cmp, q);
    if o.ret == 0 {
      AfterLeftAlike(t, o, cmp, q);
    } else {
      assert AfterLeft(t, o).tree == t && t.(left := o.tree) == t;
    }
  }

  lemma AfterRightStepped<T(!new)>(t: Tree<T>, o: Outcome<T>, op: Op<T>, cmp: (T, T) -> int, q: T)
    requires t.Node? && Avl(t) && Repaired(t.right, o)
    requires TotalOrder(cmp) && Ordered(t, cmp) && Stepped(t.right, o.tree, op, cmp, q)
    requires Cmp(cmp, op.x, t.data) > 0
    ensures Stepped(t, AfterRight(t, o).tree, op, cmp, q)
  {
    Apart(cmp, op.x, t.data, q);
    RightStepped(t, o.tree, op, cmp, q);
    if o.ret == 0 {
      AfterRightAlike(t, o, cmp, q);
    } else {
      assert AfterRight(t, o).tree == t && t.(right := o.tree) == t;
    }
  }

  /** `insert` keeps the order and changes the slot of no key but that of `x`. */
  lemma {:induction false} InsertRefines<T(!new)>(t: Tree<T>, x: T, cmp: (T, T) -> int, mem: bool, q: T)
    requires Avl(t) && TotalOrder(cmp) && Ordered(t, cmp)
    ensures Stepped(t, Insert(t, x, cmp, mem).tree, Put(x, mem), cmp, q)
  {
    if t.Node? {
      var c, op := Cmp(cmp, x, t.data), Put(x, mem);
      if c < 0 {
        InsertRefines(t.left, x, cmp, mem, q);
        AfterLeftStepped(t, Insert(t.left, x, cmp, mem), op, cmp, q);
      } else if c > 0 {
        InsertRefines(t.right, x, cmp, mem, q);
        AfterRightStepped(t, Insert(t.right, x, cmp, mem), op, cmp, q);
      } else {
        ReplaceStepped(t, op, cmp, q);
      }
    }
  }

  /** `insert` returns the code of the slot its own key had. */
  lemma {:induction false} InsertReturns<T>(t: Tree<T>, x: T, cmp: (T, T) -> int, mem: bool)
    requires Avl(t)
    ensures Insert(t, x, cmp, mem).ret == SlotCode(Find(t, x, cmp), Put(x, mem))
  {
    if t.Node? {
      InsertReturns(t.left, x, cmp, mem);
      InsertReturns(t.right, x, cmp, mem);
    }
  }

  /** Reviving a hidden key replaces its datum and changes neither shape nor factors. */
  lemma {:induction false} ReviveKeepsShape<T>(t: Tree<T>, x: T, cmp: (T, T) -> int, mem: bool)
    requires Avl(t) && Find(t, x, cmp).Hidden?
    ensures var o := Insert(t, x, cmp, mem);
      o.balanced && Shape(o.tree) == Shape(t) && o.freed == [Find(t, x, cmp).stale]
  {
    InsertReturns(t, x, cmp, mem);
    var c := Cmp(cmp, x, t.data);
    if c < 0 {
      ReviveKeepsShape(t.left, x, cmp, mem);
    } else if c > 0 {
      ReviveKeepsShape(t.right, x, cmp, mem);
    }
  }

  /** `hide` changes only the mark on the slot of `x`: same shape, same factors, same data. */
  lemma {:induction false} HideRefines<T(!new)>(t: Tree<T>, x: T, cmp: (T, T) -> int, q: T)
    requires TotalOrder(cmp) && Ordered(t, cmp)
    ensures Stepped(t, Hide(t, x, cmp), Remove(x), cmp, q)
  {
    if t.Node? {
      var c, op := Cmp(cmp, x, t.data), Remove(x);
      Apart(cmp, x, t.data, q);
      if c < 0 {
        HideRefines(t.left, x, cmp, q);
        LeftStepped(t, Hide(t.left, x, cmp), op, cmp, q);
      } else if c > 0 {
        HideRefines(t.right, x, cmp, q);
        RightStepped(t, Hide(t.right, x, cmp), op, cmp, q);
      }
    }
  }

  // ------------------------------------------------------------- data accounting

  lemma RotateLeftKeepsData<T>(t: Tree<T>, e: T)
    requires LeftTooHigh(t)
    ensures Occurrences(RotateLeft(t), e) == Occurrences(t, e)
  {
    if t.left.factor == LFT_HEAVY {
      PivotKeepsData(t, RotateLeft(t), e);
    } else {
      var l := LeftMidway(t);
      PivotKeepsData(l, t.left, e);
      PivotKeepsData(t.(left := l), RotateLeft(t), e);
    }
  }

  lemma RotateRightKeepsData<T>(t: Tree<T>, e: T)
    requires RightTooHigh(t)
    ensures Occurrences(RotateRight(t), e) == Occurrences(t, e)
  {
    if t.right.factor == RGT_HEAVY {
      PivotKeepsData(RotateRight(t), t, e);
    } else {
      var r := RightMidway(t);
      PivotKeepsData(t.right, r, e);
      PivotKeepsData(RotateRight(t), t.(right := r), e);
    }
  }

  lemma AfterLeftData<T>(t: Tree<T>, o: Outcome<T>, e: T)
    requires t.Node? && Avl(t) && Repaired(t.left, o)
    ensures Occurrences(AfterLeft(t, o).tree, e) == Occurrences(t.(left := o.tree), e)
  {
    var t1 := t.(left := o.tree);
    if o.ret == 0 && !o.balanced && t.factor == LFT_HEAVY {
      assert LeftTooHigh(t1) && AfterLeft(t, o).tree == RotateLeft(t1);
      RotateLeftKeepsData(t1, e);
    }
  }

  lemma AfterRightData<T>(t: Tree<T>, o: Outcome<T>, e: T)
    requires t.Node? && Avl(t) && Repaired(t.right, o)
    ensures Occurrences(AfterRight(t, o).tree, e) == Occurrences(t.(right := o.tree), e)
  {
    var t1 := t.(right := o.tree);
    if o.ret == 0 && !o.balanced && t.factor == RGT_HEAVY {
      assert RightTooHigh(t1) && AfterRight(t, o).tree == RotateRight(t1);
      RotateRightKeepsData(t1, e);
    }
  }

  /** `insert` takes ownership of `x` exactly when it returns 0, and every datum that leaves
      the tree goes to the destroy callback. */
  lemma {:induction false} InsertConserves<T>(t: Tree<T>, x: T, cmp: (T, T) -> int, mem: bool, e: T)
    requires Avl(t)
    ensures var o := Insert(t, x, cmp, mem);
      Occurrences(o.tree, e) + multiset(o.freed)[e] ==
      Occurrences(t, e) + if o.ret == 0 && x == e then 1 else 0
  {
    if t.Node? {
      var c := Cmp(cmp, x, t.data);
      if c < 0 {
        InsertConserves(t.left, x, cmp, mem, e);
        AfterLeftData(t, Insert(t.left, x, cmp, mem), e);
      } else if c > 0 {
        InsertConserves(t.right, x, cmp, mem, e);
        AfterRightData(t, Insert(t.right, x, cmp, mem), e);
      }
    }
  }

  lemma AfterLeftSize<T>(t: Tree<T>, o: Outcome<T>)
    requires t.Node? && Avl(t) && Repaired(t.left, o)
    ensures Size(AfterLeft(t, o).tree) == Size(t.(left := o.tree))
  {
    if o.ret == 0 && !o.balanced && t.factor == LFT_HEAVY {
      var t1 := t.(left := o.tree);
      assert LeftTooHigh(t1) && AfterLeft(t, o).tree == RotateLeft(t1);
      if t1.left.factor != LFT_HEAVY { assert Size(LeftMidway(t1)) == Size(t1.left); }
    }
  }

  lemma AfterRightSize<T>(t: Tree<T>, o: Outcome<T>)
    requires t.Node? && Avl(t) && Repaired(t.right, o)
    ensures Size(AfterRight(t, o).tree) == Size(t.(right := o.tree))
  {
    if o.ret == 0 && !o.balanced && t.factor == RGT_HEAVY {
      var t1 := t.(right := o.tree);
      assert RightTooHigh(t1) && AfterRight(t, o).tree == RotateRight(t1);
      if t1.right.factor != RGT_HEAVY { assert Size(RightMidway(t1)) == Size(t1.right); }
    }
  }

  /** A node is added exactly when a successful insert destroyed nothing. */
  lemma {:induction false} InsertSize<T>(t: Tree<T>, x: T, cmp: (T, T) -> int, mem: bool)
    requires Avl(t)
    ensures var o := Insert(t, x, cmp, mem);
      Size(o.tree) == Size(t) + if o.ret == 0 && o.freed == [] then 1 else 0
  {
    if t.Node? {
      var c := Cmp(cmp, x, t.data);
      if c < 0 {
        InsertSize(t.left, x, cmp, mem);
        AfterLeftSize(t, Insert(t.left, x, cmp, mem));
      } else if c > 0 {
        InsertSize(t.right, x, cmp, mem);
        AfterRightSize(t, Insert(t.right, x, cmp, mem));
      }
    }
  }

  lemma {:induction false} HideConserves<T>(t: Tree<T>, x: T, cmp: (T, T) -> int, e: T)
    ensures Occurrences(Hide(t, x, cmp), e) == Occurrences(t, e)
  {
    if t.Node? {
      HideConserves(t.left, x, cmp, e);
      HideConserves(t.right, x, cmp, e);
    }
  }

  /** `hide` leaves shape and factors alone. */
  lemma {:induction false} HideKeepsShape<T>(t: Tree<T>, x: T, cmp: (T, T) -> int)
    ensures Shape(Hide(t, x, cmp)) == Shape(t)
  {
    if t.Node? {
      var c := Cmp(cmp, x, t.data);
      if c < 0 { HideKeepsShape(t.left, x, cmp); } else if c > 0 { HideKeepsShape(t.right, x, cmp); }
    }
  }

  /** Balance is a matter of shape and factors only. */
  lemma {:induction false} ShapeDecides<T, U>(t: Tree<T>, u: Tree<U>)
    requires Shape(t) == Shape(u)
    ensures Height(t) == Height(u) && Size(t) == Size(u) && (Avl(t) <==> Avl(u))
  {
    if t.Node? {
      ShapeDecides(t.left, u.left);
      ShapeDecides(t.right, u.right);
    }
  }

  /** Teardown visits every stored datum exactly as often as it is stored; `size` counts hidden nodes too. */
  lemma {:induction false} PostorderCounts<T>(t: Tree<T>, e: T)
    ensures |Postorder(t)| == Size(t)
    ensures multiset(Postorder(t))[e] == Occurrences(t, e)
  {
    if t.Node? {
      PostorderCounts(t.left, e);
      PostorderCounts(t.right, e);
    }
  }

  ghost predicate Within<T>(u: Tree<T>, t: Tree<T>) {
    u == t || (t.Node? && (Within(u, t.left) || Within(u, t.right)))
  }

  lemma {:induction false} BlockOf<T>(t: Tree<T>, u: Tree<T>) returns (before: seq<T>, after: seq<T>)
    requires Within(u, t)
    ensures Postorder(t) == before + Postorder(u) + after
  {
    if u == t {
      before, after := [], [];
    } else if Within(u, t.left) {
      before, after := BlockOf(t.left, u);
      after := after + Postorder(t.right) + [t.data];
    } else {
      before, after := BlockOf(t.right, u);
      before, after := Postorder(t.left) + before, after + [t.data];
    }
  }

  /** Teardown order: the data of a subtree go together, those of its left child first, then those of its
      right child, and its own last. */
  lemma {:induction false} TeardownOrder<T>(t: Tree<T>, u: Tree<T>, e: T)
      returns (before: seq<T>, l: seq<T>, r: seq<T>, after: seq<T>)
    requires Within(u, t) && u.Node?
    ensures Postorder(t) == before + (l + r + [u.data]) + after
    ensures |l| == Size(u.left) && multiset(l)[e] == Occurrences(u.left, e)
    ensures |r| == Size(u.right) && multiset(r)[e] == Occurrences(u.right, e)
  {
    before, after := BlockOf(t, u);
    l, r := Postorder(u.left), Postorder(u.right);
    PostorderCounts(u.left, e);
    PostorderCounts(u.right, e);
  }

  // --------------------------------------------------- what the order and a search mean

  ghost predicate Ascending<T>(s: seq<T>, cmp: (T, T) -> int) {
    forall i, j :: 0 <= i < j < |s| ==> Cmp(cmp, s[i], s[j]) < 0
  }

  lemma {:induction false} InorderElems<T>(t: Tree<T>)
    ensures forall e :: e in Inorder(t) <==> e in Elems(t)
  {
    if t.Node? {
      InorderElems(t.left);
      InorderElems(t.right);
    }
  }

  lemma AscendingJoin<T(!new)>(a: seq<T>, d: T, b: seq<T>, cmp: (T, T) -> int)
    requires TotalOrder(cmp)
    ensures Ascending(a + [d] + b, cmp) <==>
            && Ascending(a, cmp) && Ascending(b, cmp)
            && (forall e :: e in a ==> Cmp(cmp, e, d) < 0)
            && (forall e :: e in b ==> Cmp(cmp, d, e) < 0)
  {
    var s := a + [d] + b;
    if Ascending(s, cmp) {
      forall i, j | 0 <= i < j < |a| ensures Cmp(cmp, a[i], a[j]) < 0 { assert a[i] == s[i] && a[j] == s[j]; }
      forall i, j | 0 <= i < j < |b| ensures Cmp(cmp, b[i], b[j]) < 0 {
        assert b[i] == s[|a| + 1 + i] && b[j] == s[|a| + 1 + j];
      }
      forall e | e in a ensures Cmp(cmp, e, d) < 0 {
        var i :| 0 <= i < |a| && a[i] == e;
        assert s[i] == e && s[|a|] == d;
      }
      forall e | e in b ensures Cmp(cmp, d, e) < 0 {
        var i :| 0 <= i < |b| && b[i] == e;
        assert s[|a| + 1 + i] == e && s[|a|] == d;
      }
    }
  }

  /** The tree order is exactly a strictly ascending inorder walk. */
  lemma {:induction false} OrderedIffAscending<T(!new)>(t: Tree<T>, cmp: (T, T) -> int)
    requires TotalOrder(cmp)
    ensures Ordered(t, cmp) <==> Ascending(Inorder(t), cmp)
  {
    if t.Node? {
      OrderedIffAscending(t.left, cmp);
      OrderedIffAscending(t.right, cmp);
      InorderElems(t.left);
      InorderElems(t.right);
      AscendingJoin(Inorder(t.left), t.data, Inorder(t.right), cmp);
    }
  }

  /** Somewhere in `t` sits a node with datum `d` and mark `h`. */
  ghost predicate Holds<T>(t: Tree<T>, d: T, h: bool) {
    t.Node? && ((t.data == d && t.hidden == h) || Holds(t.left, d, h) || Holds(t.right, d, h))
  }

  lemma {:induction false} HoldsElem<T>(t: Tree<T>, d: T, h: bool)
    requires Holds(t, d, h)
    ensures d in Elems(t)
  {
    if Holds(t.left, d, h) { HoldsElem(t.left, d, h); }
    if Holds(t.right, d, h) { HoldsElem(t.right, d, h); }
  }

  /** The search is complete and sound: it meets exactly the node, anywhere in the
      tree, whose key equals the query. */
  lemma {:induction false} FindIffHolds<T(!new)>(t: Tree<T>, q: T, d: T, h: bool, cmp: (T, T) -> int)
    requires TotalOrder(cmp) && Ordered(t, cmp)
    ensures Find(t, q, cmp) == (if h then Hidden(d) else Live(d)) <==> Holds(t, d, h) && Cmp(cmp, q, d) == 0
  {
    if t.Node? {
      FindIffHolds(t.left, q, d, h, cmp);
      FindIffHolds(t.right, q, d, h, cmp);
      if Holds(t.left, d, h) { HoldsElem(t.left, d, h); }
      if Holds(t.right, d, h) { HoldsElem(t.right, d, h); }
      Apart(cmp, d, t.data, q);
    }
  }
}
