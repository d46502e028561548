/** The search tree on the heap: nodes linked by child pointers and changed in place,
    each method proved against the functions of `AvlTree`. */
module BisTree {
  import opened Allocation
  import opened Ordering
  import opened AvlTree
  import opened AvlRuns

  /** The record a node points to; never shared between nodes. */
  datatype AvlNode<T> = AvlNode(data: T, hidden: bool, factor: int)

  class BiTreeNode<T> {
    var data: AvlNode<T>
    var left: BiTreeNode?<T>
    var right: BiTreeNode?<T>

    constructor (data: AvlNode<T>)
      ensures this.data == data && left == null && right == null
    {
      this.data, left, right := data, null, null;
    }
  }

  /** Which node sits where: the ghost shape of a linked tree. */
  datatype Skeleton<T> = Tip | Fork(l: Skeleton<T>, node: BiTreeNode<T>, r: Skeleton<T>)

  ghost function Nodes<T>(k: Skeleton<T>): set<BiTreeNode<T>> {
    match k
    case Tip => {}
    case Fork(l, n, r) => Nodes(l) + {n} + Nodes(r)
  }

  /** No node occurs twice. */
  ghost predicate Distinct<T>(k: Skeleton<T>) {
    k.Fork? ==>
      && Distinct(k.l) && Distinct(k.r)
      && k.node !in Nodes(k.l) && k.node !in Nodes(k.r) && Nodes(k.l) !! Nodes(k.r)
  }

  /** Following child pointers from `n` walks exactly `k`. */
  ghost predicate Linked<T>(n: BiTreeNode?<T>, k: Skeleton<T>)
    reads Nodes(k)
  {
    match k
    case Tip => n == null
    case Fork(l, o, r) => n == o && Linked(o.left, l) && Linked(o.right, r)
  }

  /** The tree value the nodes of `k` hold. */
  ghost function Model<T>(k: Skeleton<T>): Tree<T>
    reads Nodes(k)
  {
    match k
    case Tip => Empty
    case Fork(l, n, r) => Node(Model(l), n.data.data, n.data.hidden, n.data.factor, Model(r))
  }

  /** `n` is the root of the well-formed tree `k`. */
  ghost predicate IsTree<T>(n: BiTreeNode?<T>, k: Skeleton<T>)
    reads Nodes(k)
  {
    Linked(n, k) && Distinct(k)
  }

  /** A tree node holding record `a` between two subtrees. */
  function Cell<T>(l: Tree<T>, a: AvlNode<T>, r: Tree<T>): Tree<T> {
    Node(l, a.data, a.hidden, a.factor, r)
  }

  /** The two pointer writes that put `node` under its former left descendant `top`, on the right. */
  method HangRight<T>(node: BiTreeNode<T>, top: BiTreeNode<T>, fNode: int, fTop: int,
                      ghost kt: Skeleton<T>, ghost kr: Skeleton<T>)
      returns (ghost k: Skeleton<T>)
    requires kt.Fork? && IsTree(top, kt) && IsTree(node.right, kr)
    requires node !in Nodes(kt) && node !in Nodes(kr) && Nodes(kt) !! Nodes(kr)
    modifies node, top
    ensures k == Fork(kt.l, top, Fork(kt.r, node, kr))
    ensures IsTree(top, k) && Nodes(k) == Nodes(kt) + {node} + Nodes(kr)
    ensures Model(k) == Cell(old(Model(kt.l)), old(top.data).(factor := fTop),
                             Cell(old(Model(kt.r)), old(node.data).(factor := fNode), old(Model(kr))))
  {
    node.left := top.right;
    top.right := node;
    node.data := node.data.(factor := fNode);
    top.data := top.data.(factor := fTop);
    ghost var r := Fork(kt.r, node, kr);
    assert IsTree(node, r);
    k := Fork(kt.l, top, r);
  }

  /** The mirror image: `node` goes under its former right descendant `top`, on the left. */
  method HangLeft<T>(node: BiTreeNode<T>, top: BiTreeNode<T>, fNode: int, fTop: int,
                     ghost kl: Skeleton<T>, ghost kt: Skeleton<T>)
      returns (ghost k: Skeleton<T>)
    requires kt.Fork? && IsTree(top, kt) && IsTree(node.left, kl)
    requires node !in Nodes(kt) && node !in Nodes(kl) && Nodes(kl) !! Nodes(kt)
    modifies node, top
    ensures k == Fork(Fork(kl, node, kt.l), top, kt.r)
    ensures IsTree(top, k) && Nodes(k) == Nodes(kl) + {node} + Nodes(kt)
    ensures Model(k) == Cell(Cell(old(Model(kl)), old(node.data).(factor := fNode), old(Model(kt.l))),
                             old(top.data).(factor := fTop), old(Model(kt.r)))
  {
    node.right := top.left;
    top.left := node;
    node.data := node.data.(factor := fNode);
    top.data := top.data.(factor := fTop);
    ghost var l := Fork(kl, node, kt.l);
    assert IsTree(node, l);
    k := Fork(l, top, kt.r);
  }

  /** Left-left rotation. */
  method LeftLeft<T>(node: BiTreeNode<T>, ghost k: Skeleton<T>) returns (top: BiTreeNode<T>, ghost k': Skeleton<T>)
    requires IsTree(node, k) && k.Fork? && k.l.Fork? && Model(k).left.Node?
    modifies Nodes(k)
    ensures IsTree(top, k') && Nodes(k') == Nodes(k)
    ensures Model(k') == TurnLeftLeft(old(Model(k)))
  {
    assert IsTree(node.left, k.l) && Model(k).left == Model(k.l);
    top := node.left;
    k' := HangRight(node, top, BALANCED, BALANCED, k.l, k.r);
  }

  /** Left-right rotation. */
  method LeftRight<T>(node: BiTreeNode<T>, ghost k: Skeleton<T>) returns (top: BiTreeNode<T>, ghost k': Skeleton<T>)
    requires IsTree(node, k) && k.Fork? && k.l.Fork? && k.l.r.Fork?
    requires Model(k).left.Node? && Model(k).left.right.Node?
    modifies Nodes(k)
    ensures IsTree(top, k') && Nodes(k') == Nodes(k)
    ensures Model(k') == TurnLeftRight(old(Model(k)))
  {
    assert IsTree(node.left, k.l) && Model(k).left == Model(k.l);
    var left := node.left;
    assert IsTree(left.right, k.l.r) && Model(k.l).right == Model(k.l.r);
    top := left.right;
    assert left in Nodes(k.l) && top in Nodes(k.l.r) && Nodes(k.l.r) <= Nodes(k.l);
    assert IsTree(node.right, k.r) && left !in Nodes(k.r) && top !in Nodes(k.r);
    ghost var t := Model(k);
    ghost var s := Existing(Nodes(k.r));
    var fNode, fLeft := BALANCED, BALANCED;
    match top.data.factor {
      case 1 => fNode := RGT_HEAVY;
      case -1 => fLeft := LFT_HEAVY;
      case _ =>
    }
    ghost var kg := HangLeft(left, top, fLeft, BALANCED, k.l.l, k.l.r);
    assert IsTree(node.right, k.r) && Model(k.r) == t.right;
    assert Model(kg.l) == TurnLeftRight(t).left && Model(kg.r) == t.left.right.right;
    k' := HangRight(node, top, fNode, BALANCED, kg, k.r);
  }

  method RotateLeft<T>(node: BiTreeNode<T>, ghost k: Skeleton<T>) returns (top: BiTreeNode<T>, ghost k': Skeleton<T>)
    requires IsTree(node, k) && LeftTooHigh(Model(k))
    modifies Nodes(k)
    ensures IsTree(top, k') && Nodes(k') == Nodes(k)
    ensures Model(k') == AvlTree.RotateLeft(old(Model(k)))
  {
    assert IsTree(node.left, k.l) && Model(k).left == Model(k.l);
    if node.left.data.factor == LFT_HEAVY {
      top, k' := LeftLeft(node, k);
    } else {
      assert Model(k.l).right == Model(k.l.r) && k.l.r.Fork?;
      top, k' := LeftRight(node, k);
    }
  }

  /** Right-right rotation. */
  method RightRight<T>(node: BiTreeNode<T>, ghost k: Skeleton<T>) returns (top: BiTreeNode<T>, ghost k': Skeleton<T>)
    requires IsTree(node, k) && k.Fork? && k.r.Fork? && Model(k).right.Node?
    modifies Nodes(k)
    ensures IsTree(top, k') && Nodes(k') == Nodes(k)
    ensures Model(k') == TurnRightRight(old(Model(k)))
  {
    assert IsTree(node.right, k.r) && Model(k).right == Model(k.r);
    top := node.right;
    k' := HangLeft(node, top, BALANCED, BALANCED, k.l, k.r);
  }

  /** Right-left rotation. */
  method RightLeft<T>(node: BiTreeNode<T>, ghost k: Skeleton<T>) returns (top: BiTreeNode<T>, ghost k': Skeleton<T>)
    requires IsTree(node, k) && k.Fork? && k.r.Fork? && k.r.l.Fork?
    requires Model(k).right.Node? && Model(k).right.left.Node?
    modifies Nodes(k)
    ensures IsTree(top, k') && Nodes(k') == Nodes(k)
    ensures Model(k') == TurnRightLeft(old(Model(k)))
  {
    assert IsTree(node.right, k.r) && Model(k).right == Model(k.r);
    var right := node.right;
    assert IsTree(right.left, k.r.l) && Model(k.r).left == Model(k.r.l);
    top := right.left;
    assert right in Nodes(k.r) && top in Nodes(k.r.l) && Nodes(k.r.l) <= Nodes(k.r);
    assert IsTree(node.left, k.l) && right !in Nodes(k.l) && top !in Nodes(k.l);
    ghost var t := Model(k);
    ghost var s := Existing(Nodes(k.l));
    var fNode, fRight := BALANCED, BALANCED;
    match top.data.factor {
      case 1 => fRight := RGT_HEAVY;
      case -1 => fNode := LFT_HEAVY;
      case _ =>
    }
    ghost var kg := HangRight(right, top, fRight, BALANCED, k.r.l, k.r.r);
    assert IsTree(node.left, k.l) && Model(k.l) == t.left;
    assert Model(kg.r) == TurnRightLeft(t).right && Model(kg.l) == t.right.left.left;
    k' := HangLeft(node, top, fNode, BALANCED, k.l, kg);
  }

  method RotateRight<T>(node: BiTreeNode<T>, ghost k: Skeleton<T>) returns (top: BiTreeNode<T>, ghost k': Skeleton<T>)
    requires IsTree(node, k) && RightTooHigh(Model(k))
    modifies Nodes(k)
    ensures IsTree(top, k') && Nodes(k') == Nodes(k)
    ensures Model(k') == AvlTree.RotateRight(old(Model(k)))
  {
    assert IsTree(node.right, k.r) && Model(k).right == Model(k.r);
    if node.right.data.factor == RGT_HEAVY {
      top, k' := RightRight(node, k);
    } else {
      assert Model(k.r).left == Model(k.r.l) && k.r.l.Fork?;
      top, k' := RightLeft(node, k);
    }
  }

  method LinkLeft<T>(node: BiTreeNode<T>, n: BiTreeNode?<T>, ghost sub: Skeleton<T>, ghost rest: Skeleton<T>)
    requires IsTree(n, sub) && IsTree(node.right, rest)
    requires node !in Nodes(sub) && node !in Nodes(rest) && Nodes(sub) !! Nodes(rest)
    modifies node
    ensures node.data == old(node.data)
    ensures var k := Fork(sub, node, rest);
      IsTree(node, k) && Model(k) == Cell(old(Model(sub)), node.data, old(Model(rest)))
  {
    node.left := n;
  }

  method LinkRight<T>(node: BiTreeNode<T>, n: BiTreeNode?<T>, ghost sub: Skeleton<T>, ghost rest: Skeleton<T>)
    requires IsTree(n, sub) && IsTree(node.left, rest)
    requires node !in Nodes(sub) && node !in Nodes(rest) && Nodes(sub) !! Nodes(rest)
    modifies node
    ensures node.data == old(node.data)
    ensures var k := Fork(rest, node, sub);
      IsTree(node, k) && Model(k) == Cell(old(Model(rest)), node.data, old(Model(sub)))
  {
    node.right := n;
  }

  /** The tail of the left branch of `insert`: factor repair on the way up. */
  method RepairLeft<T>(node: BiTreeNode<T>, flag: bool, ghost k: Skeleton<T>, ghost t: Tree<T>, ghost o: Outcome<T>)
      returns (top: BiTreeNode<T>, balanced: bool, ghost k': Skeleton<T>)
    requires IsTree(node, k) && t.Node? && Avl(t) && Repaired(t.left, o) && o.ret == 0 && flag == o.balanced
    requires Model(k) == t.(left := o.tree)
    modifies Nodes(k)
    ensures IsTree(top, k') && Nodes(k') == Nodes(k)
    ensures Model(k') == AfterLeft(t, o).tree && balanced == AfterLeft(t, o).balanced
  {
    top, balanced, k' := node, flag, k;
    if !balanced {
      if node.data.factor == LFT_HEAVY {
        assert LeftTooHigh(Model(k));
        top, k' := RotateLeft(node, k);
        balanced := true;
      } else if node.data.factor == BALANCED {
        node.data := node.data.(factor := LFT_HEAVY);
      } else if node.data.factor == RGT_HEAVY {
        node.data := node.data.(factor := BALANCED);
        balanced := true;
      }
    }
  }

  /** The tail of the right branch of `insert`. */
  method RepairRight<T>(node: BiTreeNode<T>, flag: bool, ghost k: Skeleton<T>, ghost t: Tree<T>, ghost o: Outcome<T>)
      returns (top: BiTreeNode<T>, balanced: bool, ghost k': Skeleton<T>)
    requires IsTree(node, k) && t.Node? && Avl(t) && Repaired(t.right, o) && o.ret == 0 && flag == o.balanced
    requires Model(k) == t.(right := o.tree)
    modifies Nodes(k)
    ensures IsTree(top, k') && Nodes(k') == Nodes(k)
    ensures Model(k') == AfterRight(t, o).tree && balanced == AfterRight(t, o).balanced
  {
    top, balanced, k' := node, flag, k;
    if !balanced {
      if node.data.factor == LFT_HEAVY {
        node.data := node.data.(factor := BALANCED);
        balanced := true;
      } else if node.data.factor == BALANCED {
        node.data := node.data.(factor := RGT_HEAVY);
      } else if node.data.factor == RGT_HEAVY {
        assert RightTooHigh(Model(k));
        top, k' := RotateRight(node, k);
        balanced := true;
      }
    }
  }

  /** A search tree. `destroyed` logs the calls of the destroy callback, if there is one. */
  class SearchTree<T> {
    const compare: (T, T) -> int
    const hasDestroy: bool
    var size: int
    var root: BiTreeNode?<T>
    var destroyed: seq<T>
    ghost var skeleton: Skeleton<T>
    ghost var history: seq<Op<T>>

    /** The nodes hold exactly the tree that the calls made so far lead to. */
    ghost predicate Valid()
      reads this, Nodes(skeleton)
    {
      && IsTree(root, skeleton)
      && Model(skeleton) == Run(history, compare).tree
      && size == Size(Model(skeleton))
      && destroyed == if hasDestroy then Run(history, compare).destroyed else []
    }

    constructor (compare: (T, T) -> int, hasDestroy: bool)
      ensures Valid() && history == []
      ensures this.compare == compare && this.hasDestroy == hasDestroy && fresh(Nodes(skeleton))
    {
      this.compare, this.hasDestroy := compare, hasDestroy;
      size, root, destroyed, skeleton, history := 0, null, [], Tip, [];
    }

    /** `bitree_ins_left`: hang a new leaf in the empty left slot of `node`, or as the root
        of an empty tree. `ok` is whether malloc succeeds. */
    method InsLeft(node: BiTreeNode?<T>, data: AvlNode<T>, ok: bool) returns (ret: int)
      modifies this`size, this`root, node
      ensures ret == if (if node == null then old(size) > 0 else old(node.left) != null) || !ok then -1 else 0
      ensures ret != 0 ==> size == old(size) && root == old(root) && (node != null ==> unchanged(node))
      ensures ret == 0 ==> size == old(size) + 1
      ensures ret == 0 && node == null ==> root != null && fresh(root) && IsLeaf(root, data)
      ensures ret == 0 && node != null ==>
        && root == old(root) && node.left != null && fresh(node.left) && IsLeaf(node.left, data)
        && node.data == old(node.data) && node.right == old(node.right)
    {
      if node == null {
        if size > 0 { return -1; }
      } else {
        if node.left != null { return -1; }
      }
      if !ok { return -1; }
      var n := new BiTreeNode(data);
      if node == null { root := n; } else { node.left := n; }
      size := size + 1;
      return 0;
    }

    /** `bitree_ins_right`: the same on the right. */
    method InsRight(node: BiTreeNode?<T>, data: AvlNode<T>, ok: bool) returns (ret: int)
      modifies this`size, this`root, node
      ensures ret == if (if node == null then old(size) > 0 else old(node.right) != null) || !ok then -1 else 0
      ensures ret != 0 ==> size == old(size) && root == old(root) && (node != null ==> unchanged(node))
      ensures ret == 0 ==> size == old(size) + 1
      ensures ret == 0 && node == null ==> root != null && fresh(root) && IsLeaf(root, data)
      ensures ret == 0 && node != null ==>
        && root == old(root) && node.right != null && fresh(node.right) && IsLeaf(node.right, data)
        && node.data == old(node.data) && node.left == old(node.left)
    {
      if node == null {
        if size > 0 { return -1; }
      } else {
        if node.right != null { return -1; }
      }
      if !ok { return -1; }
      var n := new BiTreeNode(data);
      if node == null { root := n; } else { node.right := n; }
      size := size + 1;
      return 0;
    }

    /** What `insert` at a subtree leaves in the object itself. */
    twostate predicate Accounted(o: Outcome<T>)
      reads this
    {
      && size == old(size) + (if o.ret == 0 && o.freed == [] then 1 else 0)
      && destroyed == old(destroyed) + (if hasDestroy then o.freed else [])
      && skeleton == old(skeleton) && history == old(history)
    }

    /** The left branch of `insert` where `node` has no left child. */
    method PlantLeft(node: BiTreeNode<T>, x: T, avlOk: bool, nodeOk: bool, ghost k: Skeleton<T>)
        returns (ret: int, ghost k': Skeleton<T>)
      requires k.Fork? && IsTree(node, k) && Avl(Model(k)) && node.left == null
      modifies this, node
      ensures IsTree(node, k') && fresh(Nodes(k') - Nodes(k)) && root == old(root)
      ensures var t := old(Model(k)); var o := AvlTree.Insert(Empty, x, compare, avlOk && nodeOk);
        && t.left == Empty && ret == o.ret && Model(k') == t.(left := o.tree) && Accounted(o)
      ensures ret != 0 ==> k' == k
    {
      k' := k;
      assert IsTree(node.left, k.l) && IsTree(node.right, k.r);
      ghost var rest := Existing(Nodes(k.r));
      if !avlOk { return -1, k'; }
      ret := InsLeft(node, AvlNode(x, false, BALANCED), nodeOk);
      if ret == 0 {
        k' := Fork(Fork(Tip, node.left, Tip), node, k.r);
        assert IsTree(node.right, k.r);
      }
    }

    /** The left branch of `insert` where `node` has a left child. */
    method DescendLeft(node: BiTreeNode<T>, x: T, avlOk: bool, nodeOk: bool, ghost k: Skeleton<T>)
        returns (ret: int, balanced: bool, ghost k': Skeleton<T>)
      requires k.Fork? && IsTree(node, k) && Avl(Model(k)) && node.left != null
      modifies this, Nodes(k)
      ensures IsTree(node, k') && fresh(Nodes(k') - Nodes(k)) && root == old(root)
      ensures var t := old(Model(k)); var o := AvlTree.Insert(t.left, x, compare, avlOk && nodeOk);
        && ret == o.ret && balanced == o.balanced && Model(k') == t.(left := o.tree) && Accounted(o)
      ensures ret != 0 ==> k' == k
      decreases k, 0
    {
      ghost var rest := Existing(Nodes(k.r));
      assert IsTree(node.left, k.l) && IsTree(node.right, k.r);
      var n;
      ghost var sub;
      ret, n, balanced, sub := InsertAt(node.left, x, avlOk, nodeOk, k.l);
      assert IsTree(node.right, k.r) && Model(k.r) == old(Model(k.r));
      assert node !in Nodes(sub) && Nodes(sub) !! Nodes(k.r);
      if ret == 0 {
        LinkLeft(node, n, sub, k.r);
      }
      k' := Fork(sub, node, k.r);
    }

    method InsertLeft(node: BiTreeNode<T>, x: T, avlOk: bool, nodeOk: bool, ghost k: Skeleton<T>)
        returns (ret: int, top: BiTreeNode?<T>, balanced: bool, ghost k': Skeleton<T>)
      requires k.Fork? && IsTree(node, k) && Avl(Model(k))
      modifies this, Nodes(k)
      ensures IsTree(top, k') && fresh(Nodes(k') - Nodes(k)) && root == old(root)
      ensures var t := old(Model(k)); var o := AfterLeft(t, AvlTree.Insert(t.left, x, compare, avlOk && nodeOk));
        && ret == o.ret && balanced == o.balanced && Model(k') == o.tree && Accounted(o)
      ensures ret != 0 ==> top == node && k' == k
      decreases k, 1
    {
      ghost var t := Model(k);
      ghost var o := AvlTree.Insert(t.left, x, compare, avlOk && nodeOk);
      if node.left == null {
        balanced := false;
        ret, k' := PlantLeft(node, x, avlOk, nodeOk, k);
      } else {
        ret, balanced, k' := DescendLeft(node, x, avlOk, nodeOk, k);
      }
      top := node;
      if ret == 0 {
        top, balanced, k' := RepairLeft(node, balanced, k', t, o);
      }
    }

    /** The right branch of `insert` where `node` has no right child. */
    method PlantRight(node: BiTreeNode<T>, x: T, avlOk: bool, nodeOk: bool, ghost k: Skeleton<T>)
        returns (ret: int, ghost k': Skeleton<T>)
      requires k.Fork? && IsTree(node, k) && Avl(Model(k)) && node.right == null
      modifies this, node
      ensures IsTree(node, k') && fresh(Nodes(k') - Nodes(k)) && root == old(root)
      ensures var t := old(Model(k)); var o := AvlTree.Insert(Empty, x, compare, avlOk && nodeOk);
        && t.right == Empty && ret == o.ret && Model(k') == t.(right := o.tree) && Accounted(o)
      ensures ret != 0 ==> k' == k
    {
      k' := k;
      assert IsTree(node.right, k.r) && IsTree(node.left, k.l);
      ghost var rest := Existing(Nodes(k.l));
      if !avlOk { return -1, k'; }
      ret := InsRight(node, AvlNode(x, false, BALANCED), nodeOk);
      if ret == 0 {
        k' := Fork(k.l, node, Fork(Tip, node.right, Tip));
        assert IsTree(node.left, k.l);
      }
    }

    /** The right branch of `insert` where `node` has a right child. */
    method DescendRight(node: BiTreeNode<T>, x: T, avlOk: bool, nodeOk: bool, ghost k: Skeleton<T>)
        returns (ret: int, balanced: bool, ghost k': Skeleton<T>)
      requires k.Fork? && IsTree(node, k) && Avl(Model(k)) && node.right != null
      modifies this, Nodes(k)
      ensures IsTree(node, k') && fresh(Nodes(k') - Nodes(k)) && root == old(root)
      ensures var t := old(Model(k)); var o := AvlTree.Insert(t.right, x, compare, avlOk && nodeOk);
        && ret == o.ret && balanced == o.balanced && Model(k') == t.(right := o.tree) && Accounted(o)
      ensures ret != 0 ==> k' == k
      decreases k, 0
    {
      ghost var rest := Existing(Nodes(k.l));
      assert IsTree(node.right, k.r) && IsTree(node.left, k.l);
      var n;
      ghost var sub;
      ret, n, balanced, sub := InsertAt(node.right, x, avlOk, nodeOk, k.r);
      assert IsTree(node.left, k.l) && Model(k.l) == old(Model(k.l));
      assert node !in Nodes(sub) && Nodes(sub) !! Nodes(k.l);
      if ret == 0 {
        LinkRight(node, n, sub, k.l);
      }
      k' := Fork(k.l, node, sub);
    }

    method InsertRight(node: BiTreeNode<T>, x: T, avlOk: bool, nodeOk: bool, ghost k: Skeleton<T>)
        returns (ret: int, top: BiTreeNode?<T>, balanced: bool, ghost k': Skeleton<T>)
      requires k.Fork? && IsTree(node, k) && Avl(Model(k))
      modifies this, Nodes(k)
      ensures IsTree(top, k') && fresh(Nodes(k') - Nodes(k)) && root == old(root)
      ensures var t := old(Model(k)); var o := AfterRight(t, AvlTree.Insert(t.right, x, compare, avlOk && nodeOk));
        && ret == o.ret && balanced == o.balanced && Model(k') == o.tree && Accounted(o)
      ensures ret != 0 ==> top == node && k' == k
      decreases k, 1
    {
      ghost var t := Model(k);
      ghost var o := AvlTree.Insert(t.right, x, compare, avlOk && nodeOk);
      if node.right == null {
        balanced := false;
        ret, k' := PlantRight(node, x, avlOk, nodeOk, k);
      } else {
        ret, balanced, k' := DescendRight(node, x, avlOk, nodeOk, k);
      }
      top := node;
      if ret == 0 {
        top, balanced, k' := RepairRight(node, balanced, k', t, o);
      }
    }

    /** `insert`: `node` is the subtree whose pointer the caller passed, `top` what it becomes.
        `avlOk` and `nodeOk` are whether the two mallocs succeed. */
    method InsertAt(node: BiTreeNode?<T>, x: T, avlOk: bool, nodeOk: bool, ghost k: Skeleton<T>)
        returns (ret: int, top: BiTreeNode?<T>, balanced: bool, ghost k': Skeleton<T>)
      requires IsTree(node, k) && Avl(Model(k)) && (node == null ==> size == 0)
      modifies this, Nodes(k)
      ensures IsTree(top, k') && fresh(Nodes(k') - Nodes(k))
      ensures var o := AvlTree.Insert(old(Model(k)), x, compare, avlOk && nodeOk);
        && ret == o.ret && balanced == o.balanced && Model(k') == o.tree && Accounted(o)
      ensures node != null ==> root == old(root)
      ensures ret != 0 ==> root == old(root) && top == node && k' == k
      decreases k, 2
    {
      top, balanced, k' := node, false, k;
      if node == null {
        if !avlOk { return -1, top, balanced, k'; }
        ret := InsLeft(node, AvlNode(x, false, BALANCED), nodeOk);
        if ret == 0 {
          top := root;
          k' := Fork(Tip, root, Tip);
        }
      } else {
        var c := Cmp(compare, x, node.data.data);
        if c < 0 {
          ret, top, balanced, k' := InsertLeft(node, x, avlOk, nodeOk, k);
        } else if c > 0 {
          ret, top, balanced, k' := InsertRight(node, x, avlOk, nodeOk, k);
        } else if !node.data.hidden {
          ret := 1;
        } else {
          if hasDestroy {
            destroyed := destroyed + [node.data.data];
          }
          node.data := node.data.(data := x, hidden := false);
          balanced := true;
          ret := 0;
        }
      }
    }

    /** `hide`: mark the node with the key of `x`; `calls` counts comparisons. */
    method HideAt(node: BiTreeNode?<T>, x: T, ghost k: Skeleton<T>) returns (ret: int, ghost calls: nat)
      requires IsTree(node, k)
      modifies Nodes(k)
      ensures IsTree(node, k) && Model(k) == Hide(old(Model(k)), x, compare)
      ensures ret == if Find(old(Model(k)), x, compare).Absent? then -1 else 0
      ensures calls == Comparisons(old(Model(k)), x, compare)
      decreases k
    {
      if node == null { return -1, 0; }
      ghost var sl := Existing(Nodes(k.l));
      ghost var sr := Existing(Nodes(k.r));
      assert IsTree(node.left, k.l) && IsTree(node.right, k.r);
      var c := Cmp(compare, x, node.data.data);
      if c < 0 {
        ret, calls := HideAt(node.left, x, k.l);
        assert IsTree(node.right, k.r);
      } else if c > 0 {
        ret, calls := HideAt(node.right, x, k.r);
        assert IsTree(node.left, k.l);
      } else {
        node.data := node.data.(hidden := true);
        ret, calls := 0, 0;
      }
      calls := calls + 1;
    }

    /** `lookup`: the stored datum with the key of `q`, if it is not hidden. */
    method LookupAt(node: BiTreeNode?<T>, q: T, ghost k: Skeleton<T>) returns (ret: int, data: T, ghost calls: nat)
      requires IsTree(node, k)
      ensures var s := Find(Model(k), q, compare);
        ret == (if s.Live? then 0 else -1) && data == if s.Live? then s.datum else q
      ensures calls == Comparisons(Model(k), q, compare)
      decreases k
    {
      if node == null { return -1, q, 0; }
      assert IsTree(node.left, k.l) && IsTree(node.right, k.r);
      var c := Cmp(compare, q, node.data.data);
      if c < 0 {
        ret, data, calls := LookupAt(node.left, q, k.l);
      } else if c > 0 {
        ret, data, calls := LookupAt(node.right, q, k.r);
      } else if !node.data.hidden {
        ret, data, calls := 0, node.data.data, 0;
      } else {
        ret, data, calls := -1, q, 0;
      }
      calls := calls + 1;
    }

    /** `destroy_left`: empty the slot left of `node`, or the whole tree when `node` is null. */
    method DestroyLeft(node: BiTreeNode?<T>, ghost k: Skeleton<T>)
      requires IsTree(if node == null then root else node.left, k) && node !in Nodes(k)
      requires size >= Size(Model(k))
      modifies this`size, this`root, this`destroyed, Nodes(k), node
      ensures (if node == null then root else node.left) == null
      ensures node != null ==> root == old(root) && node.right == old(node.right) && node.data == old(node.data)
      ensures size == old(size) - Size(old(Model(k)))
      ensures destroyed == old(destroyed) + if hasDestroy then Postorder(old(Model(k))) else []
      decreases k
    {
      if size == 0 { return; }
      var position := if node == null then root else node.left;
      if position != null {
        DestroyBelow(position, k);
        if node == null { root := null; } else { node.left := null; }
        size := size - 1;
      }
    }

    /** `destroy_right`: the same on the right; a null `node` means the whole tree here too. */
    method DestroyRight(node: BiTreeNode?<T>, ghost k: Skeleton<T>)
      requires IsTree(if node == null then root else node.right, k) && node !in Nodes(k)
      requires size >= Size(Model(k))
      modifies this`size, this`root, this`destroyed, Nodes(k), node
      ensures (if node == null then root else node.right) == null
      ensures node != null ==> root == old(root) && node.left == old(node.left) && node.data == old(node.data)
      ensures size == old(size) - Size(old(Model(k)))
      ensures destroyed == old(destroyed) + if hasDestroy then Postorder(old(Model(k))) else []
      decreases k
    {
      if size == 0 { return; }
      var position := if node == null then root else node.right;
      if position != null {
        DestroyBelow(position, k);
        if node == null { root := null; } else { node.right := null; }
        size := size - 1;
      }
    }

    /** The part the two share: both subtrees of `position`, then its own datum. */
    method DestroyBelow(position: BiTreeNode<T>, ghost k: Skeleton<T>)
      requires k.Fork? && IsTree(position, k) && size >= Size(Model(k))
      modifies this`size, this`root, this`destroyed, Nodes(k)
      ensures root == old(root)
      ensures size == old(size) - Size(old(Model(k))) + 1
      ensures destroyed == old(destroyed) + if hasDestroy then Postorder(old(Model(k))) else []
      decreases k, 0
    {
      ghost var rest := Existing(Nodes(k.r));
      ghost var l, r, d := Postorder(Model(k.l)), Postorder(Model(k.r)), position.data.data;
      assert Postorder(Model(k)) == l + r + [d];
      assert IsTree(position.left, k.l) && IsTree(position.right, k.r);
      DestroyLeft(position, k.l);
      assert IsTree(position.right, k.r) && Model(k.r) == old(Model(k.r));
      DestroyRight(position, k.r);
      if hasDestroy {
        destroyed := destroyed + [position.data.data];
        assert destroyed == old(destroyed) + l + r + [d] == old(destroyed) + (l + r + [d]);
      }
    }

    /** The root pointer `insert` wrote through, and the call in the history. */
    method Install(top: BiTreeNode?<T>, ghost k: Skeleton<T>, ghost op: Op<T>)
      requires IsTree(top, k)
      modifies this`root, this`skeleton, this`history
      ensures root == top && skeleton == k && history == old(history) + [op]
      ensures IsTree(root, skeleton) && Model(skeleton) == old(Model(k))
    {
      root, skeleton, history := top, k, history + [op];
    }

    /** `bistree_insert`. */
    method Insert(x: T, avlOk: bool, nodeOk: bool) returns (ret: int)
      requires Valid()
      modifies this, Nodes(skeleton)
      ensures Valid() && fresh(Nodes(skeleton) - old(Nodes(skeleton)))
      ensures history == old(history) + [Put(x, avlOk && nodeOk)]
      ensures ret == Code(history, |old(history)|, compare)
    {
      ghost var o := AvlTree.Insert(Model(skeleton), x, compare, avlOk && nodeOk);
      RunGrows(history, Put(x, avlOk && nodeOk), compare);
      InsertSize(Model(skeleton), x, compare, avlOk && nodeOk);
      var top, balanced;
      ghost var k;
      ret, top, balanced, k := InsertAt(root, x, avlOk, nodeOk, skeleton);
      Install(top, k, Put(x, avlOk && nodeOk));
      assert Run(history, compare) == AvlRuns.State(o.tree, Run(old(history), compare).destroyed + o.freed);
    }

    /** `bistree_remove`; it also makes at most 2 log2(size + 1) comparisons. */
    method Remove(x: T) returns (ret: int, ghost calls: nat)
      requires Valid()
      modifies this, Nodes(skeleton)
      ensures Valid() && skeleton == old(skeleton) && size == old(size)
      ensures history == old(history) + [AvlTree.Remove(x)]
      ensures ret == Code(history, |old(history)|, compare)
      ensures WithinLog(calls, size)
    {
      SearchIsLogarithmic(history, x, compare);
      RunGrows(history, AvlTree.Remove(x), compare);
      HideKeepsShape(Model(skeleton), x, compare);
      ShapeDecides(Model(skeleton), Hide(Model(skeleton), x, compare));
      ret, calls := HideAt(root, x, skeleton);
      history := history + [AvlTree.Remove(x)];
    }

    /** `bistree_lookup`: it succeeds exactly for a key inserted and not removed since, with that
        insert's datum, and makes at most 2 log2(size + 1) comparisons. */
    method Lookup(q: T) returns (ret: int, data: T, ghost calls: nat)
      requires Valid()
      ensures ret == 0 || (ret == -1 && data == q)
      ensures var s := Find(Run(history, compare).tree, q, compare);
        ret == 0 <==> s == Live(data)
      ensures Valid() && WithinLog(calls, size)
    {
      SearchIsLogarithmic(history, q, compare);
      ghost var nodes := Existing(Nodes(skeleton));
      ret, data, calls := LookupAt(root, q, skeleton);
    }

    /** `bistree_destroy`. */
    method Destroy()
      requires Valid()
      modifies this, Nodes(skeleton)
      ensures root == null && size == 0
      ensures destroyed == if hasDestroy then Teardown(Run(old(history), compare)).destroyed else []
    {
      DestroyLeft(null, skeleton);
    }
  }

  ghost predicate IsLeaf<T>(n: BiTreeNode<T>, data: AvlNode<T>)
    reads n
  {
    n.data == data && n.left == null && n.right == null
  }
}
