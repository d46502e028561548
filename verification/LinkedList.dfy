/** The singly linked list with a tail pointer, and the queue built on it. */
module LinkedList {
  import opened Allocation
  import opened Options

  class ListElmt<T> {
    var data: T
    var next: ListElmt?<T>

    constructor (data: T)
      ensures this.data == data && next == null
    {
      this.data, next := data, null;
    }
  }

  /** Which element follows which: the ghost shape of a list. */
  datatype Chain<T> = End | Link(node: ListElmt<T>, rest: Chain<T>)

  ghost function Nodes<T>(k: Chain<T>): set<ListElmt<T>> {
    match k
    case End => {}
    case Link(n, r) => {n} + Nodes(r)
  }

  ghost predicate Distinct<T>(k: Chain<T>) {
    k.Link? ==> k.node !in Nodes(k.rest) && Distinct(k.rest)
  }

  ghost function Length<T>(k: Chain<T>): nat {
    match k
    case End => 0
    case Link(_, r) => 1 + Length(r)
  }

  ghost function Append<T>(a: Chain<T>, b: Chain<T>): Chain<T> {
    match a
    case End => b
    case Link(n, r) => Link(n, Append(r, b))
  }

  ghost function First<T>(k: Chain<T>, after: ListElmt?<T>): ListElmt?<T> {
    if k.End? then after else k.node
  }

  ghost function Last<T>(k: Chain<T>): (n: ListElmt?<T>)
    ensures k.Link? ==> n != null
  {
    match k
    case End => null
    case Link(n, r) => if r.End? then n else Last(r)
  }

  /** Following `next` from `n` walks exactly `k` and arrives at `m`. */
  ghost predicate Walks<T>(n: ListElmt?<T>, k: Chain<T>, m: ListElmt?<T>)
    reads Nodes(k)
  {
    match k
    case End => n == m
    case Link(o, r) => n == o && Walks(o.next, r, m)
  }

  ghost function Values<T>(k: Chain<T>): seq<T>
    reads Nodes(k)
  {
    match k
    case End => []
    case Link(n, r) => [n.data] + Values(r)
  }

  lemma {:induction false} AppendFacts<T>(a: Chain<T>, b: Chain<T>)
    ensures Nodes(Append(a, b)) == Nodes(a) + Nodes(b) && Length(Append(a, b)) == Length(a) + Length(b)
    ensures Distinct(Append(a, b)) <==> Distinct(a) && Distinct(b) && Nodes(a) !! Nodes(b)
    ensures b.Link? ==> Last(Append(a, b)) == Last(b)
  {
    if a.Link? { AppendFacts(a.rest, b); }
  }

  lemma {:induction false} AppendWalks<T>(n: ListElmt?<T>, a: Chain<T>, b: Chain<T>, m: ListElmt?<T>)
    ensures Walks(n, Append(a, b), m) <==> Walks(n, a, First(b, m)) && Walks(First(b, m), b, m)
    ensures Values(Append(a, b)) == Values(a) + Values(b)
    decreases a
  {
    if a.Link? { AppendWalks(a.node.next, a.rest, b, m); }
  }

  /** `n` goes in behind `e`. */
  method LinkBehind<T>(e: ListElmt<T>, n: ListElmt<T>, head: ListElmt?<T>, ghost a: Chain<T>, ghost b: Chain<T>)
    requires Walks(head, Append(a, Link(e, b)), null) && Distinct(Append(a, Link(e, b)))
    requires n !in Nodes(Append(a, Link(e, b)))
    modifies e, n
    ensures var k := Append(a, Link(e, Link(n, b)));
      Walks(head, k, null) && Distinct(k) && Values(k) == old(Values(a)) + [old(e.data), old(n.data)] + old(Values(b))
    ensures e.next == n && n.next == old(e.next)
  {
    AppendFacts(a, Link(e, b));
    AppendWalks(head, a, Link(e, b), null);
    n.next := e.next;
    e.next := n;
    assert Walks(n, Link(n, b), null) && Walks(head, a, e);
    assert Walks(e, Link(e, Link(n, b)), null) && Values(Link(e, Link(n, b))) == [e.data, n.data] + Values(b);
    AppendFacts(a, Link(e, Link(n, b)));
    AppendWalks(head, a, Link(e, Link(n, b)), null);
  }

  /** The element behind `e` comes out. */
  method UnlinkBehind<T>(e: ListElmt<T>, head: ListElmt?<T>, ghost a: Chain<T>, ghost x: ListElmt<T>, ghost b: Chain<T>)
    requires Walks(head, Append(a, Link(e, Link(x, b))), null) && Distinct(Append(a, Link(e, Link(x, b))))
    modifies e
    ensures var k := Append(a, Link(e, b));
      Walks(head, k, null) && Distinct(k) && Values(k) == old(Values(a)) + [old(e.data)] + old(Values(b))
    ensures e.next == First(b, null)
  {
    AppendFacts(a, Link(e, Link(x, b)));
    AppendWalks(head, a, Link(e, Link(x, b)), null);
    e.next := e.next.next;
    assert Walks(e, Link(e, b), null) && Walks(head, a, e);
    AppendFacts(a, Link(e, b));
    AppendWalks(head, a, Link(e, b), null);
  }

  /** `k` without its last link. */
  ghost function Front<T>(k: Chain<T>): (a: Chain<T>)
    requires k.Link?
    ensures k == Append(a, Link(Last(k), End))
  {
    if k.rest.End? then End else Link(k.node, Front(k.rest))
  }

  /** A callback log after further calls, if there is a callback. */
  ghost function Logged<T>(log: seq<T>, more: seq<T>, on: bool): seq<T> {
    if on then log + more else log
  }

  /** `destroyed` logs the calls of the destroy callback, if there is one. */
  class List<T> {
    const hasDestroy: bool
    var size: int
    var head: ListElmt?<T>
    var tail: ListElmt?<T>
    var destroyed: seq<T>
    ghost var chain: Chain<T>

    ghost predicate Valid()
      reads this, Nodes(chain)
    {
      && Walks(head, chain, null) && Distinct(chain)
      && size == Length(chain) && tail == Last(chain)
    }

    ghost function Contents(): seq<T>
      reads this, Nodes(chain)
    {
      Values(chain)
    }

    constructor (hasDestroy: bool)
      ensures Valid() && chain == End && destroyed == [] && this.hasDestroy == hasDestroy
    {
      size, head, tail, destroyed, chain := 0, null, null, [], End;
      this.hasDestroy := hasDestroy;
    }

    /** `list_ins_next` in front; `ok` is whether malloc succeeds. */
    method InsFront(data: T, ok: bool) returns (ret: int)
      requires Valid()
      modifies this
      ensures Valid() && ret == (if ok then 0 else -1) && destroyed == old(destroyed)
      ensures if ok then chain.Link? && fresh(chain.node) && chain.rest == old(chain) else chain == old(chain)
      ensures Contents() == (if ok then [data] else []) + old(Contents())
    {
      if !ok { return -1; }
      ghost var s := Existing(Nodes(chain));
      var n := new ListElmt(data);
      if size == 0 { tail := n; }
      n.next := head;
      head := n;
      chain := Link(n, chain);
      size := size + 1;
      return 0;
    }

    /** The pointer, tail and size writes of `list_ins_next` behind `element`. */
    method PutBehind(element: ListElmt<T>, n: ListElmt<T>, ghost a: Chain<T>, ghost b: Chain<T>)
      requires Valid() && chain == Append(a, Link(element, b)) && n !in Nodes(chain)
      modifies this, element, n
      ensures Valid() && destroyed == old(destroyed) && chain == Append(a, Link(element, Link(n, b)))
      ensures Contents() == old(Values(a)) + [old(element.data), old(n.data)] + old(Values(b))
    {
      AppendFacts(a, Link(element, b));
      AppendWalks(head, a, Link(element, b), null);
      LinkBehind(element, n, head, a, b);
      if n.next == null { tail := n; }
      chain := Append(a, Link(element, Link(n, b)));
      size := size + 1;
      AppendFacts(a, Link(element, Link(n, b)));
    }

    /** `list_ins_next` behind `element`, which stands between `a` and `b`. */
    method InsNext(element: ListElmt<T>, data: T, ok: bool, ghost a: Chain<T>, ghost b: Chain<T>)
        returns (ret: int, ghost added: ListElmt?<T>)
      requires Valid() && chain == Append(a, Link(element, b))
      modifies this, element
      ensures Valid() && ret == (if ok then 0 else -1) && destroyed == old(destroyed)
      ensures ok ==> added != null && fresh(added) && chain == Append(a, Link(element, Link(added, b)))
      ensures ok ==> Contents() == old(Values(a)) + [old(element.data), data] + old(Values(b))
      ensures !ok ==> chain == old(chain) && Contents() == old(Contents())
    {
      if !ok { return -1, null; }
      ghost var s := Existing(Nodes(chain));
      AppendFacts(a, Link(element, b));
      var n := new ListElmt(data);
      PutBehind(element, n, a, b);
      return 0, n;
    }

    /** `list_rem_next` in front. */
    method RemFront() returns (ret: int, data: Option<T>)
      requires Valid()
      modifies this
      ensures Valid() && destroyed == old(destroyed) && ret == if old(chain).Link? then 0 else -1
      ensures ret == 0 ==> data.Some? && chain == old(chain).rest && [data.value] + Contents() == old(Contents())
      ensures ret != 0 ==> data == None && chain == End
    {
      if size == 0 { return -1, None; }
      data := Some(head.data);
      head := head.next;
      if size == 1 { tail := null; }
      chain := chain.rest;
      size := size - 1;
      ret := 0;
    }

    /** `list_rem_next` behind `element`, which stands between `a` and `b`. */
    method RemNext(element: ListElmt<T>, ghost a: Chain<T>, ghost b: Chain<T>) returns (ret: int, data: Option<T>)
      requires Valid() && chain == Append(a, Link(element, b))
      modifies this, element
      ensures Valid() && destroyed == old(destroyed) && ret == if b.Link? then 0 else -1
      ensures ret == 0 ==> data == Some(old(b.node.data)) && chain == Append(a, Link(element, b.rest))
      ensures ret == 0 ==> Contents() == old(Values(a)) + [old(element.data)] + old(Values(b.rest))
      ensures ret != 0 ==> data == None && chain == old(chain) && Contents() == old(Contents())
    {
      AppendFacts(a, Link(element, b));
      AppendWalks(head, a, Link(element, b), null);
      if element.next == null { return -1, None; }
      data := Some(element.next.data);
      UnlinkBehind(element, head, a, b.node, b.rest);
      if element.next == null { tail := element; }
      chain := Append(a, Link(element, b.rest));
      size := size - 1;
      AppendFacts(a, Link(element, b.rest));
      ret := 0;
    }

    /** `list_destroy`: remove and destroy from the front until nothing is left. */
    method DestroyAll()
      requires Valid()
      modifies this
      ensures Valid() && chain == End && size == 0
      ensures destroyed == Logged(old(destroyed), old(Contents()), hasDestroy)
    {
      while size > 0
        invariant Valid()
        invariant Logged(destroyed, Contents(), hasDestroy) == Logged(old(destroyed), old(Contents()), hasDestroy)
        decreases size
      {
        ghost var log, all := destroyed, Contents();
        var ret, x := RemFront();
        if ret == 0 && hasDestroy {
          destroyed := destroyed + [x.value];
          assert log + ([x.value] + Contents()) == destroyed + Contents();
        }
      }
    }

    /** `queue_enqueue`: behind the tail, or in front of an empty list. */
    method Enqueue(data: T, ok: bool) returns (ret: int)
      requires Valid()
      modifies this, Nodes(chain)
      ensures Valid() && ret == (if ok then 0 else -1) && destroyed == old(destroyed)
      ensures fresh(Nodes(chain) - old(Nodes(chain)))
      ensures Contents() == old(Contents()) + if ok then [data] else []
    {
      if tail == null {
        assert chain == End;
        ret := InsFront(data, ok);
      } else {
        ghost var a := Front(chain);
        AppendFacts(a, Link(tail, End));
        AppendWalks(head, a, Link(tail, End), null);
        ghost var v, d, e := Values(a), tail.data, tail;
        assert Contents() == v + [d];
        ghost var added;
        ret, added := InsNext(tail, data, ok, a, End);
        if ok { AppendFacts(a, Link(e, Link(added, End))); }
        assert v + [d, data] + [] == v + [d] + [data];
      }
    }

    /** `queue_dequeue`: from the head. */
    method Dequeue() returns (ret: int, data: Option<T>)
      requires Valid()
      modifies this
      ensures Valid() && destroyed == old(destroyed) && (ret == 0 <==> old(Contents()) != [])
      ensures Nodes(chain) <= old(Nodes(chain))
      ensures ret == 0 ==> data.Some? && [data.value] + Contents() == old(Contents())
      ensures ret != 0 ==> data == None && Contents() == []
    {
      ret, data := RemFront();
    }

    /** `queue_peek`. */
    method Peek() returns (data: Option<T>)
      requires Valid()
      ensures Valid() && data == if Contents() == [] then None else Some(Contents()[0])
    {
      assert Walks(head, chain, null);
      assert Values(chain) == if chain.End? then [] else [chain.node.data] + Values(chain.rest);
      assert chain.End? <==> head == null;
      data := if head == null then None else Some(head.data);
    }
  }
}
