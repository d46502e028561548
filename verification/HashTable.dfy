/** The chained hash table: an index over buckets that must agree with a plain map. */
module HashTable {
  import opened Allocation
  import opened LinkedList
  import opened Options

  /** One call of the hash and of the match callback; heap-independent names for them. */
  function Hash<T>(h: T -> int, x: T): int {
    h(x)
  }

  function Match<T>(m: (T, T) -> bool, a: T, b: T): bool {
    m(a, b)
  }

  /** What the table needs of its callbacks. */
  ghost predicate Lawful<T(!new)>(h: T -> int, m: (T, T) -> bool) {
    && (forall x :: Hash(h, x) >= 0)
    && (forall x :: Match(m, x, x))
    && (forall a, b :: Match(m, a, b) ==> Match(m, b, a) && Hash(h, a) == Hash(h, b))
    && (forall a, b, c {:trigger Match(m, a, b), Match(m, b, c)} :: Match(m, a, b) && Match(m, b, c) ==> Match(m, a, c))
  }

  /** The first element of a bucket that matches `q`. */
  function FirstMatch<T>(es: seq<T>, q: T, m: (T, T) -> bool): Option<T> {
    if es == [] then None
    else if Match(m, q, es[0]) then Some(es[0])
    else FirstMatch(es[1..], q, m)
  }

  /** A bucket without the first element that matches `q`. */
  function Dropped<T>(es: seq<T>, q: T, m: (T, T) -> bool): seq<T> {
    if es == [] then []
    else if Match(m, q, es[0]) then es[1..]
    else [es[0]] + Dropped(es[1..], q, m)
  }

  /** No two elements of a bucket match. */
  ghost predicate Apart<T>(es: seq<T>, m: (T, T) -> bool) {
    forall i, j :: 0 <= i < j < |es| ==> !Match(m, es[i], es[j])
  }

  function Total<T>(t: seq<seq<T>>): nat {
    if t == [] then 0 else Total(t[..|t| - 1]) + |t[|t| - 1]|
  }

  function Bucket<T>(h: T -> int, x: T, n: nat): int
    requires n > 0
  {
    Hash(h, x) % n
  }

  /** What the table answers for `q`. */
  function Get<T>(t: seq<seq<T>>, q: T, h: T -> int, m: (T, T) -> bool): Option<T>
    requires t != []
  {
    FirstMatch(t[Bucket(h, q, |t|)], q, m)
  }

  /** Every element sits in its own bucket, and no two elements match. */
  ghost predicate Placed<T>(t: seq<seq<T>>, h: T -> int, m: (T, T) -> bool) {
    && t != []
    && (forall i :: 0 <= i < |t| ==> Apart(t[i], m))
    && (forall i, k :: 0 <= i < |t| && 0 <= k < |t[i]| ==> Bucket(h, t[i][k], |t|) == i)
  }

  lemma {:induction false} FirstMatchFinds<T(!new)>(es: seq<T>, q: T, m: (T, T) -> bool)
    ensures FirstMatch(es, q, m).Some? <==> exists i :: 0 <= i < |es| && Match(m, q, es[i])
    ensures FirstMatch(es, q, m).Some? ==> FirstMatch(es, q, m).value in es && Match(m, q, FirstMatch(es, q, m).value)
  {
    if es != [] && !Match(m, q, es[0]) {
      FirstMatchFinds(es[1..], q, m);
      if i :| 0 <= i < |es| && Match(m, q, es[i]) { assert es[1..][i - 1] == es[i]; }
      if i :| 0 <= i < |es[1..]| && Match(m, q, es[1..][i]) { assert es[i + 1] == es[1..][i]; }
    }
  }

  /** In the whole table an element answers a query if and only if it matches it: no two
      elements of the table match, wherever they sit. */
  lemma GetIffStored<T(!new)>(t: seq<seq<T>>, q: T, e: T, h: T -> int, m: (T, T) -> bool)
    requires Lawful(h, m) && Placed(t, h, m)
    ensures Get(t, q, h, m) == Some(e) <==> (exists i :: 0 <= i < |t| && e in t[i]) && Match(m, q, e)
  {
    var b := Bucket(h, q, |t|);
    FirstMatchFinds(t[b], q, m);
    if i :| 0 <= i < |t| && e in t[i] && Match(m, q, e) {
      var k :| 0 <= k < |t[i]| && t[i][k] == e;
      assert Bucket(h, t[i][k], |t|) == i == b;
      var f := FirstMatch(t[b], q, m).value;
      var l :| 0 <= l < |t[b]| && t[b][l] == f;
      assert Match(m, f, q) && Match(m, f, e) && Match(m, e, f);
      assert Apart(t[b], m);
    }
  }

  lemma {:induction false} DroppedLength<T>(es: seq<T>, x: T, m: (T, T) -> bool)
    ensures |Dropped(es, x, m)| == |es| - if FirstMatch(es, x, m).Some? then 1 else 0
  {
    if es != [] { DroppedLength(es[1..], x, m); }
  }

  /** `Dropped` takes out the place of the first match, if any. */
  lemma {:induction false} DroppedPlace<T>(es: seq<T>, x: T, m: (T, T) -> bool) returns (k: nat)
    ensures k <= |es| && forall i :: 0 <= i < k ==> !Match(m, x, es[i])
    ensures if k < |es| then Match(m, x, es[k]) && Dropped(es, x, m) == es[..k] + es[k + 1..]
            else Dropped(es, x, m) == es
  {
    k := 0;
    if es != [] && !Match(m, x, es[0]) {
      var t := es[1..];
      var j := DroppedPlace(t, x, m);
      k := j + 1;
      assert forall i :: 0 <= i < |t| ==> t[i] == es[i + 1];
      if j < |t| {
        assert [es[0]] + (t[..j] + t[j + 1..]) == es[..k] + es[k + 1..];
      } else {
        assert [es[0]] + t == es;
      }
    }
  }

  lemma DroppedApart<T>(es: seq<T>, x: T, m: (T, T) -> bool)
    requires Apart(es, m)
    ensures Apart(Dropped(es, x, m), m)
    ensures forall e :: e in Dropped(es, x, m) ==> e in es
  {
    var k := DroppedPlace(es, x, m);
    var d := Dropped(es, x, m);
    assert forall i :: 0 <= i < |d| ==> d[i] == es[if i < k then i else i + 1];
  }

  lemma {:induction false} FirstMatchSplit<T>(a: seq<T>, b: seq<T>, q: T, m: (T, T) -> bool)
    ensures FirstMatch(a + b, q, m) ==
            if FirstMatch(a, q, m).Some? then FirstMatch(a, q, m) else FirstMatch(b, q, m)
  {
    if a == [] {
      assert a + b == b;
    } else {
      assert (a + b)[1..] == a[1..] + b;
      FirstMatchSplit(a[1..], b, q, m);
    }
  }

  lemma {:induction false} FirstMatchNone<T>(es: seq<T>, q: T, m: (T, T) -> bool)
    requires forall i :: 0 <= i < |es| ==> !Match(m, q, es[i])
    ensures FirstMatch(es, q, m) == None
  {
    if es != [] { FirstMatchNone(es[1..], q, m); }
  }

  /** Of elements apart from one another, only one matches a key. */
  lemma OnlyMatch<T(!new)>(es: seq<T>, k: nat, q: T, h: T -> int, m: (T, T) -> bool, i: nat)
    requires Lawful(h, m) && Apart(es, m) && k < |es| && i < |es| && i != k && Match(m, q, es[k])
    ensures !Match(m, q, es[i])
  {
    assert Match(m, es[k], q);
    if i < k {
      assert !Match(m, es[i], es[k]);
    } else {
      assert !Match(m, es[k], es[i]);
    }
  }

  /** Dropping the match of `x` frees that key and no other. */
  lemma DroppedFinds<T(!new)>(es: seq<T>, x: T, q: T, h: T -> int, m: (T, T) -> bool)
    requires Lawful(h, m) && Apart(es, m)
    ensures FirstMatch(Dropped(es, x, m), q, m) == if Match(m, q, x) then None else FirstMatch(es, q, m)
  {
    var k := DroppedPlace(es, x, m);
    if k == |es| {
      if Match(m, q, x) {
        forall i | 0 <= i < |es| ensures !Match(m, q, es[i]) { assert Match(m, x, q); }
        FirstMatchNone(es, q, m);
      }
    } else if Match(m, q, x) {
      forall i: nat | i < |es| && i != k ensures !Match(m, q, es[i]) { OnlyMatch(es, k, q, h, m, i); }
      FirstMatchNone(es[..k] + es[k + 1..], q, m);
    } else {
      assert Match(m, es[k], x);
      assert !Match(m, q, es[k]);
      assert es == es[..k] + es[k..] && es[k..][1..] == es[k + 1..];
      FirstMatchSplit(es[..k], es[k..], q, m);
      FirstMatchSplit(es[..k], es[k + 1..], q, m);
    }
  }

  lemma {:induction false} TotalUpdate<T>(t: seq<seq<T>>, b: nat, es: seq<T>)
    requires b < |t|
    ensures Total(t[b := es]) == Total(t) - |t[b]| + |es|
  {
    var n := |t| - 1;
    if b < n {
      TotalUpdate(t[..n], b, es);
      assert t[b := es][..n] == t[..n][b := es];
    } else {
      assert t[b := es][..n] == t[..n];
    }
  }

  /** What an insert puts in front of its bucket; `ok` is whether malloc succeeds. */
  function Ahead<T>(x: T, ok: bool): seq<T> {
    if ok then [x] else []
  }

  function Pushed<T>(t: seq<seq<T>>, b: nat, x: T, ok: bool): seq<seq<T>>
    requires b < |t|
  {
    t[b := Ahead(x, ok) + t[b]]
  }

  /** `chtbl_insert` where nothing matches: in front of its bucket. */
  function Inserted<T>(t: seq<seq<T>>, x: T, h: T -> int): seq<seq<T>>
    requires t != []
  {
    var b := Bucket(h, x, |t|);
    t[b := [x] + t[b]]
  }

  /** `chtbl_remove`: the match leaves its bucket. */
  function Removed<T>(t: seq<seq<T>>, x: T, h: T -> int, m: (T, T) -> bool): seq<seq<T>>
    requires t != []
  {
    var b := Bucket(h, x, |t|);
    t[b := Dropped(t[b], x, m)]
  }

  /** Inserting binds the key of `x` and no other, and keeps everything in place. */
  lemma InsertRefines<T(!new)>(t: seq<seq<T>>, x: T, q: T, h: T -> int, m: (T, T) -> bool)
    requires Lawful(h, m) && Placed(t, h, m) && Get(t, x, h, m).None?
    ensures var u := Inserted(t, x, h);
      && Placed(u, h, m) && Total(u) == Total(t) + 1
      && Get(u, q, h, m) == if Match(m, q, x) then Some(x) else Get(t, q, h, m)
  {
    var b, u := Bucket(h, x, |t|), Inserted(t, x, h);
    TotalUpdate(t, b, [x] + t[b]);
    FirstMatchFinds(t[b], x, m);
    assert u[b][1..] == t[b];
    assert Apart(t[b], m);
    assert Apart(u[b], m) by {
      forall i, j | 0 <= i < j < |u[b]| ensures !Match(m, u[b][i], u[b][j]) {
        if i > 0 { assert u[b][i] == t[b][i - 1]; }
        assert u[b][j] == t[b][j - 1];
      }
    }
    forall i, k | 0 <= i < |u| && 0 <= k < |u[i]| ensures Bucket(h, u[i][k], |u|) == i {
      if i == b && k > 0 { assert u[i][k] == t[b][k - 1]; }
    }
  }

  /** Removing frees the key of `x` and no other. */
  lemma RemoveRefines<T(!new)>(t: seq<seq<T>>, x: T, q: T, h: T -> int, m: (T, T) -> bool)
    requires Lawful(h, m) && Placed(t, h, m)
    ensures var u := Removed(t, x, h, m);
      && Placed(u, h, m) && Total(u) == Total(t) - (if Get(t, x, h, m).Some? then 1 else 0)
      && Get(u, q, h, m) == if Match(m, q, x) then None else Get(t, q, h, m)
  {
    var b, u := Bucket(h, x, |t|), Removed(t, x, h, m);
    assert Apart(t[b], m);
    DroppedFinds(t[b], x, q, h, m);
    DroppedApart(t[b], x, m);
    DroppedLength(t[b], x, m);
    TotalUpdate(t, b, Dropped(t[b], x, m));
    forall i, k | 0 <= i < |u| && 0 <= k < |u[i]| ensures Bucket(h, u[i][k], |u|) == i {
      if i == b {
        assert u[b][k] in t[b];
        var l :| 0 <= l < |t[b]| && t[b][l] == u[b][k];
      }
    }
  }

  // ---------------------------------------------------------------------- whole runs

  datatype Op<T> = Put(x: T, ok: bool) | Del(x: T)

  function EmptyRows<T>(n: nat): (t: seq<seq<T>>)
    ensures |t| == n
  {
    if n == 0 then [] else EmptyRows<T>(n - 1) + [[]]
  }

  /** The table after a run of calls. */
  function Run<T>(ops: seq<Op<T>>, n: nat, h: T -> int, m: (T, T) -> bool): (t: seq<seq<T>>)
    requires n > 0
    ensures |t| == n
  {
    if ops == [] then EmptyRows(n)
    else
      var t, op := Run(ops[..|ops| - 1], n, h, m), ops[|ops| - 1];
      if op.Del? then Removed(t, op.x, h, m)
      else if op.ok && Get(t, op.x, h, m).None? then Inserted(t, op.x, h)
      else t
  }

  /** The map those calls build, read off the calls alone. */
  ghost function Binding<T>(ops: seq<Op<T>>, q: T, m: (T, T) -> bool): Option<T> {
    if ops == [] then None
    else
      var prev, op := Binding(ops[..|ops| - 1], q, m), ops[|ops| - 1];
      if !Match(m, q, op.x) then prev
      else if op.Del? then None
      else if op.ok && prev.None? then Some(op.x) else prev
  }

  lemma {:induction false} EmptyAt<T>(n: nat, i: nat)
    requires i < n
    ensures EmptyRows<T>(n)[i] == []
  {
    if i < n - 1 { EmptyAt<T>(n - 1, i); }
  }

  lemma EmptyTable<T(!new)>(n: nat, h: T -> int, m: (T, T) -> bool, q: T)
    requires n > 0
    ensures var t := Run<T>([], n, h, m); Placed(t, h, m) && Get(t, q, h, m) == None
  {
    forall i: nat | i < n ensures EmptyRows<T>(n)[i] == [] { EmptyAt<T>(n, i); }
  }

  lemma {:induction false} SameBinding<T(!new)>(ops: seq<Op<T>>, q: T, x: T, h: T -> int, m: (T, T) -> bool)
    requires Lawful(h, m) && Match(m, q, x)
    ensures Binding(ops, q, m) == Binding(ops, x, m)
  {
    if ops != [] {
      SameBinding(ops[..|ops| - 1], q, x, h, m);
      var y := ops[|ops| - 1].x;
      assert Match(m, x, q) && (Match(m, q, y) <==> Match(m, x, y));
    }
  }

  /** After any run every element sits in the bucket of its hash, modulo the number of buckets. */
  lemma StoredByHash<T(!new)>(ops: seq<Op<T>>, n: nat, h: T -> int, m: (T, T) -> bool, i: nat, x: T)
    requires n > 0 && Lawful(h, m) && i < n && x in Run(ops, n, h, m)[i]
    ensures h(x) % n == i
  {
    var t := Run(ops, n, h, m);
    RunRefinesMap(ops, n, h, m, x);
    var k :| 0 <= k < |t[i]| && t[i][k] == x;
    assert Bucket(h, t[i][k], |t|) == i;
  }

  /** After any run the table is well placed and answers every query as the map does. */
  lemma {:induction false} RunRefinesMap<T(!new)>(ops: seq<Op<T>>, n: nat, h: T -> int, m: (T, T) -> bool, q: T)
    requires n > 0 && Lawful(h, m)
    ensures Placed(Run(ops, n, h, m), h, m)
    ensures Get(Run(ops, n, h, m), q, h, m) == Binding(ops, q, m)
  {
    if ops == [] {
      EmptyTable(n, h, m, q);
    } else {
      var pre, op := ops[..|ops| - 1], ops[|ops| - 1];
      var t := Run(pre, n, h, m);
      RunRefinesMap(pre, n, h, m, q);
      if op.Del? {
        RemoveRefines(t, op.x, q, h, m);
      } else {
        RunRefinesMap(pre, n, h, m, op.x);
        if Match(m, q, op.x) { SameBinding(pre, q, op.x, h, m); }
        if op.ok && Get(t, op.x, h, m).None? { InsertRefines(t, op.x, q, h, m); }
      }
    }
  }

  // ------------------------------------------------------- one bucket, a linked list

  /** Walk a bucket for the first match. */
  method FindIn<T>(l: List<T>, q: T, m: (T, T) -> bool) returns (found: Option<T>)
    requires l.Valid()
    ensures found == FirstMatch(l.Contents(), q, m)
  {
    var element := l.head;
    ghost var rest := l.chain;
    while element != null
      invariant Walks(element, rest, null) && FirstMatch(Values(rest), q, m) == FirstMatch(l.Contents(), q, m)
      decreases rest
    {
      assert Values(rest) == [element.data] + Values(rest.rest) && Values(rest)[1..] == Values(rest.rest);
      if Match(m, q, element.data) { return Some(element.data); }
      element := element.next;
      rest := rest.rest;
    }
    return None;
  }

  lemma {:induction false} AppendAssoc<T>(a: Chain<T>, b: Chain<T>, c: Chain<T>)
    ensures Append(Append(a, b), c) == Append(a, Append(b, c))
  {
    if a.Link? { AppendAssoc(a.rest, b, c); }
  }

  lemma {:induction false} LastAppend<T>(a: Chain<T>, n: ListElmt<T>)
    ensures Last(Append(a, Link(n, End))) == n && Append(a, Link(n, End)).Link?
  {
    if a.Link? { LastAppend(a.rest, n); }
  }

  lemma SeekStep<T>(all: seq<T>, va: seq<T>, d: T, vr: seq<T>, x: T, m: (T, T) -> bool)
    requires !Match(m, x, d) && Dropped(all, x, m) == va + Dropped([d] + vr, x, m)
    ensures FirstMatch([d] + vr, x, m) == FirstMatch(vr, x, m)
    ensures Dropped(all, x, m) == (va + [d]) + Dropped(vr, x, m)
  {
    assert ([d] + vr)[1..] == vr;
    assert va + ([d] + Dropped(vr, x, m)) == (va + [d]) + Dropped(vr, x, m);
  }

  /** One element further along the chain. */
  lemma StepAlong<T>(a: Chain<T>, e: ListElmt<T>, rest: Chain<T>)
    ensures Append(Append(a, Link(e, End)), rest) == Append(a, Link(e, rest))
    ensures Last(Append(a, Link(e, End))) == e && Values(Append(a, Link(e, End))) == Values(a) + [e.data]
  {
    AppendAssoc(a, Link(e, End), rest);
    LastAppend(a, e);
    AppendWalks(null, a, Link(e, End), null);
  }

  /** The loop of `chtbl_remove`: `element` is the first match, behind `prev`, in the list `a`, `rest`. */
  method Seek<T>(l: List<T>, x: T, m: (T, T) -> bool)
      returns (element: ListElmt?<T>, prev: ListElmt?<T>, ghost a: Chain<T>, ghost rest: Chain<T>)
    requires l.Valid()
    ensures l.chain == Append(a, rest) && Walks(element, rest, null) && prev == Last(a)
    ensures FirstMatch(l.Contents(), x, m) == (if element == null then None else Some(element.data))
    ensures Dropped(l.Contents(), x, m) == Values(a) + (if rest.Link? then Values(rest.rest) else [])
  {
    element, prev, a, rest := l.head, null, End, l.chain;
    ghost var all := l.Contents();
    assert [] + Dropped(all, x, m) == Dropped(all, x, m);
    while element != null && !Match(m, x, element.data)
      invariant l.chain == Append(a, rest) && Walks(element, rest, null) && prev == Last(a)
      invariant all == l.Contents() && FirstMatch(Values(rest), x, m) == FirstMatch(all, x, m)
      invariant Dropped(all, x, m) == Values(a) + Dropped(Values(rest), x, m)
      decreases rest
    {
      assert Values(rest) == [element.data] + Values(rest.rest) && rest == Link(element, rest.rest);
      SeekStep(all, Values(a), element.data, Values(rest.rest), x, m);
      StepAlong(a, element, rest.rest);
      a, prev := Append(a, Link(element, End)), element;
      element, rest := element.next, rest.rest;
    }
    if element == null {
      assert rest == End && Values(rest) == [];
    } else {
      assert Values(rest) == [element.data] + Values(rest.rest) && Values(rest)[1..] == Values(rest.rest);
      assert FirstMatch(Values(rest), x, m) == Some(element.data);
      assert Dropped(Values(rest), x, m) == Values(rest.rest);
    }
  }

  /** The first match leaves its bucket. */
  method DropFrom<T>(l: List<T>, x: T, m: (T, T) -> bool) returns (data: Option<T>)
    requires l.Valid()
    modifies l, Nodes(l.chain)
    ensures l.Valid() && Nodes(l.chain) <= old(Nodes(l.chain)) && l.destroyed == old(l.destroyed)
    ensures data == FirstMatch(old(l.Contents()), x, m)
    ensures l.Contents() == Dropped(old(l.Contents()), x, m)
  {
    ghost var a, rest;
    ghost var nodes := Existing(Nodes(l.chain));
    var element, prev;
    element, prev, a, rest := Seek(l, x, m);
    if element == null {
      assert rest == End;
      AppendEnd(a);
      assert Values(a) + [] == Values(a);
      return None;
    }
    assert rest.Link? && rest.node == element;
    AppendFacts(a, rest);
    LastIn(a);
    if prev == null {
      data := DropFirst(l, a, rest);
    } else {
      data := DropBehind(l, prev, a, rest);
    }
  }

  method DropFirst<T>(l: List<T>, ghost a: Chain<T>, ghost rest: Chain<T>) returns (data: Option<T>)
    requires l.Valid() && l.chain == Append(a, rest) && rest.Link? && Last(a) == null
    modifies l
    ensures l.Valid() && Nodes(l.chain) <= old(Nodes(l.chain)) && l.destroyed == old(l.destroyed)
    ensures data == Some(old(rest.node.data)) && l.Contents() == old(Values(a)) + old(Values(rest.rest))
  {
    assert a == End;
    ghost var all, vr := l.Contents(), Values(rest.rest);
    assert all == [rest.node.data] + vr && all[1..] == vr;
    var ret;
    ret, data := l.RemFront();
    assert ([data.value] + l.Contents())[1..] == l.Contents() && all[0] == data.value;
    assert [] + vr == vr;
  }

  method DropBehind<T>(l: List<T>, prev: ListElmt<T>, ghost a: Chain<T>, ghost rest: Chain<T>) returns (data: Option<T>)
    requires l.Valid() && l.chain == Append(a, rest) && rest.Link? && Last(a) == prev
    modifies l, prev
    ensures l.Valid() && Nodes(l.chain) <= old(Nodes(l.chain)) && l.destroyed == old(l.destroyed)
    ensures data == Some(old(rest.node.data)) && l.Contents() == old(Values(a)) + old(Values(rest.rest))
  {
    ghost var f := Front(a);
    StepAlong(f, prev, rest);
    AppendFacts(f, Link(prev, rest));
    AppendFacts(f, Link(prev, rest.rest));
    var ret;
    ret, data := l.RemNext(prev, f, rest);
  }

  lemma {:induction false} LastIn<T>(a: Chain<T>)
    ensures Last(a) != null ==> Last(a) in Nodes(a)
  {
    if a.Link? { LastIn(a.rest); }
  }

  lemma {:induction false} AppendEnd<T>(a: Chain<T>)
    ensures Append(a, End) == a
  {
    if a.Link? { AppendEnd(a.rest); }
  }

  // ------------------------------------------------------------- all buckets together

  /** A list object and its ghost shape. */
  datatype Held<T> = Held(l: List<T>, k: Chain<T>)

  /** The list objects and their elements. */
  ghost function Foot<T>(hs: seq<Held<T>>): set<object> {
    if hs == [] then {} else Foot(hs[..|hs| - 1]) + {hs[|hs| - 1].l} + Nodes(hs[|hs| - 1].k)
  }

  ghost predicate Holds<T>(e: Held<T>)
    reads e.l, Nodes(e.k)
  {
    e.l.chain == e.k && e.l.Valid()
  }

  ghost function Own<T>(e: Held<T>): set<object> {
    {e.l} + Nodes(e.k)
  }

  /** Lists in order that share nothing. */
  ghost predicate Separate<T>(hs: seq<Held<T>>)
    reads Foot(hs)
  {
    hs != [] ==>
      var pre, e := hs[..|hs| - 1], hs[|hs| - 1];
      Separate(pre) && Holds(e) && e.l !in Foot(pre) && Foot(pre) !! Nodes(e.k)
  }

  /** Bucket `e` shares nothing with the buckets before and behind it. */
  ghost predicate Beside<T>(e: Held<T>, pre: seq<Held<T>>, post: seq<Held<T>>)
    reads Foot(pre), Foot(post)
  {
    Separate(pre) && Separate(post) && Foot(pre) !! Foot(post) && Foot(pre) !! Own(e) && Foot(post) !! Own(e)
  }

  ghost function Rows<T>(hs: seq<Held<T>>): (r: seq<seq<T>>)
    reads Foot(hs)
    ensures |r| == |hs|
  {
    if hs == [] then [] else Rows(hs[..|hs| - 1]) + [Values(hs[|hs| - 1].k)]
  }

  lemma {:induction false} JoinFoot<T>(a: seq<Held<T>>, c: seq<Held<T>>)
    ensures Foot(a + c) == Foot(a) + Foot(c)
  {
    if c == [] {
      assert a + c == a;
    } else {
      assert (a + c)[..|a + c| - 1] == a + c[..|c| - 1];
      JoinFoot(a, c[..|c| - 1]);
    }
  }

  lemma {:induction false} JoinRows<T>(a: seq<Held<T>>, c: seq<Held<T>>)
    ensures Rows(a + c) == Rows(a) + Rows(c)
  {
    if c == [] {
      assert a + c == a;
    } else {
      assert (a + c)[..|a + c| - 1] == a + c[..|c| - 1];
      JoinRows(a, c[..|c| - 1]);
    }
  }

  lemma {:induction false} JoinSeparate<T>(a: seq<Held<T>>, c: seq<Held<T>>)
    ensures Separate(a + c) <==> Separate(a) && Separate(c) && Foot(a) !! Foot(c)
  {
    if c == [] {
      assert a + c == a;
    } else {
      var pre, e := c[..|c| - 1], c[|c| - 1];
      assert (a + c)[..|a + c| - 1] == a + pre && (a + c)[|a + c| - 1] == e;
      JoinSeparate(a, pre);
      JoinFoot(a, pre);
    }
  }

  lemma Parts<T>(pre: seq<Held<T>>, e: Held<T>, post: seq<Held<T>>)
    ensures var hs := pre + [e] + post;
      && Foot(hs) == Foot(pre) + Own(e) + Foot(post)
      && Rows(hs) == Rows(pre) + [Values(e.k)] + Rows(post)
      && (Separate(hs) <==> Holds(e) && Beside(e, pre, post))
  {
    assert (pre + [e])[..|pre|] == pre;
    JoinFoot(pre + [e], post);
    JoinRows(pre + [e], post);
    JoinSeparate(pre + [e], post);
  }

  lemma PlaceOf<T>(hs: seq<Held<T>>, b: nat)
    requires b < |hs|
    ensures hs == hs[..b] + [hs[b]] + hs[b + 1..]
  {
  }

  /** The table as bucket `b` and the buckets before and behind it. */
  lemma SplitAt<T>(hs: seq<Held<T>>, b: nat)
    requires b < |hs|
    ensures Foot(hs) == Foot(hs[..b]) + Own(hs[b]) + Foot(hs[b + 1..])
    ensures Rows(hs) == Rows(hs[..b]) + [Values(hs[b].k)] + Rows(hs[b + 1..])
    ensures Separate(hs) <==> Holds(hs[b]) && Beside(hs[b], hs[..b], hs[b + 1..])
  {
    PlaceOf(hs, b);
    Parts(hs[..b], hs[b], hs[b + 1..]);
  }

  /** What a bucket of the table offers. */
  lemma BucketAt<T>(hs: seq<Held<T>>, b: nat)
    requires b < |hs| && Separate(hs)
    ensures Holds(hs[b]) && Own(hs[b]) <= Foot(hs) && Rows(hs)[b] == Values(hs[b].k)
  {
    SplitAt(hs, b);
  }

  /** The same buckets, list object by list object. */
  ghost predicate SameObjects<T>(hs: seq<Held<T>>, t: seq<Held<T>>) {
    |t| == |hs| && forall i :: 0 <= i < |hs| ==> t[i].l == hs[i].l
  }

  /** Bucket `b` has taken another shape. */
  lemma Rejoin<T>(hs: seq<Held<T>>, b: nat, e: Held<T>) returns (t: seq<Held<T>>)
    requires b < |hs| && e.l == hs[b].l
    ensures SameObjects(hs, t)
    ensures Foot(t) == Foot(hs[..b]) + Own(e) + Foot(hs[b + 1..])
    ensures Rows(t) == Rows(hs[..b]) + [Values(e.k)] + Rows(hs[b + 1..])
    ensures Separate(t) <==> Holds(e) && Beside(e, hs[..b], hs[b + 1..])
  {
    t := hs[..b] + [e] + hs[b + 1..];
    Parts(hs[..b], e, hs[b + 1..]);
  }

  /** A row in its place, and another put there. */
  lemma Replaced<T>(pre: seq<seq<T>>, v: seq<T>, post: seq<seq<T>>, r: seq<T>)
    ensures var t := pre + [v] + post; t[|pre|] == v && t[|pre| := r] == pre + [r] + post
  {
  }

  /** A new element at the front of a bucket; no other bucket notices. */
  method Push<T>(l: List<T>, x: T, ok: bool, ghost pre: seq<Held<T>>, ghost post: seq<Held<T>>) returns (ret: int)
    requires l.Valid() && Beside(Held(l, l.chain), pre, post)
    modifies l
    ensures l.Valid() && Beside(Held(l, l.chain), pre, post) && fresh(Nodes(l.chain) - old(Nodes(l.chain)))
    ensures Rows(pre) == old(Rows(pre)) && Rows(post) == old(Rows(post))
    ensures Values(l.chain) == Ahead(x, ok) + old(Values(l.chain)) && ret == if ok then 0 else -1
  {
    ghost var others := Existing(Foot(pre) + Foot(post));
    ret := l.InsFront(x, ok);
  }

  /** The first match leaves a bucket; no other bucket notices. */
  method Drop<T>(l: List<T>, x: T, m: (T, T) -> bool, ghost pre: seq<Held<T>>, ghost post: seq<Held<T>>)
      returns (data: Option<T>)
    requires l.Valid() && Beside(Held(l, l.chain), pre, post)
    modifies l, Nodes(l.chain)
    ensures l.Valid() && Beside(Held(l, l.chain), pre, post) && Nodes(l.chain) <= old(Nodes(l.chain))
    ensures Rows(pre) == old(Rows(pre)) && Rows(post) == old(Rows(post))
    ensures data == FirstMatch(old(Values(l.chain)), x, m) && Values(l.chain) == Dropped(old(Values(l.chain)), x, m)
  {
    ghost var others := Existing(Foot(pre) + Foot(post));
    data := DropFrom(l, x, m);
  }

  method PushRow<T>(l: List<T>, x: T, ok: bool, ghost hs: seq<Held<T>>, ghost b: nat)
      returns (ret: int, ghost t: seq<Held<T>>)
    requires Separate(hs) && b < |hs| && hs[b].l == l
    modifies l
    ensures SameObjects(hs, t) && Separate(t) && fresh(Foot(t) - Foot(hs)) && ret == if ok then 0 else -1
    ensures Rows(t) == Pushed(old(Rows(hs)), b, x, ok)
  {
    SplitAt(hs, b);
    ghost var pre, post := hs[..b], hs[b + 1..];
    Replaced(Rows(pre), Values(l.chain), Rows(post), Ahead(x, ok) + Values(l.chain));
    ret := Push(l, x, ok, pre, post);
    t := Rejoin(hs, b, Held(l, l.chain));
  }

  method DropRow<T>(l: List<T>, x: T, m: (T, T) -> bool, ghost hs: seq<Held<T>>, ghost b: nat)
      returns (data: Option<T>, ghost t: seq<Held<T>>)
    requires Separate(hs) && b < |hs| && hs[b].l == l
    modifies l, Nodes(l.chain)
    ensures SameObjects(hs, t) && Separate(t) && Foot(t) <= Foot(hs)
    ensures data == FirstMatch(old(Rows(hs))[b], x, m)
    ensures Rows(t) == old(Rows(hs))[b := Dropped(old(Rows(hs))[b], x, m)]
  {
    SplitAt(hs, b);
    ghost var pre, post := hs[..b], hs[b + 1..];
    Replaced(Rows(pre), Values(l.chain), Rows(post), Dropped(Values(l.chain), x, m));
    data := Drop(l, x, m, pre, post);
    t := Rejoin(hs, b, Held(l, l.chain));
  }

  /** Empty buckets, and their shapes. */
  ghost predicate Prepared<T>(ls: seq<List<T>>, hs: seq<Held<T>>)
    reads Foot(hs)
  {
    |ls| == |hs| && (forall i :: 0 <= i < |hs| ==> hs[i].l == ls[i]) && Separate(hs) && Rows(hs) == EmptyRows(|hs|)
  }

  method AddList<T>(hasDestroy: bool, ls: seq<List<T>>, ghost hs: seq<Held<T>>)
      returns (ms: seq<List<T>>, ghost t: seq<Held<T>>)
    requires Prepared(ls, hs)
    ensures |t| == |hs| + 1 && Prepared(ms, t) && fresh(Foot(t) - Foot(hs))
  {
    ghost var before := Existing(Foot(hs));
    var l := new List<T>(hasDestroy);
    ms, t := ls + [l], hs + [Held(l, End)];
    assert t[..|t| - 1] == hs && Separate(hs) && Rows(hs) == old(Rows(hs));
  }

  /** `n` empty buckets. */
  method EmptyLists<T>(n: nat, hasDestroy: bool) returns (ls: seq<List<T>>, ghost hs: seq<Held<T>>)
    ensures |hs| == n && Prepared(ls, hs) && fresh(Foot(hs))
  {
    ls, hs := [], [];
    for i := 0 to n
      invariant |hs| == i && Prepared(ls, hs) && fresh(Foot(hs))
    {
      ghost var was := Foot(hs);
      label L:
      ls, hs := AddList(hasDestroy, ls, hs);
      assert forall o :: o in Foot(hs) && o !in was ==> !old@L(allocated(o));
    }
  }

  method NewTable<T>(n: nat, hasDestroy: bool) returns (table: array<List<T>>, ghost hs: seq<Held<T>>)
    ensures |hs| == table.Length == n && (forall i :: 0 <= i < n ==> hs[i].l == table[i])
    ensures Separate(hs) && table !in Foot(hs) && fresh(table) && fresh(Foot(hs)) && Rows(hs) == EmptyRows(n)
  {
    var lists;
    lists, hs := EmptyLists<T>(n, hasDestroy);
    ghost var foot := Existing(Foot(hs));
    ghost var rows := Rows(hs);
    table := new List<T>[n](i requires 0 <= i < n => lists[i]);
    assert Separate(hs) && Rows(hs) == rows;
  }

  // -------------------------------------------------------------------- the program

  class CHTbl<T(!new)> {
    const h: T -> int
    const m: (T, T) -> bool
    const table: array<List<T>>
    var size: int
    ghost var held: seq<Held<T>>
    ghost var history: seq<Op<T>>

    ghost predicate Valid()
      reads this, table, Foot(held)
    {
      && table.Length > 0 && Lawful(h, m)
      && |held| == table.Length && (forall i :: 0 <= i < table.Length ==> held[i].l == table[i])
      && Separate(held) && this !in Foot(held) && table !in Foot(held)
      && Rows(held) == Run(history, table.Length, h, m)
      && size == Total(Rows(held))
    }

    /** `chtbl_init`. */
    constructor (buckets: nat, h: T -> int, m: (T, T) -> bool, hasDestroy: bool)
      requires buckets > 0 && Lawful(h, m)
      ensures Valid() && history == [] && fresh(table) && fresh(Foot(held)) && table.Length == buckets
      ensures this.h == h && this.m == m
    {
      this.h, this.m, size, history := h, m, 0, [];
      var lists;
      ghost var hs;
      lists, hs := NewTable<T>(buckets, hasDestroy);
      ghost var foot := Existing(Foot(hs));
      table, held := lists, hs;
      new;
      assert Separate(held) && Rows(held) == EmptyRows(buckets);
      EmptyTotal<T>(buckets);
    }

    /** `chtbl_lookup`: walk the bucket. */
    method Lookup(q: T) returns (ret: int, data: T)
      requires Valid()
      ensures Valid() && ret == (if Binding(history, q, m).Some? then 0 else -1)
      ensures data == if ret == 0 then Binding(history, q, m).value else q
    {
      ghost var foot := Existing(Foot(held));
      RunRefinesMap(history, table.Length, h, m, q);
      var b := Bucket(h, q, table.Length);
      BucketAt(held, b);
      var found := FindIn(table[b], q, m);
      if found.Some? { return 0, found.value; }
      return -1, q;
    }

    /** `chtbl_find_kv`: the stored element, or the query itself. */
    method FindKv(q: T) returns (data: T)
      requires Valid()
      ensures Valid() && data == if Binding(history, q, m).Some? then Binding(history, q, m).value else q
    {
      ghost var foot := Existing(Foot(held));
      var ret;
      ret, data := Lookup(q);
    }

    method Store(ghost hs: seq<Held<T>>, ghost ops: seq<Op<T>>, n: int)
      requires Separate(hs) && this !in Foot(hs)
      modifies this`held, this`history, this`size
      ensures held == hs && history == ops && size == n && Separate(hs) && Rows(hs) == old(Rows(hs))
    {
      held, history, size := hs, ops, n;
    }

    /** The fields after calls `ops` that left the buckets as `hs`. */
    method Note(ghost hs: seq<Held<T>>, ghost ops: seq<Op<T>>, delta: int)
      requires table.Length > 0 && Lawful(h, m)
      requires |hs| == table.Length && (forall i :: 0 <= i < table.Length ==> hs[i].l == table[i])
      requires Separate(hs) && this !in Foot(hs) && table !in Foot(hs)
      requires Rows(hs) == Run(ops, table.Length, h, m) && size + delta == Total(Rows(hs))
      modifies this`held, this`history, this`size
      ensures Valid() && held == hs && history == ops && size == old(size) + delta
    {
      Store(hs, ops, size + delta);
    }

    /** `chtbl_insert`: 1 exactly on a key that is bound; `ok` is whether malloc succeeds. */
    method Insert(x: T, ok: bool) returns (ret: int)
      requires Valid()
      modifies this, Foot(held)
      ensures Valid() && fresh(Foot(held) - old(Foot(held))) && history == old(history) + [Put(x, ok)]
      ensures ret == if Binding(old(history), x, m).Some? then 1 else if ok then 0 else -1
      ensures size == old(size) + if ret == 0 then 1 else 0
    {
      ghost var foot := Existing(Foot(held));
      var found, _ := Lookup(x);
      if found == 0 {
        RunRefinesMap(history, table.Length, h, m, x);
        RunExtends(history, Put(x, ok), table.Length, h, m);
        Note(held, history + [Put(x, ok)], 0);
        assert Foot(held) - old(Foot(held)) == {};
        return 1;
      }
      label L:
      assert held == old(held);
      ret := PushAt(x, ok);
      assert forall o :: o in Foot(held) && o !in old@L(Foot(held)) ==> !old@L(allocated(o));
    }

    /** `list_ins_next` on the bucket of a key that is not bound. */
    method PushAt(x: T, ok: bool) returns (ret: int)
      requires Valid() && Binding(history, x, m).None?
      modifies this, Foot(held)
      ensures Valid() && fresh(Foot(held) - old(Foot(held))) && history == old(history) + [Put(x, ok)]
      ensures ret == (if ok then 0 else -1) && size == old(size) + if ok then 1 else 0
    {
      ghost var hs;
      ret, hs := Grow(x, ok);
      Note(hs, history + [Put(x, ok)], if ok then 1 else 0);
    }

    method Grow(x: T, ok: bool) returns (ret: int, ghost hs: seq<Held<T>>)
      requires Valid() && Binding(history, x, m).None?
      modifies Foot(held)
      ensures |hs| == table.Length && (forall i :: 0 <= i < table.Length ==> hs[i].l == table[i])
      ensures Separate(hs) && this !in Foot(hs) && table !in Foot(hs) && fresh(Foot(hs) - Foot(held))
      ensures Rows(hs) == Run(history + [Put(x, ok)], table.Length, h, m)
      ensures size + (if ok then 1 else 0) == Total(Rows(hs)) && ret == if ok then 0 else -1
    {
      PutRuns(history, x, ok, table.Length, h, m);
      var b := Bucket(h, x, table.Length);
      BucketAt(held, b);
      ret, hs := PushRow(table[b], x, ok, held, b);
    }

    /** `chtbl_remove`: `data` is the element that was stored. */
    method Remove(x: T) returns (ret: int, data: T)
      requires Valid()
      modifies this, Foot(held)
      ensures Valid() && Foot(held) <= old(Foot(held)) && history == old(history) + [Del(x)]
      ensures ret == if Binding(old(history), x, m).Some? then 0 else -1
      ensures data == if ret == 0 then Binding(old(history), x, m).value else x
      ensures size == old(size) - if ret == 0 then 1 else 0
    {
      DelRuns(history, x, table.Length, h, m);
      var b := Bucket(h, x, table.Length);
      BucketAt(held, b);
      var found;
      ghost var hs;
      found, hs := DropRow(table[b], x, m, held, b);
      Note(hs, history + [Del(x)], if found.Some? then -1 else 0);
      if found.None? { return -1, x; }
      return 0, found.value;
    }
  }

  /** `chtbl_init`: 0 and an empty table, or -1 where `ok` says malloc has no room for the buckets. */
  method InitTable<T(!new)>(buckets: nat, h: T -> int, m: (T, T) -> bool, hasDestroy: bool, ok: bool)
      returns (ret: int, t: CHTbl?<T>)
    requires buckets > 0 && Lawful(h, m)
    ensures ret == (if ok then 0 else -1) && (t != null <==> ok)
    ensures t != null ==> fresh(t) && fresh(t.table) && fresh(Foot(t.held))
    ensures t != null ==> t.Valid() && t.history == [] && t.table.Length == buckets && t.h == h && t.m == m
  {
    if !ok { return -1, null; }
    t := new CHTbl<T>(buckets, h, m, hasDestroy);
    ret := 0;
  }

  /** What one more insert of a key that is not bound does to the table. */
  lemma PutRuns<T(!new)>(ops: seq<Op<T>>, x: T, ok: bool, n: nat, h: T -> int, m: (T, T) -> bool)
    requires n > 0 && Lawful(h, m) && Binding(ops, x, m).None?
    ensures var t, u, b := Run(ops, n, h, m), Run(ops + [Put(x, ok)], n, h, m), Bucket(h, x, n);
      u == Pushed(t, b, x, ok) && Total(u) == Total(t) + if ok then 1 else 0
  {
    assert [] + Run(ops, n, h, m)[Bucket(h, x, n)] == Run(ops, n, h, m)[Bucket(h, x, n)];
    RunRefinesMap(ops, n, h, m, x);
    RunExtends(ops, Put(x, ok), n, h, m);
    if ok { InsertRefines(Run(ops, n, h, m), x, x, h, m); }
  }

  /** What one more removal does to the table. */
  lemma DelRuns<T(!new)>(ops: seq<Op<T>>, x: T, n: nat, h: T -> int, m: (T, T) -> bool)
    requires n > 0 && Lawful(h, m)
    ensures var t, u, b := Run(ops, n, h, m), Run(ops + [Del(x)], n, h, m), Bucket(h, x, n);
      && FirstMatch(t[b], x, m) == Binding(ops, x, m)
      && u == t[b := Dropped(t[b], x, m)] && Total(u) == Total(t) - if Binding(ops, x, m).Some? then 1 else 0
  {
    RunRefinesMap(ops, n, h, m, x);
    RunExtends(ops, Del(x), n, h, m);
    RemoveRefines(Run(ops, n, h, m), x, x, h, m);
  }

  lemma RunExtends<T>(ops: seq<Op<T>>, op: Op<T>, n: nat, h: T -> int, m: (T, T) -> bool)
    requires n > 0
    ensures var t := Run(ops, n, h, m);
      Run(ops + [op], n, h, m) ==
        if op.Del? then Removed(t, op.x, h, m)
        else if op.ok && Get(t, op.x, h, m).None? then Inserted(t, op.x, h)
        else t
  {
    assert (ops + [op])[..|ops|] == ops;
  }

  lemma {:induction false} EmptyTotal<T>(n: nat)
    ensures Total(EmptyRows<T>(n)) == 0
  {
    if n > 0 {
      EmptyTotal<T>(n - 1);
      assert EmptyRows<T>(n)[..n - 1] == EmptyRows<T>(n - 1);
    }
  }
}
