/**
 * The trees behind the Set container (Set/set.hpp, Set/set.cpp) as values. A node of the
 * source is identified by its pointer; here it is identified by its position, the path of
 * left and right steps from the root. Parent pointers are the path minus its last step.
 */
module RbTree {
  import opened Common

  /** Set<T>::COLOR */
  datatype Color = Red | Black

  /** Set<T>::Node without its parent pointer; T is int. */
  datatype Tree = Nil | Node(color: Color, left: Tree, key: int, right: Tree)

  datatype Dir = L | R

  type Pos = seq<Dir>

  function Other(d: Dir): Dir { if d == L then R else L }

  function Child(t: Tree, d: Dir): Tree
    requires t.Node?
  {
    if d == L then t.left else t.right
  }

  function WithChild(t: Tree, d: Dir, c: Tree): (r: Tree)
    requires t.Node?
    ensures r.Node? && r.color == t.color && r.key == t.key
    ensures Child(r, d) == c && Child(r, Other(d)) == Child(t, Other(d))
  {
    if d == L then t.(left := c) else t.(right := c)
  }

  /** A null pointer reads as black in the colour tests of the source. */
  predicate BlackOrNil(t: Tree) { t.Nil? || t.color == Black }

  /** The keys of t, left to right. */
  function InOrder(t: Tree): seq<int>
  {
    match t
    case Nil => []
    case Node(_, l, k, r) => InOrder(l) + [k] + InOrder(r)
  }

  predicate Sorted(s: seq<int>)
  {
    forall i, j :: 0 <= i < j < |s| ==> s[i] <= s[j]
  }

  // ---------------------------------------------------------------- positions

  function Descend(o: Option<Tree>, d: Dir): Option<Tree>
  {
    match o
    case Some(Node(_, l, _, r)) => Some(if d == L then l else r)
    case _ => None
  }

  /** The subtree at position p, or None when the path leaves the tree. */
  function Lookup(t: Tree, p: Pos): Option<Tree>
    decreases |p|
  {
    if p == [] then Some(t) else Descend(Lookup(t, p[..|p| - 1]), p[|p| - 1])
  }

  predicate ValidPos(t: Tree, p: Pos) { Lookup(t, p).Some? }

  function At(t: Tree, p: Pos): Tree
    requires ValidPos(t, p)
  {
    Lookup(t, p).value
  }

  /** t with the subtree at p replaced by s: every pointer assignment of the source is one of these. */
  function Put(t: Tree, p: Pos, s: Tree): Tree
    requires ValidPos(t, p)
    decreases |p|
  {
    if p == [] then s
    else
      var q := p[..|p| - 1];
      Put(t, q, WithChild(At(t, q), p[|p| - 1], s))
  }

  /** The keys left of position p in the in-order walk. */
  function Before(t: Tree, p: Pos): seq<int>
    requires ValidPos(t, p)
    decreases |p|
  {
    if p == [] then []
    else
      var q := p[..|p| - 1];
      var n := At(t, q);
      if p[|p| - 1] == L then Before(t, q) else Before(t, q) + InOrder(n.left) + [n.key]
  }

  /** The keys right of position p in the in-order walk. */
  function After(t: Tree, p: Pos): seq<int>
    requires ValidPos(t, p)
    decreases |p|
  {
    if p == [] then []
    else
      var q := p[..|p| - 1];
      var n := At(t, q);
      if p[|p| - 1] == L then [n.key] + InOrder(n.right) + After(t, q) else After(t, q)
  }

  // ---------------------------------------------------------------- rotations

  /** rotate_left on values: the right child comes up, the node goes down to the left. */
  function RotL(t: Tree): (r: Tree)
    requires t.Node? && t.right.Node?
    ensures r.Node? && r.left.Node? && InOrder(r) == InOrder(t)
    ensures r.left.key == t.key && r.left.color == t.color && r.left.left == t.left
    ensures r.color == t.right.color && r.right == t.right.right
  {
    var c := t.right;
    var r := Node(c.color, Node(t.color, t.left, t.key, c.left), c.key, c.right);
    assert InOrder(r) == InOrder(t.left) + [t.key] + (InOrder(c.left) + [c.key] + InOrder(c.right));
    r
  }

  /** rotate_right on values: the left child comes up, the node goes down to the right. */
  function RotR(t: Tree): (r: Tree)
    requires t.Node? && t.left.Node?
    ensures r.Node? && r.right.Node? && InOrder(r) == InOrder(t)
    ensures r.right.key == t.key && r.right.color == t.color && r.right.right == t.right
    ensures r.color == t.left.color && r.left == t.left.left
  {
    var c := t.left;
    var r := Node(c.color, c.left, c.key, Node(t.color, c.right, t.key, t.right));
    assert InOrder(r) == InOrder(c.left) + [c.key] + (InOrder(c.right) + [t.key] + InOrder(t.right));
    r
  }

  /** The rotation that moves the node down on side d. */
  function Turn(t: Tree, d: Dir): (r: Tree)
    requires t.Node? && Child(t, Other(d)).Node?
    ensures r.Node? && Child(r, d).Node? && InOrder(r) == InOrder(t)
    ensures Child(r, d).key == t.key && Child(r, d).color == t.color && Child(Child(r, d), d) == Child(t, d)
    ensures r.color == Child(t, Other(d)).color
  {
    if d == L then RotL(t) else RotR(t)
  }

  // ---------------------------------------------------------------- lemmas on positions

  lemma {:induction false} LookupStep(t: Tree, p: Pos, d: Dir)
    ensures Lookup(t, p + [d]) == Descend(Lookup(t, p), d)
  {
    assert (p + [d])[..|p|] == p;
  }

  /** One step down from a valid node position is valid, and reaches the child. */
  lemma {:induction false} AtStep(t: Tree, p: Pos, d: Dir)
    requires ValidPos(t, p) && At(t, p).Node?
    ensures ValidPos(t, p + [d]) && At(t, p + [d]) == Child(At(t, p), d)
  {
    LookupStep(t, p, d);
  }

  /** A valid position's parent is a valid node position. */
  lemma {:induction false} ParentPos(t: Tree, p: Pos)
    requires ValidPos(t, p) && p != []
    ensures ValidPos(t, p[..|p| - 1]) && At(t, p[..|p| - 1]).Node?
    ensures At(t, p) == Child(At(t, p[..|p| - 1]), p[|p| - 1])
  {
  }

  /** Following q and then e is following e from the subtree at q. */
  lemma {:induction false} LookupAppend(t: Tree, q: Pos, e: Pos)
    ensures Lookup(t, q + e) == if ValidPos(t, q) then Lookup(At(t, q), e) else None
    decreases |e|
  {
    if e == [] {
      assert q + e == q;
    } else {
      var e', d := e[..|e| - 1], e[|e| - 1];
      assert e == e' + [d];
      assert q + e == (q + e') + [d];
      LookupAppend(t, q, e');
      LookupStep(t, q + e', d);
      if ValidPos(t, q) {
        LookupStep(At(t, q), e', d);
      }
    }
  }

  /** After Put at p, position p holds the new subtree. */
  lemma {:induction false} AtPut(t: Tree, p: Pos, s: Tree)
    requires ValidPos(t, p)
    ensures ValidPos(Put(t, p, s), p) && At(Put(t, p, s), p) == s
    decreases |p|
  {
    if p != [] {
      var q, d := p[..|p| - 1], p[|p| - 1];
      var w := WithChild(At(t, q), d, s);
      AtPut(t, q, w);
      assert q + [d] == p;
      AtStep(Put(t, q, w), q, d);
    }
  }

  /** Below p, the tree after Put at p is the new subtree. */
  lemma {:induction false} LookupPutBelow(t: Tree, p: Pos, s: Tree, e: Pos)
    requires ValidPos(t, p)
    ensures Lookup(Put(t, p, s), p + e) == Lookup(s, e)
  {
    AtPut(t, p, s);
    LookupAppend(Put(t, p, s), p, e);
  }

  /** A Put at q + e is a Put at q of the subtree at q, itself updated at e. */
  lemma {:induction false} PutSplit(t: Tree, q: Pos, e: Pos, s: Tree)
    requires ValidPos(t, q + e)
    ensures ValidPos(t, q) && ValidPos(At(t, q), e) && At(At(t, q), e) == At(t, q + e)
    ensures Put(t, q + e, s) == Put(t, q, Put(At(t, q), e, s))
    decreases |e|
  {
    LookupAppend(t, q, e);
    if e != [] {
      var e', d := e[..|e| - 1], e[|e| - 1];
      assert e == e' + [d];
      assert q + e == (q + e') + [d];
      assert (q + e)[..|q + e| - 1] == q + e';
      var w := WithChild(At(t, q + e'), d, s);
      PutSplit(t, q, e', w);
    } else {
      assert q + e == q;
    }
  }

  /** A Put strictly below the root keeps the root node's colour and key. */
  lemma {:induction false} PutRoot(t: Tree, p: Pos, s: Tree)
    requires ValidPos(t, p) && p != []
    ensures t.Node? && Put(t, p, s).Node? && Put(t, p, s).color == t.color && Put(t, p, s).key == t.key
    decreases |p|
  {
    var q := p[..|p| - 1];
    ParentPos(t, p);
    var w := WithChild(At(t, q), p[|p| - 1], s);
    assert Put(t, p, s) == Put(t, q, w);
    if q != [] {
      PutRoot(t, q, w);
    } else {
      assert At(t, q) == t && Put(t, q, w) == w;
    }
  }

  /** Two Puts at the same position: the second wins. */
  lemma {:induction false} PutPut(t: Tree, p: Pos, a: Tree, b: Tree)
    requires ValidPos(t, p)
    ensures ValidPos(Put(t, p, a), p) && Put(Put(t, p, a), p, b) == Put(t, p, b)
    decreases |p|
  {
    AtPut(t, p, a);
    if p != [] {
      var q, d := p[..|p| - 1], p[|p| - 1];
      var wa := WithChild(At(t, q), d, a);
      AtPut(t, q, wa);
      PutPut(t, q, wa, WithChild(wa, d, b));
      assert WithChild(wa, d, b) == WithChild(At(t, q), d, b);
    }
  }

  /** The in-order walk through position p. */
  lemma {:induction false} InOrderPut(t: Tree, p: Pos, s: Tree)
    requires ValidPos(t, p)
    ensures InOrder(Put(t, p, s)) == Before(t, p) + InOrder(s) + After(t, p)
    decreases |p|
  {
    if p != [] {
      var q, d := p[..|p| - 1], p[|p| - 1];
      var w := WithChild(At(t, q), d, s);
      InOrderPut(t, q, w);
      InOrderPutStep(t, p, s);
    }
  }

  lemma Regroup(a: seq<int>, b: seq<int>, c: seq<int>, d: seq<int>)
    ensures a + (b + c) + d == (a + b) + (c + d) == (a + b) + c + d == a + (b + c + d)
  {
  }

  /** The step of InOrderPut: from the walk through the parent to the walk through p. */
  lemma {:induction false} InOrderPutStep(t: Tree, p: Pos, s: Tree)
    requires ValidPos(t, p) && p != []
    requires var q := p[..|p| - 1]; var w := WithChild(At(t, q), p[|p| - 1], s);
      InOrder(Put(t, q, w)) == Before(t, q) + InOrder(w) + After(t, q)
    ensures InOrder(Put(t, p, s)) == Before(t, p) + InOrder(s) + After(t, p)
  {
    var q, d := p[..|p| - 1], p[|p| - 1];
    var n := At(t, q);
    var w := WithChild(n, d, s);
    assert Put(t, p, s) == Put(t, q, w);
    var bq, aq, ss := Before(t, q), After(t, q), InOrder(s);
    if d == L {
      var rs := [n.key] + InOrder(n.right);
      assert InOrder(w) == ss + rs;
      assert After(t, p) == rs + aq;
      Regroup(bq, ss, rs, aq);
    } else {
      var ls := InOrder(n.left) + [n.key];
      assert InOrder(w) == ls + ss;
      assert Before(t, p) == bq + ls;
      Regroup(bq, ls, ss, aq);
    }
  }

  lemma {:induction false} InOrderSplit(t: Tree, p: Pos)
    requires ValidPos(t, p)
    ensures InOrder(t) == Before(t, p) + InOrder(At(t, p)) + After(t, p)
    decreases |p|
  {
    if p != [] {
      var q, d := p[..|p| - 1], p[|p| - 1];
      var n := At(t, q);
      InOrderSplit(t, q);
      ParentPos(t, p);
      var bq, aq, il, c, ir := Before(t, q), After(t, q), InOrder(n.left), [n.key], InOrder(n.right);
      assert InOrder(n) == il + c + ir;
      if d == L {
        assert Before(t, p) == bq && After(t, p) == c + ir + aq;
        Regroup(bq, il, c + ir, aq);
      } else {
        assert Before(t, p) == bq + il + c && After(t, p) == aq;
        Regroup(bq, il + c, ir, aq);
      }
    }
  }

  /** Replacing a subtree by one with the same keys keeps the keys of the whole tree. */
  lemma {:induction false} InOrderReplace(t: Tree, p: Pos, s: Tree)
    requires ValidPos(t, p) && InOrder(s) == InOrder(At(t, p))
    ensures InOrder(Put(t, p, s)) == InOrder(t)
  {
    InOrderPut(t, p, s);
    InOrderSplit(t, p);
  }

  /** Nothing lies left of a position reached by left steps only. */
  lemma {:induction false} BeforeLeftSpine(t: Tree, p: Pos, e: Pos)
    requires ValidPos(t, p + e) && forall i :: 0 <= i < |e| ==> e[i] == L
    ensures ValidPos(t, p) && Before(t, p + e) == Before(t, p)
    decreases |e|
  {
    LookupAppend(t, p, e);
    if e == [] {
      assert p + e == p;
    } else {
      var e' := e[..|e| - 1];
      assert p + e == (p + e') + [L];
      assert (p + e)[..|p + e| - 1] == p + e';
      ParentPos(t, p + e);
      BeforeLeftSpine(t, p, e');
    }
  }

  /** Put one step below p is a Put at p of the node with a new child. */
  lemma {:induction false} PutChild(t: Tree, p: Pos, d: Dir, s: Tree)
    requires ValidPos(t, p + [d])
    ensures ValidPos(t, p) && At(t, p).Node? && At(t, p + [d]) == Child(At(t, p), d)
    ensures Put(t, p + [d], s) == Put(t, p, WithChild(At(t, p), d, s))
  {
    assert (p + [d])[..|p|] == p;
    ParentPos(t, p + [d]);
  }

  lemma {:induction false} InOrderWithChild(t: Tree, d: Dir, c: Tree)
    requires t.Node? && InOrder(c) == InOrder(Child(t, d))
    ensures InOrder(WithChild(t, d, c)) == InOrder(t)
  {
    if d == L {
      assert WithChild(t, d, c) == Node(t.color, c, t.key, t.right);
    } else {
      assert WithChild(t, d, c) == Node(t.color, t.left, t.key, c);
    }
  }

  // ---------------------------------------------------------------- sorted sequences

  /** Both halves of a sorted sequence are sorted, and the left one lies below the right one. */
  lemma {:induction false} SortedParts(a: seq<int>, b: seq<int>)
    requires Sorted(a + b)
    ensures Sorted(a) && Sorted(b)
    ensures forall x, y :: x in a && y in b ==> x <= y
  {
    forall i, j | 0 <= i < j < |b| ensures b[i] <= b[j] {
      assert b[i] == (a + b)[|a| + i] && b[j] == (a + b)[|a| + j];
    }
    forall i, j | 0 <= i < j < |a| ensures a[i] <= a[j] {
      assert a[i] == (a + b)[i] && a[j] == (a + b)[j];
    }
    forall x, y | x in a && y in b ensures x <= y {
      var i :| 0 <= i < |a| && a[i] == x;
      var j :| 0 <= j < |b| && b[j] == y;
      assert x == (a + b)[i] && y == (a + b)[|a| + j];
    }
  }

  /** A key placed between a lower and an upper part keeps the sequence sorted. */
  lemma {:induction false} SortedInsert(b: seq<int>, a: seq<int>, key: int)
    requires Sorted(b + a)
    requires forall x :: x in b ==> x <= key
    requires forall x :: x in a ==> key < x
    ensures Sorted(b + [key] + a)
  {
    SortedParts(b, a);
    var s := b + [key] + a;
    forall i, j | 0 <= i < j < |s| ensures s[i] <= s[j] {
      if j < |b| {
        assert s[i] == b[i] && s[j] == b[j];
      } else if j == |b| {
        assert s[i] == b[i] && s[i] in b;
      } else if i > |b| {
        assert s[i] == a[i - |b| - 1] && s[j] == a[j - |b| - 1];
      } else if i == |b| {
        assert s[j] == a[j - |b| - 1] && s[j] in a;
      } else {
        assert s[i] == b[i] && s[i] in b && s[j] == a[j - |b| - 1] && s[j] in a;
      }
    }
  }

  /** Dropping one element keeps a sequence sorted. */
  lemma {:induction false} SortedRemove(s: seq<int>, i: nat)
    requires Sorted(s) && i < |s|
    ensures Sorted(s[..i] + s[i + 1..])
  {
    var t := s[..i] + s[i + 1..];
    forall a, b | 0 <= a < b < |t| ensures t[a] <= t[b] {
      var a' := if a < i then a else a + 1;
      var b' := if b < i then b else b + 1;
      assert t[a] == s[a'] && t[b] == s[b'];
    }
  }

  // ---------------------------------------------------------------- search and minimum

  /** The node remove() settles on: the last node on the search path holding key. */
  function Search(t: Tree, key: int): Option<Pos>
  {
    match t
    case Nil => None
    case Node(_, l, k, r) =>
      if k <= key then
        match Search(r, key)
        case Some(p) => Some([R] + p)
        case None => if k == key then Some([]) else None
      else
        match Search(l, key)
        case Some(p) => Some([L] + p)
        case None => None
  }

  lemma {:induction false} AtFirstStep(t: Tree, d: Dir, e: Pos)
    requires t.Node?
    ensures Lookup(t, [d] + e) == Lookup(Child(t, d), e)
  {
    LookupStep(t, [], d);
    assert [] + [d] == [d];
    LookupAppend(t, [d], e);
  }

  /** The step of SearchFinds inside a sorted node. */
  lemma {:induction false} SearchSorted(l: Tree, k: int, r: Tree, key: int)
    requires Sorted(InOrder(l) + [k] + InOrder(r))
    requires Sorted(InOrder(l)) ==> (Search(l, key).Some? <==> key in InOrder(l))
    requires Sorted(InOrder(r)) ==> (Search(r, key).Some? <==> key in InOrder(r))
    ensures Search(Node(Black, l, k, r), key).Some? <==> key in InOrder(l) + [k] + InOrder(r)
  {
    var il, c, ir := InOrder(l), [k], InOrder(r);
    assert il + c + ir == il + (c + ir);
    SortedParts(il, c + ir);
    SortedParts(c, ir);
    assert k in c + ir;
    if key in il {
      assert key <= k;
    }
    if key in ir {
      assert k <= key;
    }
  }

  /** Search finds a node holding key, and in a sorted tree it finds one exactly when key is present. */
  lemma {:induction false} SearchFinds(t: Tree, key: int)
    ensures Search(t, key).Some? ==>
      ValidPos(t, Search(t, key).value) && At(t, Search(t, key).value).Node? && At(t, Search(t, key).value).key == key
    ensures Sorted(InOrder(t)) ==> (Search(t, key).Some? <==> key in InOrder(t))
  {
    if t.Node? {
      assert Search(t, key) == Search(Node(Black, t.left, t.key, t.right), key);
    }
    match t
    case Nil =>
    case Node(_, l, k, r) =>
      SearchFinds(l, key);
      SearchFinds(r, key);
      if Search(r, key).Some? {
        AtFirstStep(t, R, Search(r, key).value);
      }
      if Search(l, key).Some? {
        AtFirstStep(t, L, Search(l, key).value);
      }
      if Sorted(InOrder(t)) {
        SearchSorted(l, k, r, key);
      }
  }

  /** The leftmost node of a tree holds its first key. */
  lemma {:induction false} LeftSpineMin(t: Tree, e: Pos)
    requires ValidPos(t, e) && forall i :: 0 <= i < |e| ==> e[i] == L
    requires At(t, e).Node? && At(t, e).left.Nil?
    ensures |InOrder(t)| > 0 && InOrder(t)[0] == At(t, e).key
  {
    InOrderSplit(t, e);
    assert [] + e == e;
    BeforeLeftSpine(t, [], e);
    var n := At(t, e);
    assert InOrder(n) == [n.key] + InOrder(n.right);
    assert InOrder(t) == [n.key] + (InOrder(n.right) + After(t, e));
  }

  lemma Regroup5(a: seq<int>, b: seq<int>, c: seq<int>, d: seq<int>, e: seq<int>)
    ensures a + (b + c + d) + e == (a + b + c) + (d + e) == (a + b) + (c + d + e)
  {
  }

  /** One step of insert()'s descent keeps the new key between the keys left and right of it. */
  lemma {:induction false} DescendKeeps(t: Tree, p: Pos, key: int)
    requires Sorted(InOrder(t)) && ValidPos(t, p) && At(t, p).Node?
    requires forall x :: x in Before(t, p) ==> x <= key
    requires forall x :: x in After(t, p) ==> key < x
    ensures var d := if key < At(t, p).key then L else R;
      ValidPos(t, p + [d]) &&
      (forall x :: x in Before(t, p + [d]) ==> x <= key) &&
      (forall x :: x in After(t, p + [d]) ==> key < x)
  {
    var n := At(t, p);
    var d := if key < n.key then L else R;
    AtStep(t, p, d);
    assert (p + [d])[..|p|] == p;
    InOrderSplit(t, p);
    var b, a, il, c, ir := Before(t, p), After(t, p), InOrder(n.left), [n.key], InOrder(n.right);
    assert InOrder(n) == il + c + ir;
    Regroup5(b, il, c, ir, a);
    if d == L {
      assert Before(t, p + [d]) == b;
      assert After(t, p + [d]) == c + ir + a;
      DescendLeft(b, il, n.key, ir, a, key);
    } else {
      assert After(t, p + [d]) == a;
      assert Before(t, p + [d]) == b + il + c;
      DescendRight(b, il, n.key, ir, a, key);
    }
  }

  lemma {:induction false} DescendLeft(b: seq<int>, il: seq<int>, k: int, ir: seq<int>, a: seq<int>, key: int)
    requires Sorted((b + il + [k]) + (ir + a)) && key < k
    requires forall x :: x in a ==> key < x
    ensures forall x :: x in [k] + ir + a ==> key < x
  {
    SortedParts(b + il + [k], ir + a);
    assert k in b + il + [k];
    forall x | x in [k] + ir + a ensures key < x {
      if x in ir {
        assert x in ir + a;
      }
    }
  }

  lemma {:induction false} DescendRight(b: seq<int>, il: seq<int>, k: int, ir: seq<int>, a: seq<int>, key: int)
    requires Sorted((b + il) + ([k] + ir + a)) && k <= key
    requires forall x :: x in b ==> x <= key
    ensures forall x :: x in b + il + [k] ==> x <= key
  {
    SortedParts(b + il, [k] + ir + a);
    assert k in [k] + ir + a;
    forall x | x in b + il + [k] ensures x <= key {
      if x in il {
        assert x in b + il;
      }
    }
  }

  /** In-order keys of the subtree remove() builds when the removed node z has two children:
      the minimum y of z's right subtree, found at e, takes z's place, and y's right subtree
      takes y's. */
  lemma {:induction false} SpliceMinKeys(z: Tree, e: Pos)
    requires z.Node? && ValidPos(z.right, e) && forall i :: 0 <= i < |e| ==> e[i] == L
    requires At(z.right, e).Node? && At(z.right, e).left.Nil?
    ensures var y := At(z.right, e);
      InOrder(Node(z.color, z.left, y.key, Put(z.right, e, y.right))) == InOrder(z.left) + InOrder(z.right)
  {
    var y := At(z.right, e);
    var r' := Put(z.right, e, y.right);
    var a, c, yr := After(z.right, e), [y.key], InOrder(y.right);
    assert Before(z.right, e) == [] by {
      assert [] + e == e;
      BeforeLeftSpine(z.right, [], e);
    }
    assert InOrder(z.right) == c + yr + a by {
      InOrderSplit(z.right, e);
      assert InOrder(y) == c + yr;
    }
    assert InOrder(r') == yr + a by {
      InOrderPut(z.right, e, y.right);
    }
    Regroup(InOrder(z.left), c, yr, a);
  }

  /** Where y's right subtree sits in the subtree of SpliceMinKeys. */
  lemma {:induction false} SpliceMinPos(z: Tree, e: Pos)
    requires z.Node? && ValidPos(z.right, e) && At(z.right, e).Node?
    ensures var y := At(z.right, e);
      var m := Node(z.color, z.left, y.key, Put(z.right, e, y.right));
      ValidPos(m, [R] + e) && At(m, [R] + e) == y.right
  {
    var y := At(z.right, e);
    var m := Node(z.color, z.left, y.key, Put(z.right, e, y.right));
    AtFirstStep(m, R, e);
    AtPut(z.right, e, y.right);
  }
}
