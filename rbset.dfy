/**
 * The red-black Set container (Set/set.hpp, Set/set.cpp) with int keys. The tree of nodes is
 * the value `root`, and every pointer the source keeps (node, parent, sibling, ...) is a
 * position in it. Every assignment to a child pointer is a `Put` at that position. The
 * branches the source writes twice, once for the left and once for the right side, are
 * written once here, with the side `d` as a parameter.
 */
module RbSet {
  import opened Common
  import opened RbTree

  /** The null pointer a run of remove() dereferences. */
  datatype Crash =
    | NilNode     // fix_delete reads the colour of its node while it is null (set.cpp:213, 285)
    | NilSibling  // fix_delete reads the colour or children of a null sibling (set.cpp:216, 223)

  datatype Removal = Removed | NotFound | Crashed(at: Crash)

  class Set {
    var root: Tree

    /** The keys in the order of the tree are sorted (duplicates allowed) and the root is black. */
    ghost predicate Valid()
      reads this
    {
      Sorted(InOrder(root)) && BlackOrNil(root)
    }

    ghost function Keys(): seq<int>
      reads this
    {
      InOrder(root)
    }

    /** Set<T>::Set(): an empty tree. */
    constructor ()
      ensures Valid() && Keys() == []
    {
      root := Nil;
    }

    // ------------------------------------------------------------ insert

    /**
     * insert(key): walk down from the root, left while key is smaller than the node, right
     * otherwise, hang a red node where the walk leaves the tree, then repair the colours.
     * A key already present is stored again, after every equal key.
     */
    method Insert(key: int)
      requires Valid()
      modifies this
      ensures Valid()
      ensures exists i :: (0 <= i <= |old(Keys())| && Keys() == old(Keys())[..i] + [key] + old(Keys())[i..] &&
        (forall j :: 0 <= j < i ==> old(Keys())[j] <= key) &&
        (forall j :: i <= j < |old(Keys())| ==> key < old(Keys())[j]))
    {
      ghost var keys := InOrder(root);
      var p := FindLeaf(key);
      ghost var b, a := Before(root, p), After(root, p);
      var node := Node(Red, Nil, key, Nil);
      assert keys == b + a by {
        InOrderSplit(root, p);
      }
      assert InOrder(Put(root, p, node)) == b + [key] + a by {
        InOrderPut(root, p, node);
      }
      assert p == [] || (Put(root, p, node).Node? && Put(root, p, node).color == Black) by {
        if p != [] {
          PutRoot(root, p, node);
        }
      }
      AtPut(root, p, node);
      // node->parent = parent, then root_ = node or parent->left/right = node
      root := Put(root, p, node);
      SortedInsert(b, a, key);
      FixInsert(p);
      ghost var i := InsertedAt(keys, b, a, key);
      assert Keys() == old(Keys())[..i] + [key] + old(Keys())[i..];
    }

    /** The descent of insert() (set.cpp:19-30): the empty place where key belongs, after every equal key. */
    method FindLeaf(key: int) returns (p: Pos)
      requires Sorted(InOrder(root))
      ensures ValidPos(root, p) && At(root, p).Nil?
      ensures forall x :: x in Before(root, p) ==> x <= key
      ensures forall x :: x in After(root, p) ==> key < x
    {
      p := [];
      while At(root, p).Node?
        invariant ValidPos(root, p)
        invariant forall x :: x in Before(root, p) ==> x <= key
        invariant forall x :: x in After(root, p) ==> key < x
        decreases At(root, p)
      {
        var n := At(root, p);
        var d := if key < n.key then L else R;
        DescendKeeps(root, p, key);
        AtStep(root, p, d);
        p := p + [d];
      }
    }

    /** fix_insert(node): while node and its parent are red, recolour or rotate around the grandparent. */
    method FixInsert(n0: Pos)
      requires ValidPos(root, n0) && At(root, n0).Node?
      requires n0 == [] || (root.Node? && root.color == Black)
      modifies this
      ensures InOrder(root) == old(InOrder(root))
      ensures root.Node? && root.color == Black
    {
      var n := n0;
      while n != [] && At(root, n).color == Red && At(root, n[..|n| - 1]).color == Red
        invariant ValidPos(root, n) && At(root, n).Node?
        invariant n == [] || (root.Node? && root.color == Black)
        invariant n != [] ==> ValidPos(root, n[..|n| - 1]) && At(root, n[..|n| - 1]).Node?
        invariant InOrder(root) == old(InOrder(root))
        decreases |n|
      {
        ParentPos(root, n);
        var q := n[..|n| - 1];
        ParentPos(root, q);
        var gp, d := q[..|q| - 1], q[|q| - 1];
        assert q == gp + [d];
        var uncle := Child(At(root, gp), Other(d));
        if uncle.Node? && uncle.color == Red {
          InsertRecolor(gp, d);
        } else {
          InsertRotate(gp, d, n[|n| - 1]);
        }
        n := gp;
        if n != [] {
          ParentPos(root, n);
        }
      }
      root := root.(color := Black);
    }

    /** The red-uncle case of fix_insert: grandparent red, parent and uncle black (set.cpp:168-173). */
    method InsertRecolor(gp: Pos, d: Dir)
      requires ValidPos(root, gp) && At(root, gp).Node?
      requires Child(At(root, gp), d).Node? && Child(At(root, gp), Other(d)).Node?
      requires root.Node? && root.color == Black
      modifies this
      ensures ValidPos(root, gp) && At(root, gp).Node? && At(root, gp).color == Red
      ensures gp != [] ==> root.Node? && root.color == Black
      ensures InOrder(root) == old(InOrder(root))
    {
      var g := At(root, gp);
      var o := Other(d);
      var parent, uncle := Child(g, d), Child(g, o);
      var g1 := g.(color := Red);                             // grandparent->color = RED
      assert Child(g1, d) == parent && Child(g1, o) == uncle;
      var g2 := WithChild(g1, d, parent.(color := Black));    // parent->color = BLACK
      InOrderWithChild(g1, d, parent.(color := Black));
      var g3 := WithChild(g2, o, uncle.(color := Black));     // uncle->color = BLACK
      InOrderWithChild(g2, o, uncle.(color := Black));
      InOrderReplace(root, gp, g3);
      AtPut(root, gp, g3);
      if gp != [] {
        PutRoot(root, gp, g3);
      }
      root := Put(root, gp, g3);
    }

    /**
     * The black-uncle case of fix_insert (set.cpp:174-184, 194-204): when the node is the inner
     * grandchild, rotate it up over its parent first; then rotate the grandparent down and swap
     * the colours of the two.
     */
    method InsertRotate(gp: Pos, d: Dir, side: Dir)
      requires ValidPos(root, gp + [d]) && At(root, gp + [d]).Node?
      requires Child(At(root, gp + [d]), side).Node?
      requires root.Node? && root.color == Black
      modifies this
      ensures ValidPos(root, gp) && At(root, gp).Node?
      ensures root.Node? && root.color == Black
      ensures InOrder(root) == old(InOrder(root))
    {
      var q, o := gp + [d], Other(d);
      PutChild(root, gp, d, At(root, q));
      ghost var g0 := At(root, gp);
      if side == o {
        Rotate(q, d);                          // rotate_left(parent) / rotate_right(parent)
        PutChild(old(root), gp, d, Turn(old(At(root, q)), d));
        AtPut(old(root), gp, WithChild(g0, d, Turn(old(At(root, q)), d)));
      }
      assert At(root, gp).Node? && At(root, gp).color == g0.color && Child(At(root, gp), d).Node?;
      Rotate(gp, o);                           // rotate_right(grandparent) / rotate_left(grandparent)
      SwapColors(gp, o);                       // std::swap(parent->color, grandparent->color)
    }

    /** std::swap of the colours of the node at p and of its child on side o. */
    method SwapColors(p: Pos, o: Dir)
      requires ValidPos(root, p) && At(root, p).Node? && Child(At(root, p), o).Node?
      requires p == [] ==> Child(At(root, p), o).color == Black
      requires p != [] ==> root.Node? && root.color == Black
      modifies this
      ensures ValidPos(root, p) && At(root, p).Node?
      ensures root.Node? && root.color == Black
      ensures InOrder(root) == old(InOrder(root))
    {
      var t := At(root, p);
      var c1, c2 := t.color, Child(t, o).color;
      var t1 := WithChild(t, o, Child(t, o).(color := c1));
      InOrderWithChild(t, o, Child(t, o).(color := c1));
      var t2 := t1.(color := c2);
      InOrderReplace(root, p, t2);
      AtPut(root, p, t2);
      if p != [] {
        PutRoot(root, p, t2);
      }
      root := Put(root, p, t2);
    }

    // ------------------------------------------------------------ rotations

    /** rotate_left(node): the right child takes the node's place and the node becomes its left child. */
    method RotateLeft(p: Pos)
      requires ValidPos(root, p) && At(root, p).Node? && At(root, p).right.Node?
      modifies this
      ensures root == Put(old(root), p, RotL(old(At(root, p))))
      ensures InOrder(root) == old(InOrder(root))
      ensures p != [] ==> root.Node? && root.color == old(root.color)
    {
      var t := At(root, p);
      InOrderReplace(root, p, RotL(t));
      if p != [] {
        PutRoot(root, p, RotL(t));
      }
      root := Put(root, p, RotL(t));
    }

    /** rotate_right(node): the left child takes the node's place and the node becomes its right child. */
    method RotateRight(p: Pos)
      requires ValidPos(root, p) && At(root, p).Node? && At(root, p).left.Node?
      modifies this
      ensures root == Put(old(root), p, RotR(old(At(root, p))))
      ensures InOrder(root) == old(InOrder(root))
      ensures p != [] ==> root.Node? && root.color == old(root.color)
    {
      var t := At(root, p);
      InOrderReplace(root, p, RotR(t));
      if p != [] {
        PutRoot(root, p, RotR(t));
      }
      root := Put(root, p, RotR(t));
    }

    /** rotate_left when d is L, rotate_right when d is R: the node at p goes down on side d. */
    method Rotate(p: Pos, d: Dir)
      requires ValidPos(root, p) && At(root, p).Node? && Child(At(root, p), Other(d)).Node?
      modifies this
      ensures ValidPos(old(root), p) && root == Put(old(root), p, Turn(old(At(root, p)), d))
      ensures ValidPos(root, p) && At(root, p) == Turn(old(At(root, p)), d)
      ensures InOrder(root) == old(InOrder(root))
      ensures p != [] ==> root.Node? && root.color == old(root.color)
      ensures p == [] ==> root.Node? && root.color == Child(old(root), Other(d)).color
    {
      AtPut(root, p, Turn(At(root, p), d));
      if d == L {
        RotateLeft(p);
      } else {
        RotateRight(p);
      }
    }

    // ------------------------------------------------------------ remove

    /** The search loop of remove() (set.cpp:48-63): the last node on the path holding key. */
    method FindLast(key: int) returns (z: Option<Pos>)
      ensures z == Search(root, key)
    {
      var p: Pos := [];
      z := None;
      assert Search(root, key).Some? ==> [] + Search(root, key).value == Search(root, key).value;
      while At(root, p).Node?
        invariant ValidPos(root, p)
        invariant Search(root, key) == Within(p, Search(At(root, p), key), z)
        decreases At(root, p)
      {
        var n := At(root, p);
        SearchStep(p, n, key, z);
        if n.key == key {
          z := Some(p);
        }
        var d := if n.key <= key then R else L;
        AtStep(root, p, d);
        p := p + [d];
      }
    }

    /** min_value_node(node): follow left children to the node without one. */
    method MinValueNode(p: Pos) returns (m: Pos)
      requires ValidPos(root, p) && At(root, p).Node?
      ensures ValidPos(root, m) && At(root, m).Node? && At(root, m).left.Nil?
      ensures |p| <= |m| && m == p + m[|p|..] && forall i :: |p| <= i < |m| ==> m[i] == L
      ensures At(root, m).key == InOrder(At(root, p))[0]
    {
      m := p;
      while At(root, m).left.Node?
        invariant ValidPos(root, m) && At(root, m).Node?
        invariant |p| <= |m| && m == p + m[|p|..] && forall i :: |p| <= i < |m| ==> m[i] == L
        decreases At(root, m)
      {
        AtStep(root, m, L);
        m := m + [L];
      }
      ghost var e := m[|p|..];
      LookupAppend(root, p, e);
      LeftSpineMin(At(root, p), e);
    }

    /** transplant(root, u, v): the subtree v takes the place of the node at u. */
    method Transplant(u: Pos, v: Tree)
      requires ValidPos(root, u)
      modifies this
      ensures root == Put(old(root), u, v)
      ensures InOrder(root) == Before(old(root), u) + InOrder(v) + After(old(root), u)
    {
      InOrderPut(root, u, v);
      root := Put(root, u, v);
    }

    /** transplant(z, child) for a node z with at most one child: the child takes z's place. */
    method Lift(zp: Pos, c: Tree)
      requires ValidPos(root, zp) && BlackOrNil(root)
      modifies this
      ensures ValidPos(root, zp) && At(root, zp) == c
      ensures zp == [] ==> root == c
      ensures zp != [] ==> old(root).Node? && root.Node? && root.color == old(root).color
      ensures InOrder(root) == Before(old(root), zp) + InOrder(c) + After(old(root), zp)
    {
      AtPut(root, zp, c);
      if zp != [] {
        PutRoot(root, zp, c);
      }
      Transplant(zp, c);
    }

    /**
     * Lines 70-100 of remove(): unlink the node z at zp. With at most one child, the child
     * takes z's place; with two, the minimum y of z's right subtree does, and gets z's colour.
     * x is where fix_delete starts, yColor the colour of the node that left the tree.
     */
    method Unlink(zp: Pos) returns (x: Pos, yColor: Color)
      requires ValidPos(root, zp) && At(root, zp).Node? && BlackOrNil(root)
      modifies this
      ensures ValidPos(root, x) && (x == [] || (root.Node? && root.color == Black))
      ensures InOrder(root) ==
        old(Before(root, zp) + InOrder(At(root, zp).left) + InOrder(At(root, zp).right) + After(root, zp))
      ensures old(At(root, zp)).left.Nil? ==>
        x == zp && yColor == old(At(root, zp)).color && At(root, x) == old(At(root, zp)).right
      ensures BlackOrNil(root) || yColor == Black
    {
      var z := At(root, zp);
      yColor := z.color;
      if z.left.Nil? {
        x := zp;
        Lift(zp, z.right);
      } else if z.right.Nil? {
        x := zp;
        Lift(zp, z.left);
        assert InOrder(z.right) == [];
      } else {
        x, yColor := UnlinkTwoChildren(zp);
      }
    }

    /** The two-children case of remove() (set.cpp:80-100). */
    method UnlinkTwoChildren(zp: Pos) returns (x: Pos, yColor: Color)
      requires ValidPos(root, zp) && At(root, zp).Node? && BlackOrNil(root)
      requires At(root, zp).left.Node? && At(root, zp).right.Node?
      modifies this
      ensures ValidPos(root, x) && root.Node? && root.color == Black
      ensures InOrder(root) ==
        old(Before(root, zp) + InOrder(At(root, zp).left) + InOrder(At(root, zp).right) + After(root, zp))
    {
      ghost var root0 := root;
      var z := At(root, zp);
      AtStep(root, zp, R);
      var ypos := MinValueNode(zp + [R]);
      var y := At(root, ypos);
      yColor := y.color;
      ghost var e := ypos[|zp| + 1..];
      assert ypos == (zp + [R]) + e;
      LookupAppend(root, zp + [R], e);
      assert forall i :: 0 <= i < |e| ==> e[i] == L;
      assert At(z.right, e) == y;
      ghost var m := Node(z.color, z.left, y.key, Put(z.right, e, y.right));
      SpliceMinKeys(z, e);
      SpliceMinPos(z, e);
      if ypos == zp + [R] {
        // y->parent == z: y keeps its right subtree
        x := zp + [R];
        assert e == [];
      } else {
        PutSplit(root, zp + [R], e, y.right);
        PutChild(root, zp, R, Put(z.right, e, y.right));
        AtPut(root, zp, WithChild(z, R, Put(z.right, e, y.right)));
        PutPut(root, zp, WithChild(z, R, Put(z.right, e, y.right)), m);
        Transplant(ypos, y.right);                 // transplant(root_, y, y->right)
        AtStep(root, zp, R);
        y := y.(right := At(root, zp + [R]));     // y->right = z->right
        x := ypos;
      }
      // transplant(root_, z, y), then y->left = z->left and y->color = z->color
      Transplant(zp, Node(z.color, z.left, y.key, y.right));
      assert root == Put(root0, zp, m);
      assert InOrder(root) == Before(root0, zp) + (InOrder(z.left) + InOrder(z.right)) + After(root0, zp) by {
        InOrderPut(root0, zp, m);
      }
      Regroup(Before(root0, zp), InOrder(z.left), InOrder(z.right), After(root0, zp));
      LookupPutBelow(root0, zp, m, [R] + e);
      assert x == zp + ([R] + e);
      if zp != [] {
        PutRoot(root0, zp, m);
      }
    }

    /**
     * fix_delete(node): while the node is black and not the root, recolour and rotate around
     * its parent and sibling. As written, a null node is dereferenced; with `sentinel` a null
     * node reads as black and is skipped by the final recolouring, as a sentinel leaf would be.
     * A null sibling, which a balanced tree never has, still ends as `Crashed(NilSibling)`.
     */
    method FixDelete(x: Pos, sentinel: bool) returns (crash: Option<Crash>)
      requires ValidPos(root, x)
      requires x == [] || (root.Node? && root.color == Black)
      modifies this
      ensures InOrder(root) == old(InOrder(root))
      ensures crash.None? ==> BlackOrNil(root)
      ensures sentinel ==> crash != Some(NilNode)
      ensures !sentinel && old(At(root, x)).Nil? ==> crash == Some(NilNode)
      ensures x == [] && old(root).Nil? ==> root == old(root) && crash == (if sentinel then None else Some(NilNode))
    {
      var n := x;
      while n != [] && BlackOrNil(At(root, n))
        invariant ValidPos(root, n)
        invariant x == [] ==> n == [] && root == old(root)
        invariant n == [] || (root.Node? && root.color == Black)
        invariant InOrder(root) == old(InOrder(root))
        invariant !sentinel && old(At(root, x)).Nil? ==> n == x && root == old(root)
        decreases |n| + (if BlackOrNil(At(root, n)) then 1 else 0)
      {
        if At(root, n).Nil? && !sentinel {
          return Some(NilNode);                  // node->color of a null node (set.cpp:213)
        }
        ParentPos(root, n);
        var pp, d := n[..|n| - 1], n[|n| - 1];
        var o := Other(d);
        if Child(At(root, pp), o).Nil? {
          return Some(NilSibling);               // sibling->color (set.cpp:216, 250)
        }
        if Child(At(root, pp), o).color == Red {
          DeleteCase1(pp, d);
          pp := pp + [d];
          if Child(At(root, pp), o).Nil? {
            return Some(NilSibling);             // sibling->left (set.cpp:223, 257)
          }
        }
        var s := Child(At(root, pp), o);
        if BlackOrNil(s.left) && BlackOrNil(s.right) {
          DeleteCase2(pp, o);
          n := pp;
        } else {
          if BlackOrNil(Child(s, o)) {
            DeleteCase3(pp, d);
          }
          DeleteCase4(pp, d);
          n := [];
        }
      }
      if At(root, n).Nil? {
        if !sentinel {
          return Some(NilNode);                  // node->color = BLACK on a null node (set.cpp:285)
        }
      } else {
        var t := At(root, n).(color := Black);   // node->color = BLACK
        InOrderReplace(root, n, t);
        if n != [] {
          PutRoot(root, n, t);
        }
        root := Put(root, n, t);
      }
      crash := None;
    }

    /**
     * remove(key): find the last node holding key, unlink it, and repair the colours when a
     * black node left the tree. `sentinel` selects how fix_delete treats a null node.
     */
    method RemoveWith(key: int, sentinel: bool) returns (r: Removal)
      requires Valid()
      modifies this
      ensures r == NotFound <==> key !in old(Keys())
      ensures r == NotFound ==> root == old(root)
      ensures r == Removed ==> Valid() && exists i :: (0 <= i < |old(Keys())| && old(Keys())[i] == key &&
        Keys() == old(Keys())[..i] + old(Keys())[i + 1..])
      ensures sentinel ==> r != Crashed(NilNode)
      ensures old(root).Node? && old(root).left.Nil? && old(root).right.Nil? && old(root).key == key ==>
        r == (if sentinel then Removed else Crashed(NilNode)) && (sentinel ==> root == Nil)
    {
      ghost var single := root.Node? && root.left.Nil? && root.right.Nil? && root.key == key;
      var z := FindLast(key);
      SearchFinds(root, key);
      assert single ==> z == Some([]);
      if z.None? {
        return NotFound;                        // "Key not found in the tree" (set.cpp:65-68)
      }
      r := RemoveFound(z.value, key, sentinel);
    }

    /** The part of remove(key) after the node at `zp` holding key was found. */
    method RemoveFound(zp: Pos, key: int, sentinel: bool) returns (r: Removal)
      requires Valid() && ValidPos(root, zp) && At(root, zp).Node? && At(root, zp).key == key
      requires root.Node? && root.left.Nil? && root.right.Nil? && root.key == key ==> zp == []
      modifies this
      ensures r != NotFound
      ensures r == Removed ==> Valid() && exists i :: (0 <= i < |old(Keys())| && old(Keys())[i] == key &&
        Keys() == old(Keys())[..i] + old(Keys())[i + 1..])
      ensures sentinel ==> r != Crashed(NilNode)
      ensures old(root).Node? && old(root).left.Nil? && old(root).right.Nil? && old(root).key == key ==>
        r == (if sentinel then Removed else Crashed(NilNode)) && (sentinel ==> root == Nil)
    {
      ghost var keys := InOrder(root);
      ghost var single := root.Node? && root.left.Nil? && root.right.Nil? && root.key == key;
      ghost var zn := At(root, zp);
      ghost var b, a := Before(root, zp), After(root, zp);
      assert keys == b + (InOrder(zn.left) + [key] + InOrder(zn.right)) + a by {
        InOrderSplit(root, zp);
      }
      ghost var i := RemovedAt(keys, b, InOrder(zn.left), key, InOrder(zn.right), a);
      var x, yColor := Unlink(zp);
      assert Keys() == keys[..i] + keys[i + 1..];
      SortedRemove(keys, i);
      assert single ==> x == [] && yColor == Black && root == Nil;
      if yColor == Black {
        var crash := FixDelete(x, sentinel);
        if crash.Some? {
          return Crashed(crash.value);
        }
      }
      assert keys == old(Keys());
      assert 0 <= i < |old(Keys())| && old(Keys())[i] == key && Keys() == old(Keys())[..i] + old(Keys())[i + 1..];
      return Removed;
    }

    /** remove(key) as written: removing the only key of the set dereferences a null node. */
    method Remove(key: int) returns (r: Removal)
      requires Valid()
      modifies this
      ensures r == NotFound <==> key !in old(Keys())
      ensures r == NotFound ==> root == old(root)
      ensures r == Removed ==> Valid() && exists i :: (0 <= i < |old(Keys())| && old(Keys())[i] == key &&
        Keys() == old(Keys())[..i] + old(Keys())[i + 1..])
      ensures old(root).Node? && old(root).left.Nil? && old(root).right.Nil? && old(root).key == key ==>
        r == Crashed(NilNode)
    {
      r := RemoveWith(key, false);
    }

    /**
     * remove(key) with fix_delete reading a null node as a black leaf: it never dereferences a
     * null node; a null sibling, which a balanced tree never has, still ends as `Crashed(NilSibling)`.
     */
    method RemoveCorrected(key: int) returns (r: Removal)
      requires Valid()
      modifies this
      ensures r == NotFound <==> key !in old(Keys())
      ensures r == NotFound ==> root == old(root)
      ensures r == Removed ==> Valid() && exists i :: (0 <= i < |old(Keys())| && old(Keys())[i] == key &&
        Keys() == old(Keys())[..i] + old(Keys())[i + 1..])
      ensures r != Crashed(NilNode)
      ensures old(root).Node? && old(root).left.Nil? && old(root).right.Nil? && old(root).key == key ==>
        r == Removed && Keys() == []
    {
      r := RemoveWith(key, true);
    }

    /** Case 1 of fix_delete, a red sibling (set.cpp:216-221, 250-255): recolour, rotate the parent down on the node's side. */
    method DeleteCase1(pp: Pos, d: Dir)
      requires ValidPos(root, pp) && At(root, pp).Node?
      requires Child(At(root, pp), Other(d)).Node? && Child(At(root, pp), Other(d)).color == Red
      requires root.Node? && root.color == Black
      modifies this
      ensures ValidPos(root, pp + [d]) && At(root, pp + [d]).Node? && At(root, pp + [d]).color == Red
      ensures ValidPos(root, pp + [d] + [d])
      ensures root.Node? && root.color == Black
      ensures InOrder(root) == old(InOrder(root))
    {
      var par := At(root, pp);
      var o := Other(d);
      var sib := Child(par, o);
      var p1 := WithChild(par, o, sib.(color := Black));     // sibling->color = BLACK
      InOrderWithChild(par, o, sib.(color := Black));
      var p2 := p1.(color := Red);                           // node->parent->color = RED
      assert Child(p2, o) == sib.(color := Black);
      InOrderReplace(root, pp, p2);
      AtPut(root, pp, p2);
      if pp != [] {
        PutRoot(root, pp, p2);
      }
      root := Put(root, pp, p2);
      Rotate(pp, d);                                         // rotate_left / rotate_right (node->parent)
      AtStep(root, pp, d);
      AtStep(root, pp + [d], d);
    }

    /** Case 2 of fix_delete, a sibling with two black children (set.cpp:223-227, 257-261): the sibling turns red. */
    method DeleteCase2(pp: Pos, o: Dir)
      requires ValidPos(root, pp) && At(root, pp).Node? && Child(At(root, pp), o).Node? && root.Node?
      modifies this
      ensures ValidPos(root, pp) && At(root, pp).Node? && At(root, pp).color == old(At(root, pp)).color
      ensures root.Node? && root.color == old(root).color
      ensures InOrder(root) == old(InOrder(root))
    {
      var par := At(root, pp);
      var sib := Child(par, o);
      var p1 := WithChild(par, o, sib.(color := Red));       // sibling->color = RED
      InOrderWithChild(par, o, sib.(color := Red));
      InOrderReplace(root, pp, p1);
      AtPut(root, pp, p1);
      if pp != [] {
        PutRoot(root, pp, p1);
      }
      root := Put(root, pp, p1);
    }

    /**
     * Case 3 of fix_delete, the far child of the sibling black (set.cpp:229-237, 263-271):
     * recolour and rotate the sibling away from the node. On the left side the source paints
     * the near child red (line 231), on the right side black (line 265).
     */
    method DeleteCase3(pp: Pos, d: Dir)
      requires ValidPos(root, pp) && At(root, pp).Node?
      requires Child(At(root, pp), Other(d)).Node? && Child(Child(At(root, pp), Other(d)), d).Node?
      requires root.Node? && root.color == Black
      modifies this
      ensures ValidPos(root, pp) && At(root, pp).Node? && At(root, pp).color == old(At(root, pp)).color
      ensures Child(At(root, pp), Other(d)).Node?
      ensures root.Node? && root.color == Black
      ensures InOrder(root) == old(InOrder(root))
    {
      ghost var root0 := root;
      var o := Other(d);
      var sp := pp + [o];
      AtStep(root, pp, o);
      var s := At(root, sp);
      var near := Child(s, d);
      var s1 := s;
      if near.Node? {
        s1 := WithChild(s, d, near.(color := if d == L then Red else Black));
        InOrderWithChild(s, d, near.(color := if d == L then Red else Black));
      }
      var s2 := s1.(color := Red);                           // sibling->color = RED
      assert Child(s2, d) == Child(s1, d);
      InOrderReplace(root, sp, s2);
      PutChild(root, pp, o, s2);
      AtPut(root, pp, WithChild(At(root, pp), o, s2));
      root := Put(root, sp, s2);
      ghost var root1 := root;
      Rotate(sp, o);                                         // rotate_right / rotate_left (sibling)
      PutChild(root1, pp, o, Turn(s2, o));
      AtPut(root1, pp, WithChild(At(root1, pp), o, Turn(s2, o)));
      PutRoot(root0, sp, s2);
      PutRoot(root1, sp, Turn(s2, o));
    }

    /**
     * Case 4 of fix_delete (set.cpp:239-246, 273-280): the sibling takes the parent's colour,
     * the parent and the sibling's far child turn black, and the parent goes down on the
     * node's side.
     */
    method DeleteCase4(pp: Pos, d: Dir)
      requires ValidPos(root, pp) && At(root, pp).Node? && Child(At(root, pp), Other(d)).Node?
      requires root.Node? && root.color == Black
      modifies this
      ensures root.Node? && root.color == Black
      ensures InOrder(root) == old(InOrder(root))
    {
      var par := At(root, pp);
      var o := Other(d);
      var s := Child(par, o);
      var s1 := s.(color := par.color);                      // sibling->color = node->parent->color
      var p1 := par.(color := Black);                        // node->parent->color = BLACK
      var s2 := s1;
      if Child(s1, o).Node? {
        s2 := WithChild(s1, o, Child(s1, o).(color := Black)); // far child->color = BLACK
        InOrderWithChild(s1, o, Child(s1, o).(color := Black));
      }
      assert Child(p1, o) == s;
      var p2 := WithChild(p1, o, s2);
      InOrderWithChild(p1, o, s2);
      InOrderReplace(root, pp, p2);
      AtPut(root, pp, p2);
      if pp != [] {
        PutRoot(root, pp, p2);
      }
      root := Put(root, pp, p2);
      Rotate(pp, d);                                         // rotate_left / rotate_right (node->parent)
    }
  }

  /** The position insert() stops at splits the keys at an index that respects the order. */
  lemma {:induction false} InsertedAt(keys: seq<int>, b: seq<int>, a: seq<int>, key: int) returns (i: nat)
    requires keys == b + a
    requires forall x :: x in b ==> x <= key
    requires forall x :: x in a ==> key < x
    ensures i <= |keys| && b + [key] + a == keys[..i] + [key] + keys[i..]
    ensures forall j :: 0 <= j < i ==> keys[j] <= key
    ensures forall j :: i <= j < |keys| ==> key < keys[j]
  {
    i := |b|;
    assert keys[..|b|] == b && keys[|b|..] == a;
    forall j | 0 <= j < |b| ensures keys[j] <= key {
      assert keys[j] == b[j] && b[j] in b;
    }
    forall j | |b| <= j < |keys| ensures key < keys[j] {
      assert keys[j] == a[j - |b|] && a[j - |b|] in a;
    }
  }

  /** Dropping the key of the unlinked node: its index is the number of keys left of it. */
  lemma {:induction false} RemovedAt(keys: seq<int>, b: seq<int>, l: seq<int>, key: int, r: seq<int>, a: seq<int>)
    returns (i: nat)
    requires keys == b + (l + [key] + r) + a
    ensures i < |keys| && keys[i] == key && keys[..i] + keys[i + 1..] == b + l + r + a
  {
    i := |b| + |l|;
    assert keys == (b + l) + [key] + (r + a);
    assert keys[..i] == b + l && keys[i + 1..] == r + a;
  }

  /** z, or the position of the search continued below p. */
  function Within(p: Pos, below: Option<Pos>, z: Option<Pos>): Option<Pos>
  {
    if below.Some? then Some(p + below.value) else z
  }

  /** One step of remove()'s search loop keeps the result of the whole search. */
  lemma {:induction false} SearchStep(p: Pos, n: Tree, key: int, z: Option<Pos>)
    requires n.Node?
    ensures var d := if n.key <= key then R else L;
      Within(p, Search(n, key), z) ==
      Within(p + [d], Search(Child(n, d), key), if n.key == key then Some(p) else z)
  {
    var d := if n.key <= key then R else L;
    var below := Search(Child(n, d), key);
    if below.Some? {
      assert p + ([d] + below.value) == (p + [d]) + below.value;
    } else {
      assert p + [] == p;
    }
  }
}
