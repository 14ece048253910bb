/** The red-black tree operations: augmented propagation, insertion and erasure,
    as loops that change the pool of a tree in place. */
module RbOps {
  import opened RbTree
  import opened RbRotate
  import opened RbInsert
  import opened RbErase

  // ---- propagation

  /** Same links everywhere, same values outside xs. */
  ghost predicate ValuesOnly(m: Pool, m': Pool, xs: set<Ptr>) {
    && m'.Keys == m.Keys
    && (forall x :: x in m ==> SameLinks(m, m', x))
    && (forall x :: x in m && x !in xs ==> m'[x] == m[x])
  }

  lemma ValuesOnlyRep(m: Pool, m': Pool, xs: set<Ptr>, t: Tree, par: Ptr)
    requires ValuesOnly(m, m', xs) && Rep(m, t, par)
    ensures Rep(m', t, par)
  {
    RepInPool(m, t, par);
    RepFrame(m, m', t, par);
  }

  /** Correcting one node's value can only upset its parent. */
  lemma PropagateStep(m: Pool, m': Pool, own: Own, t: Tree, stop: Ptr, x: Ptr)
    requires Rep(m, t, stop) && Uniq(t) && x in Ids(t) && AllLocal(m, own, Ids(t) - {x}) && x in m
    requires m' == m[x := m[x].(gap := Compute(m, own, x))]
    ensures AllLocal(m', own, Ids(t) - {m[x].parent})
  {
    RepParents(m, t, stop);
    Climb(m, t, stop, x);
    forall y | y in Ids(t) - {m[x].parent} ensures LocalOk(m', own, y) {
      assert m[y].Child(L) != NULL ==> m[m[y].Child(L)].parent == y;
      assert m[y].Child(R) != NULL ==> m[m[y].Child(R)].parent == y;
      if y == x {
        assert m[x].Child(L) != x && m[x].Child(R) != x;
      } else {
        assert LocalOk(m, own, y);
        assert m[y].Child(L) != x && m[y].Child(R) != x;
      }
    }
  }

  lemma OneSided(b: seq<Ptr>, h: seq<Ptr>, e: seq<Ptr>)
    ensures InOrder(Leaf) == []
    ensures (b + []) + (h + e) == b + h + e && (b + h) + ([] + e) == b + h + e
  {
  }

  lemma KeepColor(m: Pool, t: Tree, par: Ptr)
    requires Rep(m, t, par)
    ensures Red(t) <==> Root(t) != NULL && Root(t) in m && m[Root(t)].red
    ensures Recolor(t, Red(t)) == t
  {
  }

  lemma SplicedParts(m: Pool, c: Ctx, a: Tree, y: Ptr, cx: bool, k: Ctx, h': Tree)
    requires Rep(m, Node(a, y, cx, Fill(k, h')), CtxParent(c)) && RepCtx(m, c, y)
      && Uniq(Fill(c, Node(a, y, cx, Fill(k, h'))))
    ensures var b', whole := Fill(k, h'), Fill(c, Node(a, y, cx, Fill(k, h')));
            && y !in Ids(b') && Uniq(b') && Rep(m, b', y) && Ids(b') <= Ids(whole) && y in Ids(whole)
            && (k.In? ==> k.p in Ids(b')) && Rep(m, whole, NULL)
  {
    FillUniq(c, Node(a, y, cx, Fill(k, h')));
    FillIds(c, Node(a, y, cx, Fill(k, h')));
    FillIds(k, h');
    FillRep(m, c, Node(a, y, cx, Fill(k, h')));
  }

  /** A subtree without a parent is the whole tree. */
  lemma AtParent(m: Pool, root: Ptr, own: Own, c: Ctx, t: Tree)
    requires At(m, root, own, c, t) && t.Node?
    ensures t.p in m && m[t.p].parent == CtxParent(c) && (CtxParent(c) == NULL ==> c.Top?)
  {
  }

  class RbRoot {
    var nodes: Pool
    var root: Ptr

    constructor ()
      ensures nodes == map[] && root == NULL
    {
      nodes, root := map[], NULL;
    }

    /** Recomputes values upwards from x until one is already right or stop is
        reached. t is the tree whose top hangs below stop. */
    method Propagate(own: Own, x: Ptr, stop: Ptr, ghost t: Tree)
      requires Rep(nodes, t, stop) && Uniq(t) && stop !in Ids(t)
      requires x == stop || x in Ids(t)
      requires AllLocal(nodes, own, Ids(t) - {x})
      modifies this`nodes
      ensures ValuesOnly(old(nodes), nodes, Ids(t)) && AllLocal(nodes, own, Ids(t))
    {
      var rb := x;
      assert forall y :: y in nodes ==> SameLinks(nodes, nodes, y);
      while rb != stop
        invariant rb == stop || rb in Ids(t)
        invariant ValuesOnly(old(nodes), nodes, Ids(t))
        invariant Rep(nodes, t, stop) && AllLocal(nodes, own, Ids(t) - {rb})
        decreases if rb == stop then 0 else 1, if rb == stop then 0 else Depth(t, rb)
      {
        Climb(nodes, t, stop, rb);
        var value := Compute(nodes, own, rb);
        if nodes[rb].gap == value {
          assert LocalOk(nodes, own, rb);
          return;
        }
        ghost var m := nodes;
        nodes := nodes[rb := nodes[rb].(gap := value)];
        PropagateStep(m, nodes, own, t, stop, rb);
        ValuesOnlyRep(m, nodes, Ids(t), t, stop);
        rb := nodes[rb].parent;
      }
    }

    /** Cases 2 and 3 of the insertion: the uncle is black, s is the parent's
        side, and one or two rotations settle the matter. */
    method InsertRotate(own: Own, node: Ptr, parent: Ptr, gparent: Ptr, s: Side,
                        ghost c: Ctx, ghost f: Tree) returns (ghost t: Tree)
      requires At(nodes, root, own, c, f) && Fixing(c, f) && CtxRed(c) && c.up.In?
      requires c.up.s == s && f.p == node && c.p == parent && c.up.p == gparent && !Red(c.up.sib)
      modifies this
      ensures At(nodes, root, own, Top, t) && RedBlack(t)
      ensures InOrder(t) == InOrder(Fill(c, f)) && nodes.Keys == old(nodes.Keys)
    {
      hide At, InOrder, RedBlack, RotateUp;
      FamilyPointers(nodes, root, own, c, f);
      ghost var c2, sib, u := c.up.up, c.sib, c.up.sib;
      if node == nodes[parent].Child(s.Opp()) {
        // case 2: rotate at the parent
        ghost var b, d := f.Sub(s), f.Sub(s.Opp());
        assert f == Mk(s, b, node, true, d);
        InnerOk(nodes, root, own, c2, s, b, node, d, parent, sib, gparent, u);
        RotateUpOk(nodes, root, own, c.up, s.Opp(), d, node, b, parent, true, sib, false, true);
        var inner := nodes[node].Child(s);
        var (m1, r1) := RotateUp(nodes, root, own, s.Opp(), parent, node, inner, false, true);
        // case 3: rotate at the grandparent
        InnerToOuter(m1, r1, own, c2, s, b, node, d, parent, sib, gparent, u);
        ghost var a' := Mk(s, sib, parent, true, Recolor(b, false));
        RotateUpOk(m1, r1, own, c2, s, a', node, d, gparent, false, u, false, true);
        nodes, root := RotateUp(m1, r1, own, s, gparent, node, m1[node].Child(s.Opp()), false, true).0,
                       RotateUp(m1, r1, own, s, gparent, node, m1[node].Child(s.Opp()), false, true).1;
        t := Fill(c2, Rotated(s, a', node, d, gparent, false, u, false, true));
        InnerRules(c2, s, b, node, d, parent, sib, gparent, u);
        AtRefocus(nodes, root, own, c2, Rotated(s, a', node, d, gparent, false, u, false, true), Top, t);
      } else {
        // case 3: rotate at the grandparent
        OuterOk(nodes, root, own, c2, s, f, parent, sib, gparent, u);
        RotateUpOk(nodes, root, own, c2, s, f, parent, sib, gparent, false, u, false, true);
        var (m1, r1) := RotateUp(nodes, root, own, s, gparent, parent, nodes[parent].Child(s.Opp()), false, true);
        nodes, root := m1, r1;
        t := Fill(c2, Rotated(s, f, parent, sib, gparent, false, u, false, true));
        OuterRules(c2, s, f, parent, sib, gparent, u);
        AtRefocus(nodes, root, own, c2, Rotated(s, f, parent, sib, gparent, false, u, false, true), Top, t);
      }
    }

    /** Rebalances after node, red and childless, was linked at the hole of c0. */
    method InsertColor(own: Own, node0: Ptr, ghost c0: Ctx) returns (ghost t: Tree)
      requires At(nodes, root, own, c0, Node(Leaf, node0, true, Leaf)) && CtxOk(c0, 0)
      modifies this
      ensures At(nodes, root, own, Top, t) && RedBlack(t)
      ensures InOrder(t) == InOrder(Fill(c0, Node(Leaf, node0, true, Leaf)))
      ensures nodes.Keys == old(nodes.Keys)
    {
      var node := node0;
      var parent := nodes[node].parent;
      ghost var c, f := c0, Node(Leaf, node0, true, Leaf);
      while parent != NULL && nodes[parent].red
        invariant At(nodes, root, own, c, f) && Fixing(c, f) && nodes.Keys == old(nodes.Keys)
        invariant f.p == node && parent == CtxParent(c)
        invariant InOrder(Fill(c, f)) == InOrder(Fill(c0, Node(Leaf, node0, true, Leaf)))
        decreases c
      {
        FamilyPointers(nodes, root, own, c, f);
        var gparent := nodes[parent].parent;
        var s := if nodes[gparent].right != parent then L else R;
        var uncle := nodes[gparent].Child(s.Opp());
        if uncle == NULL || !nodes[uncle].red {
          t := InsertRotate(own, node, parent, gparent, s, c, f);
          return;
        }
        // case 1: flip colours and go on at the grandparent
        ghost var c2, u := c.up.up, c.up.sib;
        AtRefocus(nodes, root, own, c, f, c2, Mk(s, Mk(c.s, f, parent, true, c.sib), gparent, false, u));
        FlipOk(nodes, root, own, c2, s, c.s, f, parent, c.sib, gparent, u);
        FlipRules(c2, s, c.s, f, parent, c.sib, gparent, u);
        nodes := FlipColors(nodes, uncle, parent, gparent);
        f := Mk(s, Mk(c.s, f, parent, false, c.sib), gparent, true, Recolor(u, false));
        c := c2;
        node := gparent;
        parent := nodes[node].parent;
      }
      if parent == NULL {
        // the root: paint it black
        BlackRoot(nodes, root, own, f);
        nodes := SetParentColor(nodes, node, NULL, false);
        t := Recolor(f, false);
      } else {
        FillRedBlack(c, f);
        t := Fill(c, f);
        AtRefocus(nodes, root, own, c, f, Top, t);
      }
    }

    /** Erase case 1: the sibling is red and moves over the parent, which turns
        red; the hole gets a black sibling. */
    method RotateRedSibling(own: Own, parent: Ptr, sibling: Ptr, s: Side, ghost c: Ctx, ghost f: Tree)
      returns (ghost c': Ctx)
      requires At(nodes, root, own, c, f) && Short(c, f) && c.sib.red
      requires c.s == s && c.p == parent && c.sib.p == sibling
      modifies this
      ensures At(nodes, root, own, c', f) && Short(c', f) && c'.p == parent && c'.s == s && c'.red && !c'.sib.red
      ensures InOrder(Fill(c', f)) == InOrder(Fill(c, f)) && nodes.Keys == old(nodes.Keys)
    {
      hide At, InOrder, RedBlack, RotateUp;
      ShortSibling(c, f);
      ShortPointers(nodes, root, own, c, f);
      SiblingReady(nodes, root, own, c, f);
      ghost var inner, outer := c.sib.Sub(s), c.sib.Sub(s.Opp());
      RotateUpOk(nodes, root, own, c.up, s.Opp(), outer, sibling, inner, parent, c.red, f, false, true);
      var (m1, r1) := RotateUp(nodes, root, own, s.Opp(), parent, sibling, nodes[sibling].Child(s), false, true);
      nodes, root := m1, r1;
      SiblingRotated(nodes, root, own, c.up, s, outer, sibling, inner, parent, c.red, f, false, true);
      RedSiblingRules(c.up, s, parent, sibling, inner, outer, f);
      c' := In(In(c.up, s, sibling, c.red, outer), s, parent, true, Recolor(inner, false));
    }

    /** Erase case 3: the inner nephew moves over the sibling. */
    method RotateInnerNephew(own: Own, sibling: Ptr, inner: Ptr, s: Side, ghost c: Ctx, ghost f: Tree)
      returns (ghost c': Ctx)
      requires At(nodes, root, own, c, f) && Short(c, f) && !c.sib.red && c.s == s && c.sib.p == sibling
      requires Red(c.sib.Sub(s)) && c.sib.Sub(s).p == inner && !Red(c.sib.Sub(s.Opp()))
      modifies this
      ensures At(nodes, root, own, c', f) && Short(c', f) && c'.p == c.p && c'.s == s && c'.sib.Node?
      ensures c'.sib.p == inner && !c'.sib.red && Red(c'.sib.Sub(s.Opp())) && c'.sib.Sub(s.Opp()).p == sibling
      ensures InOrder(Fill(c', f)) == InOrder(Fill(c, f)) && nodes.Keys == old(nodes.Keys)
    {
      hide At, InOrder, RedBlack, RotateUp;
      ShortSibling(c, f);
      ShortPointers(nodes, root, own, c, f);
      NephewReady(nodes, root, own, c, f);
      ghost var it, outer, cs := c.sib.Sub(s), c.sib.Sub(s.Opp()), In(c.up, s.Opp(), c.p, c.red, f);
      ghost var ii, io := it.Sub(s), it.Sub(s.Opp());
      RotateUpOk(nodes, root, own, cs, s, ii, inner, io, sibling, false, outer, false, true);
      var (m1, r1) := RotateUp(nodes, root, own, s, sibling, inner, nodes[inner].Child(s.Opp()), false, true);
      nodes, root := m1, r1;
      ghost var sib' := Rotated(s, ii, inner, io, sibling, false, outer, false, true);
      NephewRotated(nodes, root, own, c.up, s, c.p, c.red, f, sib');
      assert it == Mk(s, ii, inner, true, io);
      InnerNephewRules(c.up, s, c.p, c.red, sibling, ii, inner, io, outer, f);
      c' := In(c.up, s, c.p, c.red, sib');
    }

    /** Erase case 4: the outer nephew turns black and the sibling moves over the
        parent, taking its colour. */
    method RotateBlackSibling(own: Own, parent: Ptr, sibling: Ptr, outer: Ptr, s: Side, ghost c: Ctx, ghost f: Tree)
      returns (ghost t: Tree)
      requires At(nodes, root, own, c, f) && Short(c, f) && !c.sib.red && c.s == s && c.p == parent
      requires c.sib.p == sibling && Red(c.sib.Sub(s.Opp())) && c.sib.Sub(s.Opp()).p == outer
      modifies this
      ensures At(nodes, root, own, Top, t) && RedBlack(t)
      ensures InOrder(t) == InOrder(Fill(c, f)) && nodes.Keys == old(nodes.Keys)
    {
      hide At, InOrder, RedBlack, RotateUp;
      ShortSibling(c, f);
      OuterNephewBlack(nodes, root, own, c, f);
      ghost var it, ot := c.sib.Sub(s), c.sib.Sub(s.Opp());
      nodes := SetParentColor(nodes, outer, sibling, false);
      LastReady(nodes, root, own, c.up, s, parent, c.red, it, sibling, Recolor(ot, false), f);
      var inner := nodes[sibling].Child(s);
      var keep := inner != NULL && nodes[inner].red;
      assert keep == Red(it) && Recolor(it, keep) == it by { KeepColor(nodes, it, sibling); }
      RotateUpOk(nodes, root, own, c.up, s.Opp(), Recolor(ot, false), sibling, it, parent, c.red, f, keep, false);
      var (m1, r1) := RotateUp(nodes, root, own, s.Opp(), parent, sibling, inner, keep, false);
      nodes, root := m1, r1;
      SiblingRotated(nodes, root, own, c.up, s, Recolor(ot, false), sibling, it, parent, c.red, f, keep, false);
      OuterNephewRules(c.up, s, parent, c.red, sibling, it, ot, f);
      ghost var rot := Rotated(s.Opp(), Recolor(ot, false), sibling, it, parent, c.red, f, keep, false);
      t := Fill(c.up, rot);
      AtRefocus(nodes, root, own, c.up, rot, Top, t);
    }

    /** Rebalances a hole, so far empty, that is one black node short. */
    method EraseColor(own: Own, parent0: Ptr, ghost c0: Ctx) returns (ghost t: Tree)
      requires At(nodes, root, own, c0, Leaf) && Short(c0, Leaf) && c0.p == parent0
      modifies this
      ensures At(nodes, root, own, Top, t) && RedBlack(t)
      ensures InOrder(t) == InOrder(Fill(c0, Leaf)) && nodes.Keys == old(nodes.Keys)
    {
      hide At, InOrder;
      var node, parent := NULL, parent0;
      ghost var c, f := c0, Leaf;
      while true
        invariant At(nodes, root, own, c, f) && Short(c, f) && nodes.Keys == old(nodes.Keys)
        invariant Root(f) == node && c.p == parent && InOrder(Fill(c, f)) == InOrder(Fill(c0, Leaf))
        decreases c
      {
        ShortPointers(nodes, root, own, c, f);
        var s := if node != nodes[parent].right then L else R;
        var sibling := nodes[parent].Child(s.Opp());
        ghost var c1 := c;
        if nodes[sibling].red {
          c1 := RotateRedSibling(own, parent, sibling, s, c, f);
          ShortSibling(c1, f);
          ShortPointers(nodes, root, own, c1, f);
          sibling := nodes[parent].Child(s.Opp());
        }
        var outer, inner := nodes[sibling].Child(s.Opp()), nodes[sibling].Child(s);
        if outer != NULL && nodes[outer].red {
          t := RotateBlackSibling(own, parent, sibling, outer, s, c1, f);
          return;
        }
        if inner != NULL && nodes[inner].red {
          ghost var c2 := RotateInnerNephew(own, sibling, inner, s, c1, f);
          t := RotateBlackSibling(own, parent, inner, sibling, s, c2, f);
          return;
        }
        // case 2: flip the sibling's colour
        FlipSiblingOk(nodes, root, own, c1, f);
        FlipSiblingRules(c1, f);
        nodes := SetParentColor(nodes, sibling, parent, true);
        ghost var f1 := Mk(s, f, parent, c1.red, Recolor(c1.sib, true));
        if nodes[parent].red {
          nodes := SetParentColor(nodes, parent, nodes[parent].parent, false);
          ghost var f2 := Mk(s, f, parent, false, Recolor(c1.sib, true));
          t := Fill(c1.up, f2);
          AtRefocus(nodes, root, own, c1.up, f2, Top, t);
          return;
        }
        AtParent(nodes, root, own, c1.up, f1);
        node, parent := parent, nodes[parent].parent;
        if parent == NULL {
          t := f1;
          AtRefocus(nodes, root, own, c1.up, f1, Top, t);
          return;
        }
        c, f := c1.up, f1;
      }
    }

    /** Makes one node's value right, and with it all values above. */
    method Settle(own: Own, x: Ptr, ghost t: Tree, ghost wrong: set<Ptr>)
      requires AtBut(nodes, root, own, Top, t, wrong) && wrong * Ids(t) <= {x} && (x == NULL || x in Ids(t))
      modifies this`nodes
      ensures At(nodes, root, own, Top, t) && nodes.Keys == old(nodes.Keys)
      ensures ValuesOnly(old(nodes), nodes, Ids(t))
    {
      RepInPool(nodes, t, NULL);
      ghost var m := nodes;
      assert Ids(t) - {x} <= Ids(t) - wrong;
      Propagate(own, x, NULL, t);
      ValuesOnlyRep(m, nodes, Ids(t), t, NULL);
    }

    /** Erases a node with at most one child; s is the side without one. */
    method EraseOneChild(own: Own, node: Ptr, child: Ptr, s: Side, ghost c: Ctx, ghost cx: bool, ghost h: Tree)
      returns (ghost t: Tree)
      requires AtBut(nodes, root, own, c, Mk(s, Leaf, node, cx, h), {node}) && child == Root(h)
      requires RedBlack(Fill(c, Mk(s, Leaf, node, cx, h)))
      modifies this
      ensures At(nodes, root, own, Top, t) && RedBlack(t) && nodes.Keys == old(nodes.Keys)
      ensures InOrder(t) == Before(c) + InOrder(h) + Behind(c)
    {
      ghost var h', whole := Recolor(h, cx), Fill(c, Recolor(h, cx));
      UnlinkOk(nodes, root, own, c, s, node, cx, h, {node});
      UnlinkOrder(c, s, node, cx, h);
      UnlinkRules(c, s, node, cx, h);
      UnlinkPointers(nodes, root, c, s, node, cx, h);
      var parent, red := nodes[node].parent, nodes[node].red;
      var (m1, r1) := Unlink(nodes, root, node, child);
      nodes, root := m1, r1;
      UnlinkNodes(c, s, node, cx, h);
      FillRep(nodes, c, h');
      Settle(own, parent, whole, {node} + {parent});
      t := whole;
      if child == NULL && !red && parent != NULL {
        AtRefocus(nodes, root, own, Top, whole, c, Leaf);
        t := EraseColor(own, parent, c);
      }
    }

    /** The leftmost node below b, and its parent there (NULL for b itself). */
    method FindSuccessor(node: Ptr, right: Ptr, ghost b: Tree)
      returns (successor: Ptr, parent: Ptr, ghost k: Ctx, ghost cy: bool, ghost h: Tree)
      requires Rep(nodes, b, node) && b.Node? && b.p == right
      ensures b == Fill(k, Mk(L, Leaf, successor, cy, h)) && AllLeft(k) && parent == CtxParent(k)
      ensures k.In? ==> parent != NULL
      ensures successor in nodes && nodes[successor].red == cy && nodes[successor].right == Root(h)
      ensures Root(h) == NULL ==> h.Leaf?
    {
      successor, parent := right, NULL;
      k := Top;
      ghost var f, par := b, node;
      while nodes[successor].left != NULL
        invariant b == Fill(k, f) && AllLeft(k) && f.Node? && f.p == successor && Rep(nodes, f, par)
        invariant parent == CtxParent(k) && (k.In? ==> parent != NULL)
        decreases f
      {
        k := In(k, L, f.p, f.red, f.r);
        par := f.p;
        f := f.l;
        parent, successor := successor, nodes[successor].left;
      }
      cy, h := f.red, f.r;
    }

    /** Corrects the values after a splice: first below the successor, from the
        place it was taken from, then from the successor upwards. */
    method SettleSplice(own: Own, successor: Ptr, parent: Ptr, ghost node: Ptr,
                        ghost c: Ctx, ghost a: Tree, ghost cx: bool, ghost k: Ctx, ghost h: Tree)
      requires AtBut(nodes, root, own, c, Node(a, successor, cx, Fill(k, h)), {node, successor, parent})
      requires node !in Ids(Fill(c, Node(a, successor, cx, Fill(k, h))))
      requires parent == CtxParent(k) && (k.In? ==> parent != NULL)
      modifies this`nodes
      ensures At(nodes, root, own, Top, Fill(c, Node(a, successor, cx, Fill(k, h))))
      ensures nodes.Keys == old(nodes.Keys)
    {
      ghost var m, b, whole := nodes, Fill(k, h), Fill(c, Node(a, successor, cx, Fill(k, h)));
      SplicedParts(m, c, a, successor, cx, k, h);
      AtButRefocus(m, root, own, c, Node(a, successor, cx, b), Top, whole, {node, successor, parent});
      RepInPool(m, whole, NULL);
      if parent != NULL {
        assert Ids(b) - {parent} <= Ids(whole) - {node, successor, parent};
        Propagate(own, parent, successor, b);
        OutsideStays(m, nodes, own, c, a, successor, cx, b, {node, successor, parent});
        ValuesOnlyRep(m, nodes, Ids(b), whole, NULL);
      } else {
        assert Ids(whole) - {successor} <= Ids(whole) - {node, successor, parent};
      }
      Settle(own, successor, whole, {successor});
    }

    /** Moves the successor into the node's place and corrects all values. */
    method SpliceSuccessor(own: Own, node: Ptr, successor: Ptr, parent: Ptr,
                           ghost c: Ctx, ghost a: Tree, ghost cx: bool, ghost k: Ctx, ghost cy: bool, ghost h: Tree)
      requires AtBut(nodes, root, own, c, Node(a, node, cx, Fill(k, Mk(L, Leaf, successor, cy, h))), {node})
      requires parent == CtxParent(k) && (k.In? ==> parent != NULL)
      modifies this
      ensures At(nodes, root, own, Top, Fill(c, Node(a, successor, cx, Fill(k, Recolor(h, cy)))))
      ensures nodes.Keys == old(nodes.Keys)
    {
      SpliceOk(nodes, root, own, c, a, node, cx, k, successor, cy, h);
      SpliceNodes(c, a, node, cx, k, successor, cy, h);
      var (m1, r1) := Unlink(nodes, root, successor, nodes[successor].right);
      var (m2, r2) := Replace(m1, r1, node, successor);
      nodes, root := m2, r2;
      SettleSplice(own, successor, parent, node, c, a, cx, k, Recolor(h, cy));
    }

    /** Erases a node with two children. */
    method EraseTwoChildren(own: Own, node: Ptr, ghost c: Ctx, ghost a: Tree, ghost cx: bool, ghost b: Tree)
      returns (ghost t: Tree)
      requires AtBut(nodes, root, own, c, Node(a, node, cx, b), {node}) && b.Node?
      requires RedBlack(Fill(c, Node(a, node, cx, b)))
      modifies this
      ensures At(nodes, root, own, Top, t) && RedBlack(t) && nodes.Keys == old(nodes.Keys)
      ensures InOrder(t) == Before(c) + InOrder(a) + (InOrder(b) + Behind(c))
    {
      ghost var k, cy, h;
      var successor, parent;
      successor, parent, k, cy, h := FindSuccessor(node, nodes[node].right, b);
      var red, child2 := nodes[successor].red, nodes[successor].right;
      EraseOrder(c, a, node, cx, k, successor, cy, h);
      SpliceRules(c, a, node, cx, k, successor, cy, h);
      SpliceSuccessor(own, node, successor, parent, c, a, cx, k, cy, h);
      t := Fill(c, Node(a, successor, cx, Fill(k, Recolor(h, cy))));
      if child2 == NULL && !red {
        ghost var c' := RenameCtx(Append(k, In(c, R, node, cx, a)), node, successor);
        AtRefocus(nodes, root, own, Top, t, c', Leaf);
        t := EraseColor(own, if parent != NULL then parent else successor, c');
      }
    }

    /** Takes a node out of the tree. Its own value need not be right; all others
        are, before and after, and the order of the others is kept. */
    method Erase(own: Own, node: Ptr, ghost t0: Tree) returns (ghost t: Tree, ghost pre: seq<Ptr>, ghost post: seq<Ptr>)
      requires AtBut(nodes, root, own, Top, t0, {node}) && RedBlack(t0) && node in Ids(t0)
      modifies this
      ensures At(nodes, root, own, Top, t) && RedBlack(t) && nodes.Keys == old(nodes.Keys)
      ensures InOrder(t0) == pre + [node] + post && InOrder(t) == pre + post
    {
      ghost var c, f := Focus(Top, t0, node);
      AtButRefocus(nodes, root, own, Top, t0, c, f, {node});
      FocusOrder(c, f);
      pre, post := Before(c) + InOrder(f.l), InOrder(f.r) + Behind(c);
      RootNull(nodes, f.l, node);
      RootNull(nodes, f.r, node);
      if nodes[node].left == NULL {
        t := EraseOneChild(own, node, nodes[node].right, L, c, f.red, f.r);
        OneSided(Before(c), InOrder(f.r), Behind(c));
      } else if nodes[node].right == NULL {
        t := EraseOneChild(own, node, nodes[node].left, R, c, f.red, f.l);
        OneSided(Before(c), InOrder(f.l), Behind(c));
      } else {
        t := EraseTwoChildren(own, node, c, f.l, f.red, f.r);
      }
    }

    /** Links node as a red leaf below parent on side s, gives it its value, and
        rebalances. */
    method Insert(own: Own, node: Ptr, parent: Ptr, s: Side, ghost c: Ctx) returns (ghost t: Tree)
      requires At(nodes, root, own, c, Leaf) && RedBlack(Fill(c, Leaf)) && node != NULL && node !in Ids(Fill(c, Leaf))
      requires parent == CtxParent(c) && (c.In? ==> c.s == s)
      modifies this
      ensures At(nodes, root, own, Top, t) && RedBlack(t) && nodes.Keys == old(nodes.Keys) + {node}
      ensures InOrder(t) == Before(c) + [node] + Behind(c)
    {
      ghost var f := Node(Leaf, node, true, Leaf);
      ghost var whole := Fill(c, f);
      LinkOk(nodes, root, own, c, node, s);
      CtxOfRedBlack(c, Leaf);
      LeafOrder(c, node, true);
      FillIds(c, f);
      var (m1, r1) := LinkNode(nodes, root, node, parent, s);
      nodes, root := m1, r1;
      AtButRefocus(nodes, root, own, c, f, Top, whole, {node});
      Settle(own, node, whole, {node});
      AtRefocus(nodes, root, own, Top, whole, c, f);
      t := InsertColor(own, node, c);
    }
  }
}
