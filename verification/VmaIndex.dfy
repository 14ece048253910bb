/** The tree of areas as an index of the list of areas. */
module VmaIndex {
  import opened RbTree
  import opened RbRotate
  import opened VmaList

  ghost function Elems(list: seq<Ptr>): set<Ptr> { set y | y in list }

  lemma {:induction false} IdsAreElems(t: Tree)
    ensures Ids(t) == Elems(InOrder(t))
  {
    if t.Node? {
      IdsAreElems(t.l);
      IdsAreElems(t.r);
    }
  }

  /** The tree is a red-black tree over the list, with the right values outside wrong. */
  ghost predicate IndexedBut(m: Pool, root: Ptr, v: VmaPool, t: Tree, list: seq<Ptr>, wrong: set<Ptr>) {
    AtBut(m, root, GapFn(v), Top, t, wrong) && RedBlack(t) && InOrder(t) == list
  }

  ghost predicate Indexed(m: Pool, root: Ptr, v: VmaPool, t: Tree, list: seq<Ptr>) {
    At(m, root, GapFn(v), Top, t) && RedBlack(t) && InOrder(t) == list
  }

  /** Links and order alone. */
  ghost predicate Shaped(m: Pool, root: Ptr, t: Tree, list: seq<Ptr>) {
    Rep(m, t, NULL) && root == Root(t) && InOrder(t) == list
  }

  lemma IndexedShape(m: Pool, root: Ptr, v: VmaPool, t: Tree, list: seq<Ptr>, wrong: set<Ptr>)
    requires Indexed(m, root, v, t, list) || IndexedBut(m, root, v, t, list, wrong)
    ensures Shaped(m, root, t, list)
  {
  }

  lemma IndexedAny(m: Pool, root: Ptr, v: VmaPool, t: Tree, list: seq<Ptr>, wrong: set<Ptr>)
    requires Indexed(m, root, v, t, list)
    ensures IndexedBut(m, root, v, t, list, wrong)
  {
  }

  lemma IndexedAll(m: Pool, root: Ptr, v: VmaPool, t: Tree, list: seq<Ptr>, wrong: set<Ptr>)
    requires forall y :: y in wrong ==> y !in list
    ensures IndexedBut(m, root, v, t, list, wrong) <==> Indexed(m, root, v, t, list)
  {
    IdsAreElems(t);
    if InOrder(t) == list {
      assert Ids(t) - wrong == Ids(t);
    }
  }

  /** A change that moves gaps only inside wrong. */
  lemma Reindex(m: Pool, root: Ptr, v: VmaPool, w: VmaPool, t: Tree, list: seq<Ptr>, before: set<Ptr>, wrong: set<Ptr>)
    requires IndexedBut(m, root, v, t, list, before) && SameGaps(v, w, Elems(list), wrong) && before <= wrong
    ensures IndexedBut(m, root, w, t, list, wrong)
  {
    IdsAreElems(t);
    GapChange(m, v, w, Ids(t), before, wrong);
  }

  // ---- values as maxima

  /** The largest own value of a sequence of nodes. */
  ghost function MaxOwn(own: Own, xs: seq<Ptr>): nat {
    if xs == [] then 0 else Max(MaxOwn(own, xs[..|xs| - 1]), own(xs[|xs| - 1]))
  }

  lemma {:induction false} MaxOwnJoin(own: Own, xs: seq<Ptr>, ys: seq<Ptr>)
    ensures MaxOwn(own, xs + ys) == Max(MaxOwn(own, xs), MaxOwn(own, ys))
    decreases |ys|
  {
    if ys == [] {
      assert xs + ys == xs;
    } else {
      var n := |ys| - 1;
      assert (xs + ys)[..|xs + ys| - 1] == xs + ys[..n];
      MaxOwnJoin(own, xs, ys[..n]);
    }
  }

  lemma {:induction false} MaxOwnBound(own: Own, xs: seq<Ptr>, i: nat)
    requires i < |xs|
    ensures own(xs[i]) <= MaxOwn(own, xs)
    decreases |xs|
  {
    if i < |xs| - 1 {
      MaxOwnBound(own, xs[..|xs| - 1], i);
    }
  }

  /** Values right node by node are subtree maxima. */
  lemma {:induction false} ValueIsMax(m: Pool, own: Own, t: Tree, par: Ptr)
    requires Rep(m, t, par) && AllLocal(m, own, Ids(t))
    ensures GapOf(m, Root(t)) == MaxOwn(own, InOrder(t))
    decreases t
  {
    if t.Node? {
      ValueIsMax(m, own, t.l, t.p);
      ValueIsMax(m, own, t.r, t.p);
      assert LocalOk(m, own, t.p);
      MaxOwnJoin(own, InOrder(t.l), [t.p]);
      MaxOwnJoin(own, InOrder(t.l) + [t.p], InOrder(t.r));
      assert MaxOwn(own, [t.p]) == own(t.p);
    }
  }

  // ---- walking down

  /** Focus f of the tree over list is what list holds from a up to b. */
  ghost predicate Window(m: Pool, root: Ptr, t: Tree, list: seq<Ptr>, c: Ctx, f: Tree, a: nat, b: nat) {
    && Rep(m, t, NULL) && root == Root(t) && InOrder(t) == list && Fill(c, f) == t
    && Rep(m, f, CtxParent(c)) && RepCtx(m, c, Root(f))
    && |Before(c)| == a && a <= b <= |list| && |Behind(c)| == |list| - b && InOrder(f) == list[a..b]
  }

  lemma WindowTop(m: Pool, root: Ptr, t: Tree, list: seq<Ptr>)
    requires Shaped(m, root, t, list)
    ensures Window(m, root, t, list, Top, t, 0, |list|) && root == Root(t)
  {
  }

  lemma WindowEmpty(m: Pool, root: Ptr, t: Tree, list: seq<Ptr>, c: Ctx, f: Tree, a: nat, b: nat)
    requires Window(m, root, t, list, c, f, a, b)
    ensures a <= b <= |list| && (Root(f) == NULL <==> f.Leaf?)
    ensures f.Leaf? ==> a == b && Fill(c, Leaf) == t && |Before(c)| == a
    ensures f.Node? ==> a < b && f.p in m && m[f.p].parent == CtxParent(c)
    ensures f.Node? ==> m[f.p].left == Root(f.l) && m[f.p].right == Root(f.r)
    ensures c.In? ==> c.p != NULL
    ensures c.Top? ==> a == 0 && b == |list|
  {
  }

  lemma WindowStep(m: Pool, root: Ptr, t: Tree, list: seq<Ptr>, c: Ctx, f: Tree, a: nat, b: nat) returns (k: nat)
    requires Window(m, root, t, list, c, f, a, b) && f.Node?
    ensures a <= k < b && list[k] == f.p && k - a == |InOrder(f.l)|
    ensures Window(m, root, t, list, In(c, L, f.p, f.red, f.r), f.l, a, k)
    ensures Window(m, root, t, list, In(c, R, f.p, f.red, f.l), f.r, k + 1, b)
  {
    k := a + |InOrder(f.l)|;
    var u := list[a..b];
    assert u == InOrder(f.l) + [f.p] + InOrder(f.r);
    assert u[k - a] == f.p;
    assert InOrder(f.l) == u[..k - a] == list[a..k];
    assert InOrder(f.r) == u[k - a + 1..] == list[k + 1..b];
    assert Fill(In(c, L, f.p, f.red, f.r), f.l) == t;
    assert Fill(In(c, R, f.p, f.red, f.l), f.r) == t;
  }
}
