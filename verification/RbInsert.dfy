/** Rebalancing after an insertion: the three cases. */
module RbInsert {
  import opened RbTree
  import opened RbRotate

  // ---- case 1: red uncle, flip colours

  function FlipColors(m: Pool, u: Ptr, p: Ptr, g: Ptr): Pool
    requires u in m && p in m && g in m
  {
    var m1 := SetParentColor(SetParentColor(m, u, g, false), p, g, false);
    SetParentColor(m1, g, m1[g].parent, true)
  }

  lemma FlipLinks(m: Pool, s: Side, sp: Side, t: Tree, p: Ptr, sib: Tree, g: Ptr, u: Tree, gg: Ptr)
    requires Rep(m, Mk(s, Mk(sp, t, p, true, sib), g, false, u), gg) && u.Node? && u.red
    requires Uniq(Mk(s, Mk(sp, t, p, true, sib), g, false, u))
    ensures u.p in m && p in m && g in m && u.p != g && p != g && u.p != p
    ensures var m' := FlipColors(m, u.p, p, g);
            && Recolored(m, m') && !m'[u.p].red && !m'[p].red && m'[g].red
            && (forall x :: x in m && x != u.p && x != p && x != g ==> m'[x] == m[x])
  {
    var pt := Mk(sp, t, p, true, sib);
    MkRep(m, s, pt, g, false, u, gg);
    MkRep(m, sp, t, p, true, sib, g);
    MkIds(s, pt, g, false, u);
    MkIds(sp, t, p, true, sib);
  }

  lemma FlipRep(m: Pool, s: Side, sp: Side, t: Tree, p: Ptr, sib: Tree, g: Ptr, u: Tree, gg: Ptr)
    requires Rep(m, Mk(s, Mk(sp, t, p, true, sib), g, false, u), gg) && u.Node? && u.red
    requires Uniq(Mk(s, Mk(sp, t, p, true, sib), g, false, u))
    requires u.p in m && p in m && g in m
    ensures Rep(FlipColors(m, u.p, p, g), Mk(s, Mk(sp, t, p, false, sib), g, true, Recolor(u, false)), gg)
  {
    FlipLinks(m, s, sp, t, p, sib, g, u, gg);
    var m', pt := FlipColors(m, u.p, p, g), Mk(sp, t, p, true, sib);
    MkRep(m, s, pt, g, false, u, gg);
    MkRep(m, sp, t, p, true, sib, g);
    MkIds(s, pt, g, false, u);
    MkIds(sp, t, p, true, sib);
    RepInPool(m, t, p);
    RepInPool(m, sib, p);
    RepFrame(m, m', t, p);
    RepFrame(m, m', sib, p);
    RepRecolor(m, m', u, g, false);
    MkRep(m', sp, t, p, false, sib, g);
    MkRep(m', s, Mk(sp, t, p, false, sib), g, true, Recolor(u, false), gg);
  }

  lemma FlipOk(m: Pool, root: Ptr, own: Own, c: Ctx, s: Side, sp: Side, t: Tree, p: Ptr, sib: Tree, g: Ptr, u: Tree)
    requires At(m, root, own, c, Mk(s, Mk(sp, t, p, true, sib), g, false, u)) && u.Node? && u.red
    ensures u.p in m && p in m && g in m && m[g].parent == CtxParent(c)
    ensures var m', t' := FlipColors(m, u.p, p, g), Mk(s, Mk(sp, t, p, false, sib), g, true, Recolor(u, false));
            && m'.Keys == m.Keys && At(m', root, own, c, t')
            && InOrder(Fill(c, t')) == InOrder(Fill(c, Mk(s, Mk(sp, t, p, true, sib), g, false, u)))
  {
    var t0 := Mk(s, Mk(sp, t, p, true, sib), g, false, u);
    var t' := Mk(s, Mk(sp, t, p, false, sib), g, true, Recolor(u, false));
    FillUniq(c, t0);
    FlipLinks(m, s, sp, t, p, sib, g, u, CtxParent(c));
    FlipRep(m, s, sp, t, p, sib, g, u, CtxParent(c));
    MkRep(m, s, Mk(sp, t, p, true, sib), g, false, u, CtxParent(c));
    var m' := FlipColors(m, u.p, p, g);
    FlipOrder(c, s, sp, t, p, sib, g, u);
    RecolorLocal(m, m', own, Ids(Fill(c, t0)));
    CtxInPool(m, c, g);
    FlipAway(s, sp, t, p, sib, g, u);
    CtxFrame(m, m', c, g);
  }

  lemma FlipAway(s: Side, sp: Side, t: Tree, p: Ptr, sib: Tree, g: Ptr, u: Tree)
    requires u.Node?
    ensures {u.p, p, g} <= Ids(Mk(s, Mk(sp, t, p, true, sib), g, false, u))
    ensures Root(Mk(s, Mk(sp, t, p, false, sib), g, true, Recolor(u, false))) == g
    ensures Root(Mk(s, Mk(sp, t, p, true, sib), g, false, u)) == g
  {
    MkIds(s, Mk(sp, t, p, true, sib), g, false, u);
    MkIds(sp, t, p, true, sib);
  }

  lemma FlipOrder(c: Ctx, s: Side, sp: Side, t: Tree, p: Ptr, sib: Tree, g: Ptr, u: Tree)
    ensures var t0, t' := Mk(s, Mk(sp, t, p, true, sib), g, false, u),
                          Mk(s, Mk(sp, t, p, false, sib), g, true, Recolor(u, false));
            && InOrder(Fill(c, t')) == InOrder(Fill(c, t0)) && Ids(Fill(c, t')) == Ids(Fill(c, t0))
            && (Uniq(Fill(c, t0)) ==> Uniq(Fill(c, t')))
  {
    var t0, t' := Mk(s, Mk(sp, t, p, true, sib), g, false, u),
                  Mk(s, Mk(sp, t, p, false, sib), g, true, Recolor(u, false));
    RecolorSame(u, false);
    RecolorSame(Mk(sp, t, p, true, sib), false);
    SubSame(s, Mk(sp, t, p, true, sib), g, false, u, Mk(sp, t, p, false, sib), true, Recolor(u, false));
    FillSame(c, t0, t');
  }

  // ---- trees that differ in colours only

  /** Same nodes in the same order. */
  ghost predicate SameNodes(t: Tree, t': Tree) {
    InOrder(t') == InOrder(t) && Ids(t') == Ids(t) && (Uniq(t) ==> Uniq(t'))
  }

  lemma RecolorSame(t: Tree, red: bool)
    ensures SameNodes(t, Recolor(t, red))
  {
  }

  lemma SubSame(s: Side, a: Tree, p: Ptr, red: bool, b: Tree, a': Tree, red': bool, b': Tree)
    requires SameNodes(a, a') && SameNodes(b, b')
    ensures SameNodes(Mk(s, a, p, red, b), Mk(s, a', p, red', b'))
  {
  }

  lemma FillSame(c: Ctx, t: Tree, t': Tree)
    requires SameNodes(t, t')
    ensures SameNodes(Fill(c, t), Fill(c, t'))
  {
    FillInOrder(c, t);
    FillInOrder(c, t');
    FillIds(c, t);
    FillIds(c, t');
    if Uniq(Fill(c, t)) {
      FillUniq(c, t);
      FillUniqSwap(c, t, t');
    }
  }

  // ---- the red-black rules, case by case

  /** The focus during the fix-up: a red node that is fine below, in a context
      that is fine except that the parent may be red too. */
  predicate Fixing(c: Ctx, t: Tree) {
    t.Node? && t.red && SubOk(t) && CtxOk(c, BH(t))
  }

  /** What a red parent below a black grandparent implies. */
  lemma FixingFamily(c: Ctx, s: Side, sp: Side, t: Tree, p: Ptr, sib: Tree, g: Ptr, u: Tree)
    requires Fixing(In(In(c, s, g, false, u), sp, p, true, sib), t)
    ensures SubOk(sib) && SubOk(u) && !Red(sib) && BH(sib) == BH(u) == BH(t)
    ensures CtxOk(c, BH(t) + 1)
  {
    assert CtxOk(In(c, s, g, false, u), BH(t));
  }

  lemma RecolorBlack(t: Tree)
    requires SubOk(t)
    ensures SubOk(Recolor(t, false)) && !Red(Recolor(t, false))
    ensures BH(Recolor(t, false)) == BH(t) + if Red(t) then 1 else 0
    ensures !Red(t) ==> Recolor(t, false) == t
  {
  }

  lemma FlipRules(c: Ctx, s: Side, sp: Side, t: Tree, p: Ptr, sib: Tree, g: Ptr, u: Tree)
    requires Fixing(In(In(c, s, g, false, u), sp, p, true, sib), t) && Red(u)
    ensures Fixing(c, Mk(s, Mk(sp, t, p, false, sib), g, true, Recolor(u, false)))
  {
    FixingFamily(c, s, sp, t, p, sib, g, u);
    RecolorBlack(u);
    MkRules(sp, t, p, false, sib);
    MkRules(s, Mk(sp, t, p, false, sib), g, true, Recolor(u, false));
  }

  lemma OuterRules(c: Ctx, s: Side, t: Tree, p: Ptr, sib: Tree, g: Ptr, u: Tree)
    requires Fixing(In(In(c, s, g, false, u), s, p, true, sib), t) && !Red(u)
    ensures RedBlack(Fill(c, Rotated(s, t, p, sib, g, false, u, false, true)))
  {
    FixingFamily(c, s, s, t, p, sib, g, u);
    RecolorBlack(sib);
    MkRules(s, Recolor(sib, false), g, true, u);
    MkRules(s, t, p, false, Mk(s, Recolor(sib, false), g, true, u));
    FillRedBlack(c, Rotated(s, t, p, sib, g, false, u, false, true));
  }

  lemma InnerRules(c: Ctx, s: Side, b: Tree, n: Ptr, d: Tree, p: Ptr, a: Tree, g: Ptr, u: Tree)
    requires Fixing(In(In(c, s, g, false, u), s.Opp(), p, true, a), Mk(s, b, n, true, d)) && !Red(u)
    ensures RedBlack(Fill(c, Mk(s, Mk(s, a, p, true, Recolor(b, false)), n, false,
                                Mk(s, Recolor(d, false), g, true, u))))
  {
    FixingFamily(c, s, s.Opp(), Mk(s, b, n, true, d), p, a, g, u);
    MkRules(s, b, n, true, d);
    RecolorBlack(b);
    RecolorBlack(d);
    MkRules(s, a, p, true, Recolor(b, false));
    MkRules(s, Recolor(d, false), g, true, u);
    MkRules(s, Mk(s, a, p, true, Recolor(b, false)), n, false, Mk(s, Recolor(d, false), g, true, u));
    FillRedBlack(c, Mk(s, Mk(s, a, p, true, Recolor(b, false)), n, false, Mk(s, Recolor(d, false), g, true, u)));
  }

  // ---- cases 2 and 3: black uncle, rotations

  lemma MkOpp(s: Side, a: Tree, p: Ptr, red: bool, b: Tree)
    ensures Mk(s.Opp(), a, p, red, b) == Mk(s, b, p, red, a)
  {
  }

  /** Case 3 on its own: the node is the parent's outer child. */
  lemma OuterOk(m: Pool, root: Ptr, own: Own, c: Ctx, s: Side, t: Tree, p: Ptr, sib: Tree, g: Ptr, u: Tree)
    requires At(m, root, own, In(In(c, s, g, false, u), s, p, true, sib), t)
    requires Fixing(In(In(c, s, g, false, u), s, p, true, sib), t) && !Red(u)
    ensures ReadyLinks(m, root, c, s, t, p, sib, g, false, u)
    ensures ReadyValues(m, own, c, s, t, p, sib, g, u)
    ensures InOrder(Fill(c, Mk(s, Mk(s, t, p, false, sib), g, false, u)))
            == InOrder(Fill(In(In(c, s, g, false, u), s, p, true, sib), t))
  {
    var t0 := Mk(s, Mk(s, t, p, true, sib), g, false, u);
    AtRefocus(m, root, own, In(In(c, s, g, false, u), s, p, true, sib), t, c, t0);
    AtReady(m, root, own, c, s, t, p, true, sib, g, false, u);
    ColorOrder(c, s, t, p, true, sib, g, false, u);
  }

  lemma ColorOrder(c: Ctx, s: Side, a: Tree, p: Ptr, cp: bool, b: Tree, g: Ptr, cg: bool, u: Tree)
    ensures InOrder(Fill(c, Mk(s, Mk(s, a, p, false, b), g, cg, u)))
      == InOrder(Fill(c, Mk(s, Mk(s, a, p, cp, b), g, cg, u)))
  {
    SubSame(s, a, p, cp, b, a, false, b);
    SubSame(s, Mk(s, a, p, cp, b), g, cg, u, Mk(s, a, p, false, b), cg, u);
    FillSame(c, Mk(s, Mk(s, a, p, cp, b), g, cg, u), Mk(s, Mk(s, a, p, false, b), g, cg, u));
  }

  /** Case 2: the node n is the parent's inner child and moves up over it. */
  lemma InnerOk(m: Pool, root: Ptr, own: Own, c: Ctx, s: Side, b: Tree, n: Ptr, d: Tree, p: Ptr, a: Tree, g: Ptr,
      u: Tree)
    requires At(m, root, own, In(In(c, s, g, false, u), s.Opp(), p, true, a), Mk(s, b, n, true, d))
    ensures ReadyLinks(m, root, In(c, s, g, false, u), s.Opp(), d, n, b, p, true, a)
    ensures ReadyValues(m, own, In(c, s, g, false, u), s.Opp(), d, n, b, p, a)
    ensures InOrder(Fill(In(c, s, g, false, u), Mk(s.Opp(), Mk(s.Opp(), d, n, false, b), p, true, a)))
            == InOrder(Fill(In(In(c, s, g, false, u), s.Opp(), p, true, a), Mk(s, b, n, true, d)))
  {
    var c1 := In(c, s, g, false, u);
    MkOpp(s, d, n, true, b);
    AtRefocus(m, root, own, In(c1, s.Opp(), p, true, a), Mk(s, b, n, true, d),
              c1, Mk(s.Opp(), Mk(s.Opp(), d, n, true, b), p, true, a));
    AtReady(m, root, own, c1, s.Opp(), d, n, true, b, p, true, a);
    ColorOrder(c1, s.Opp(), d, n, true, b, p, true, a);
  }

  /** What case 2 leaves is what case 3 starts from. */
  lemma InnerToOuter(m: Pool, root: Ptr, own: Own, c: Ctx, s: Side, b: Tree, n: Ptr, d: Tree, p: Ptr, a: Tree, g: Ptr,
      u: Tree)
    requires At(m, root, own, In(c, s, g, false, u), Rotated(s.Opp(), d, n, b, p, true, a, false, true))
    ensures var a' := Mk(s, a, p, true, Recolor(b, false));
            && ReadyLinks(m, root, c, s, a', n, d, g, false, u)
            && ReadyValues(m, own, c, s, a', n, d, g, u)
            && InOrder(Fill(c, Mk(s, Mk(s, a', n, false, d), g, false, u)))
               == InOrder(Fill(In(c, s, g, false, u), Rotated(s.Opp(), d, n, b, p, true, a, false, true)))
  {
    var a' := Mk(s, a, p, true, Recolor(b, false));
    MkOpp(s, Recolor(b, false), p, true, a);
    MkOpp(s, d, n, true, a');
    AtRefocus(m, root, own, In(c, s, g, false, u), Rotated(s.Opp(), d, n, b, p, true, a, false, true),
              c, Mk(s, Mk(s, a', n, true, d), g, false, u));
    AtReady(m, root, own, c, s, a', n, true, d, g, false, u);
    ColorOrder(c, s, a', n, true, d, g, false, u);
  }

  // ---- what the loop sees

  /** With a red parent there is a black grandparent; the pointers tell on which
      sides node and parent hang. */
  lemma FamilyPointers(m: Pool, root: Ptr, own: Own, c: Ctx, f: Tree)
    requires At(m, root, own, c, f) && Fixing(c, f) && CtxRed(c)
    ensures c.up.In? && !c.up.red
    ensures c.p in m && c.up.p in m && m[c.p].parent == c.up.p && c.up.p != NULL && f.p in m
    ensures m[c.up.p].Child(c.up.s) == c.p && m[c.up.p].Child(c.up.s.Opp()) == Root(c.up.sib)
    ensures Root(c.up.sib) != c.p && (m[c.up.p].right != c.p <==> c.up.s == L)
    ensures m[c.p].Child(c.s) == f.p && m[c.p].Child(c.s.Opp()) == Root(c.sib) && Root(c.sib) != f.p
    ensures c.up.sib.Node? ==> c.up.sib.p != NULL && c.up.sib.p in m && m[c.up.sib.p].red == c.up.sib.red
    ensures Fill(c, f) == Fill(c.up.up, Mk(c.up.s, Mk(c.s, f, c.p, true, c.sib), c.up.p, false, c.up.sib))
  {
    FillUniq(c, f);
    FillUniq(c.up, Mk(c.s, f, c.p, c.red, c.sib));
    MkIds(c.s, f, c.p, c.red, c.sib);
    assert RepCtx(m, c.up, c.p);
    assert Rep(m, c.up.sib, c.up.p);
    RepInPool(m, c.sib, c.p);
    RepInPool(m, c.up.sib, c.up.p);
  }

  /** Painting the root black ends the fix-up. */
  lemma BlackRoot(m: Pool, root: Ptr, own: Own, f: Tree)
    requires At(m, root, own, Top, f) && Fixing(Top, f)
    ensures f.p in m && m[f.p].parent == NULL
    ensures var m' := SetParentColor(m, f.p, NULL, false);
            At(m', root, own, Top, Recolor(f, false)) && RedBlack(Recolor(f, false))
    ensures InOrder(Recolor(f, false)) == InOrder(f)
  {
    var m' := SetParentColor(m, f.p, NULL, false);
    RepInPool(m, f, NULL);
    RepRecolor(m, m', f, NULL, false);
    RecolorLocal(m, m', own, Ids(f));
    RecolorSame(f, false);
  }

  // ---- linking a new node

  function LinkNode(m: Pool, root: Ptr, node: Ptr, parent: Ptr, s: Side): (Pool, Ptr)
    requires parent != NULL ==> parent in m && parent != node
  {
    var m1 := m[node := RbNode(parent, true, NULL, NULL, 0)];
    if parent == NULL then (m1, node) else (SetChild(m1, parent, s, node), root)
  }

  /** A red leaf with value 0 upsets nobody's value but its own. */
  lemma LinkOk(m: Pool, root: Ptr, own: Own, c: Ctx, node: Ptr, s: Side)
    requires At(m, root, own, c, Leaf) && node != NULL && node !in Ids(Fill(c, Leaf)) && (c.In? ==> c.s == s)
    ensures c.In? ==> c.p in m && c.p != NULL && c.p != node
    ensures var (m', r') := LinkNode(m, root, node, CtxParent(c), s);
            var f := Node(Leaf, node, true, Leaf);
            m'.Keys == m.Keys + {node} && AtBut(m', r', own, c, f, {node})
  {
    FillIds(c, Leaf);
    FillIds(c, Node(Leaf, node, true, Leaf));
    CtxInPool(m, c, NULL);
    FillUniq(c, Leaf);
    var m' := LinkNode(m, root, node, CtxParent(c), s).0;
    CtxRehang(m, m', c, NULL, node);
    LinkUniq(c, node);
    CtxLocalFrame(m, m', own, c, NULL, node);
  }

  lemma {:induction false} LinkUniq(c: Ctx, node: Ptr)
    requires Uniq(Fill(c, Leaf)) && node !in CtxIds(c)
    ensures Uniq(Fill(c, Node(Leaf, node, true, Leaf)))
  {
    FillUniqGrow(c, Leaf, Node(Leaf, node, true, Leaf), node);
  }

  /** A hole may be filled with one new node more. */
  lemma {:induction false} FillUniqGrow(c: Ctx, t: Tree, t': Tree, x: Ptr)
    requires Uniq(Fill(c, t)) && Uniq(t') && Ids(t') <= Ids(t) + {x} && x !in CtxIds(c)
    ensures Uniq(Fill(c, t'))
    decreases c
  {
    FillUniq(c, t);
    if c.In? {
      FillUniqGrow(c.up, Mk(c.s, t, c.p, c.red, c.sib), Mk(c.s, t', c.p, c.red, c.sib), x);
    }
  }
}
