/** Taking a node out of a red-black tree: unlinking, replacing, and the four
    rebalancing cases. */
module RbErase {
  import opened RbTree
  import opened RbRotate
  import opened RbInsert

  // ---- unlinking a node with at most one child

  /** h, the only child of x or NULL, takes x's place and colour. */
  function Unlink(m: Pool, root: Ptr, x: Ptr, h: Ptr): (Pool, Ptr)
    requires x in m && (h != NULL ==> h in m) && (m[x].parent != NULL ==> m[x].parent in m)
  {
    var (m1, r1) := ChangeChild(m, root, x, h, m[x].parent);
    (if h == NULL then m1 else SetParentColor(m1, h, m[x].parent, m[x].red), r1)
  }

  lemma CtxHas(c: Ctx)
    ensures c.In? ==> c.p in CtxIds(c) && (Root(c.sib) == NULL || Root(c.sib) in CtxIds(c))
  {
    if c.In? {
      RootIn(c.sib);
    }
  }

  /** Where the node to unlink is. */
  lemma UnlinkPlace(m: Pool, c: Ctx, s: Side, x: Ptr, cx: bool, h: Tree)
    requires Rep(m, Mk(s, Leaf, x, cx, h), CtxParent(c)) && RepCtx(m, c, x)
    requires Uniq(Fill(c, Mk(s, Leaf, x, cx, h)))
    ensures x in m && x != NULL && m[x].parent == CtxParent(c) && m[x].red == cx
    ensures (h.Node? ==> h.p in m && h.p != NULL && h.p != CtxParent(c)) && (c.In? ==> c.p in m && c.p != NULL)
    ensures Rep(m, h, x) && Uniq(h) && Ids(h) !! CtxIds(c) && x !in Ids(h) && x !in CtxIds(c)
    ensures c.In? ==> c.p !in Ids(c.sib) && c.p !in CtxIds(c.up)
    ensures c.In? ==> m[c.p].Child(c.s) == x && m[c.p].Child(c.s.Opp()) != x
  {
    hide Rep, Uniq, Fill, Ids, CtxIds, Mk;
    RootIn(h);
    CtxHas(c);
    var t := Mk(s, Leaf, x, cx, h);
    MkRep(m, s, Leaf, x, cx, h, CtxParent(c));
    FillUniq(c, t);
    MkIds(s, Leaf, x, cx, h);
    RepInPool(m, h, x);
    CtxInPool(m, c, x);
  }

  lemma UnlinkPointers(m: Pool, root: Ptr, c: Ctx, s: Side, x: Ptr, cx: bool, h: Tree)
    requires Rep(m, Mk(s, Leaf, x, cx, h), CtxParent(c)) && RepCtx(m, c, x) && root == CtxRoot(c, x)
    requires Uniq(Fill(c, Mk(s, Leaf, x, cx, h)))
    ensures x in m && x != NULL && m[x].parent == CtxParent(c) && m[x].red == cx
    ensures (h.Node? ==> h.p in m && h.p != NULL && h.p != CtxParent(c)) && (c.In? ==> c.p in m && c.p != NULL)
    ensures Rep(m, h, x) && Uniq(h) && Ids(h) !! CtxIds(c) && x !in Ids(h) && x !in CtxIds(c)
    ensures c.In? ==> c.p !in Ids(c.sib) && c.p !in CtxIds(c.up)
    ensures var (m', r') := Unlink(m, root, x, Root(h));
            && m'.Keys == m.Keys && r' == CtxRoot(c, Root(h))
            && (h.Node? ==> m'[h.p] == m[h.p].(parent := CtxParent(c), red := cx))
            && (c.In? ==> m'[c.p] == m[c.p].SetChild(c.s, Root(h)))
            && (forall z :: z in m && z != Root(h) && z != CtxParent(c) ==> m'[z] == m[z])
  {
    hide Rep, RepCtx, Uniq, Fill, Ids, CtxIds, Mk;
    UnlinkPlace(m, c, s, x, cx, h);
    RootIn(h);
  }

  lemma UnlinkOk(m: Pool, root: Ptr, own: Own, c: Ctx, s: Side, x: Ptr, cx: bool, h: Tree, wrong: set<Ptr>)
    requires AtBut(m, root, own, c, Mk(s, Leaf, x, cx, h), wrong)
    ensures x in m && (h.Node? ==> h.p in m) && (m[x].parent != NULL ==> m[x].parent in m)
    ensures var (m', r') := Unlink(m, root, x, Root(h));
            && m'.Keys == m.Keys && m'[x] == m[x]
            && AtBut(m', r', own, c, Recolor(h, cx), wrong + {CtxParent(c)})
  {
    var t := Mk(s, Leaf, x, cx, h);
    MkRep(m, s, Leaf, x, cx, h, CtxParent(c));
    UnlinkPointers(m, root, c, s, x, cx, h);
    var (m', r') := Unlink(m, root, x, Root(h));
    RepInPool(m, h, x);
    CtxInPool(m, c, x);
    RepRehang(m, m', h, x, CtxParent(c), cx);
    CtxRehang(m, m', c, x, Root(h));
    UnlinkNodes(c, s, x, cx, h);
    UnlinkValues(m, m', own, c, x, cx, h, wrong);
  }

  lemma UnlinkNodes(c: Ctx, s: Side, x: Ptr, cx: bool, h: Tree)
    ensures var t, t' := Mk(s, Leaf, x, cx, h), Recolor(h, cx);
            && Ids(Fill(c, t)) == Ids(h) + {x} + CtxIds(c) && Ids(Fill(c, t')) == Ids(h) + CtxIds(c)
            && Root(t') == Root(h) && Root(t) == x
            && (Uniq(Fill(c, t)) ==> Uniq(Fill(c, t')))
  {
    var t, t' := Mk(s, Leaf, x, cx, h), Recolor(h, cx);
    MkIds(s, Leaf, x, cx, h);
    RecolorSame(h, cx);
    FillIds(c, t);
    FillIds(c, t');
    if Uniq(Fill(c, t)) {
      FillUniq(c, t);
      FillUniqSwap(c, t, t');
    }
  }

  /** Only x drops out of the order. */
  lemma UnlinkOrder(c: Ctx, s: Side, x: Ptr, cx: bool, h: Tree)
    ensures InOrder(Fill(c, Mk(s, Leaf, x, cx, h)))
            == Before(c) + (if s == L then [x] + InOrder(h) else InOrder(h) + [x]) + Behind(c)
    ensures InOrder(Fill(c, Recolor(h, cx))) == Before(c) + InOrder(h) + Behind(c)
  {
    RecolorSame(h, cx);
    FillInOrder(c, Recolor(h, cx));
    FillInOrder(c, Mk(s, Leaf, x, cx, h));
    MkOrder(s, Leaf, x, cx, h);
    EmptySide(InOrder(h), x);
  }

  lemma EmptySide(h: seq<Ptr>, x: Ptr)
    ensures InOrder(Leaf) == [] && [] + [x] + h == [x] + h && h + [x] + [] == h + [x]
  {
  }

  /** Values below the hole and beside it are untouched. */
  lemma UnlinkValues(m: Pool, m': Pool, own: Own, c: Ctx, x: Ptr, cx: bool, h: Tree, wrong: set<Ptr>)
    requires Rep(m, h, x) && RepCtx(m, c, x) && Ids(h) !! CtxIds(c) && x !in Ids(h) && x !in CtxIds(c)
    requires AllLocal(m, own, Ids(h) + CtxIds(c) - wrong)
    requires c.In? ==> c.p !in Ids(c.sib) && c.p !in CtxIds(c.up)
    requires m'.Keys == m.Keys && (h.Node? ==> h.p in m && m'[h.p] == m[h.p].(parent := CtxParent(c), red := cx))
    requires c.In? ==> c.p in m && m'[c.p] == m[c.p].SetChild(c.s, Root(h))
    requires forall z :: z in m && z != Root(h) && z != CtxParent(c) ==> m'[z] == m[z]
    ensures AllLocal(m', own, Ids(h) + CtxIds(c) - (wrong + {CtxParent(c)}))
  {
    RepParents(m, h, x);
    CtxInPool(m, c, x);
    forall z | z in Ids(h) + CtxIds(c) - (wrong + {CtxParent(c)}) ensures LocalOk(m', own, z) {
      assert LocalOk(m, own, z);
      assert m[z].Child(L) == m'[z].Child(L) && m[z].Child(R) == m'[z].Child(R);
      assert m[z].Child(L) != NULL && m[z].Child(L) in m ==> m'[m[z].Child(L)].gap == m[m[z].Child(L)].gap;
      assert m[z].Child(R) != NULL && m[z].Child(R) in m ==> m'[m[z].Child(R)].gap == m[m[z].Child(R)].gap;
    }
  }

  // ---- putting one node in the place of another

  function Ren(x: Ptr, y: Ptr, z: Ptr): Ptr { if z == x then y else z }

  function RenNode(n: RbNode, x: Ptr, y: Ptr): RbNode {
    n.(parent := Ren(x, y, n.parent), left := Ren(x, y, n.left), right := Ren(x, y, n.right))
  }

  function Rename(t: Tree, x: Ptr, y: Ptr): Tree {
    if t.Leaf? then t else Node(Rename(t.l, x, y), Ren(x, y, t.p), t.red, Rename(t.r, x, y))
  }

  function RenameCtx(c: Ctx, x: Ptr, y: Ptr): Ctx {
    if c.Top? then c else In(RenameCtx(c.up, x, y), c.s, Ren(x, y, c.p), c.red, Rename(c.sib, x, y))
  }

  /** y, unlinked so far, takes over all links of x. */
  function Replace(m: Pool, root: Ptr, x: Ptr, y: Ptr): (Pool, Ptr)
    requires x in m && x != y
    requires (m[x].left != NULL ==> m[x].left in m) && (m[x].right != NULL ==> m[x].right in m)
    requires m[x].parent != NULL ==> m[x].parent in m
  {
    var m1 := m[y := m[x]];
    var m2 := if m[x].left == NULL then m1 else SetParent(m1, m[x].left, y);
    var m3 := if m[x].right == NULL then m2 else SetParent(m2, m[x].right, y);
    ChangeChild(m3, root, x, y, m[x].parent)
  }

  lemma {:induction false} RenameFacts(t: Tree, x: Ptr, y: Ptr)
    requires y !in Ids(t)
    ensures Ids(Rename(t, x, y)) == if x in Ids(t) then Ids(t) - {x} + {y} else Ids(t)
    ensures BH(Rename(t, x, y)) == BH(t) && Red(Rename(t, x, y)) == Red(t)
    ensures SubOk(t) ==> SubOk(Rename(t, x, y))
    ensures x !in Ids(t) ==> Rename(t, x, y) == t
    ensures Uniq(t) ==> Uniq(Rename(t, x, y))
    decreases t
  {
    if t.Node? {
      RenameFacts(t.l, x, y);
      RenameFacts(t.r, x, y);
    }
  }

  lemma {:induction false} RenameOrder(t: Tree, x: Ptr, y: Ptr)
    ensures |InOrder(Rename(t, x, y))| == |InOrder(t)|
    ensures forall i :: 0 <= i < |InOrder(t)| ==> InOrder(Rename(t, x, y))[i] == Ren(x, y, InOrder(t)[i])
    decreases t
  {
    if t.Node? {
      RenameOrder(t.l, x, y);
      RenameOrder(t.r, x, y);
    }
  }

  lemma {:induction false} RenameFill(c: Ctx, t: Tree, x: Ptr, y: Ptr)
    ensures Rename(Fill(c, t), x, y) == Fill(RenameCtx(c, x, y), Rename(t, x, y))
    decreases c
  {
    if c.In? {
      RenameFill(c.up, Mk(c.s, t, c.p, c.red, c.sib), x, y);
    }
  }

  lemma {:induction false} RenameCtxOk(c: Ctx, h: nat, x: Ptr, y: Ptr)
    requires CtxOk(c, h) && y !in CtxIds(c)
    ensures CtxOk(RenameCtx(c, x, y), h)
    ensures CtxParent(RenameCtx(c, x, y)) == Ren(x, y, CtxParent(c)) || c.Top?
    decreases c
  {
    if c.In? {
      RenameFacts(c.sib, x, y);
      RenameCtxOk(c.up, h + if c.red then 0 else 1, x, y);
    }
  }

  predicate LinksAre(m: Pool, z: Ptr, n: RbNode) { z in m && m[z] == n.(gap := m[z].gap) }

  lemma {:induction false} ReplaceRep(m: Pool, m': Pool, t: Tree, par: Ptr, x: Ptr, y: Ptr)
    requires Rep(m, t, par) && x != NULL && y != NULL
    requires forall z :: z in Ids(t) ==> z in m && LinksAre(m', Ren(x, y, z), RenNode(m[z], x, y))
    ensures Rep(m', Rename(t, x, y), Ren(x, y, par))
    decreases t
  {
    if t.Node? {
      assert LinksAre(m', Ren(x, y, t.p), RenNode(m[t.p], x, y));
      ReplaceRep(m, m', t.l, t.p, x, y);
      ReplaceRep(m, m', t.r, t.p, x, y);
      assert Root(Rename(t.l, x, y)) == Ren(x, y, Root(t.l));
      assert Root(Rename(t.r, x, y)) == Ren(x, y, Root(t.r));
    }
  }

  /** Who points to x: its parent and its children, and nobody else. */
  lemma PointersTo(m: Pool, t: Tree, x: Ptr, z: Ptr)
    requires Rep(m, t, NULL) && Uniq(t) && x in Ids(t) && z in Ids(t)
    ensures x in m && z in m && x != NULL && z != NULL
    ensures m[z].left == x || m[z].right == x ==> z == m[x].parent
    ensures m[z].parent == x <==> m[x].left == z || m[x].right == z
    ensures m[x].left != x && m[x].right != x && m[x].parent != x
    ensures m[z].parent == x ==> m[x].parent != z
    ensures m[x].left != NULL ==> m[x].left in Ids(t)
    ensures m[x].right != NULL ==> m[x].right in Ids(t) && m[x].right != m[x].left
    ensures m[x].parent == NULL <==> t.p == x
    ensures m[x].parent != NULL ==>
              m[x].parent in Ids(t) && m[x].parent in m && (m[m[x].parent].left == x <==> m[m[x].parent].right != x)
  {
    RepParents(m, t, NULL);
    Climb(m, t, NULL, x);
    Climb(m, t, NULL, z);
    assert m[x].Child(L) != NULL ==> m[m[x].Child(L)].parent == x;
    assert m[x].Child(R) != NULL ==> m[m[x].Child(R)].parent == x;
    assert m[z].Child(L) != NULL ==> m[m[z].Child(L)].parent == z;
    assert m[z].Child(R) != NULL ==> m[m[z].Child(R)].parent == z;
    if z != t.p { LinkedBack(m, t, NULL, z); }
    if x != t.p { LinkedBack(m, t, NULL, x); OneSide(m, t, NULL, m[x].parent); }
    OneSide(m, t, NULL, x);
  }

  /** Left and right child differ. */
  lemma {:induction false} OneSide(m: Pool, t: Tree, par: Ptr, x: Ptr)
    requires Rep(m, t, par) && Uniq(t) && x in Ids(t)
    ensures x in m && (m[x].left == m[x].right ==> m[x].left == NULL)
    decreases t
  {
    if x != t.p {
      if x in Ids(t.l) { OneSide(m, t.l, t.p, x); } else { OneSide(m, t.r, t.p, x); }
    }
  }

  /** The effect of Replace node by node. */
  lemma ReplaceFlat(m: Pool, root: Ptr, x: Ptr, y: Ptr, l: Ptr, r: Ptr, p: Ptr)
    requires x in m && x != y && x != NULL && y != NULL && m[x].left == l && m[x].right == r && m[x].parent == p
    requires (l != NULL ==> l in m && l != x && l != y) && (r != NULL ==> r in m && r != x && r != y && r != l)
    requires p != NULL ==> p in m && p != x && p != y && p != l && p != r && (m[p].left == x <==> m[p].right != x)
    ensures var (m', r') := Replace(m, root, x, y);
            && m'.Keys == m.Keys + {y} && r' == (if p == NULL then y else root) && m'[y] == m[x] && m'[x] == m[x]
            && (l != NULL ==> m'[l] == m[l].(parent := y)) && (r != NULL ==> m'[r] == m[r].(parent := y))
            && (p != NULL ==> m'[p] == m[p].SetChild(if m[p].left == x then L else R, y))
            && (forall z :: z in m && z != y && z != l && z != r && z != p ==> m'[z] == m[z])
  {
  }

  lemma ReplacePointers(m: Pool, root: Ptr, t: Tree, x: Ptr, y: Ptr)
    requires Rep(m, t, NULL) && Uniq(t) && x in Ids(t) && y !in Ids(t) && y != NULL && root == Root(t)
    ensures x in m && x != y && (m[x].left != NULL ==> m[x].left in m) && (m[x].right != NULL ==> m[x].right in m)
    ensures m[x].parent != NULL ==> m[x].parent in m
    ensures var (m', r') := Replace(m, root, x, y);
            && m'.Keys == m.Keys + {y} && r' == Ren(x, y, root)
            && (forall z :: z in Ids(t) ==> z in m && m'[Ren(x, y, z)] == RenNode(m[z], x, y))
  {
    RepInPool(m, t, NULL);
    PointersTo(m, t, x, x);
    if m[x].parent != NULL { PointersTo(m, t, x, m[x].parent); }
    ReplaceFlat(m, root, x, y, m[x].left, m[x].right, m[x].parent);
    var m' := Replace(m, root, x, y).0;
    forall z | z in Ids(t) ensures m'[Ren(x, y, z)] == RenNode(m[z], x, y) {
      PointersTo(m, t, x, z);
    }
  }

  lemma ReplaceOk(m: Pool, root: Ptr, own: Own, t: Tree, x: Ptr, y: Ptr, wrong: set<Ptr>)
    requires AtBut(m, root, own, Top, t, wrong) && x in Ids(t) && y !in Ids(t) && y != NULL
    ensures x in m && x != y && (m[x].left != NULL ==> m[x].left in m) && (m[x].right != NULL ==> m[x].right in m)
    ensures m[x].parent != NULL ==> m[x].parent in m
    ensures var (m', r') := Replace(m, root, x, y);
            m'.Keys == m.Keys + {y} && AtBut(m', r', own, Top, Rename(t, x, y), wrong + {y})
  {
    ReplacePointers(m, root, t, x, y);
    var (m', r') := Replace(m, root, x, y);
    RepInPool(m, t, NULL);
    ReplaceRep(m, m', t, NULL, x, y);
    RenameFacts(t, x, y);
    ReplaceValues(m, m', own, t, x, y, wrong);
  }

  lemma ReplaceValues(m: Pool, m': Pool, own: Own, t: Tree, x: Ptr, y: Ptr, wrong: set<Ptr>)
    requires Rep(m, t, NULL) && AllLocal(m, own, Ids(t) - wrong) && x != NULL && y != NULL && y !in Ids(t)
    requires forall z :: z in Ids(t) ==> z in m && Ren(x, y, z) in m' && m'[Ren(x, y, z)] == RenNode(m[z], x, y)
    ensures AllLocal(m', own, Ids(t) - {x} - wrong)
  {
    RepParents(m, t, NULL);
    forall z | z in Ids(t) - {x} - wrong ensures LocalOk(m', own, z) {
      assert LocalOk(m, own, z) && Ren(x, y, z) == z;
      assert m[z].Child(L) != NULL ==> m[z].Child(L) in Ids(t);
      assert m[z].Child(R) != NULL ==> m[z].Child(R) in Ids(t);
    }
  }

  // ---- the red-black rules

  /** The hole is one black node short. */
  predicate Short(c: Ctx, f: Tree) {
    c.In? && SubOk(f) && !Red(f) && CtxOk(c, BH(f) + 1)
  }

  lemma UnlinkRules(c: Ctx, s: Side, x: Ptr, cx: bool, h: Tree)
    requires RedBlack(Fill(c, Mk(s, Leaf, x, cx, h)))
    ensures h.Node? || cx ==> RedBlack(Fill(c, Recolor(h, cx)))
    ensures h.Node? ==> !cx
    ensures h.Leaf? && !cx ==> c.Top? || Short(c, Leaf)
  {
    CtxOfRedBlack(c, Mk(s, Leaf, x, cx, h));
    MkRules(s, Leaf, x, cx, h);
    if h.Node? {
      assert h.red;
      FillRedBlack(c, Recolor(h, cx));
    } else if cx {
      FillRedBlack(c, Leaf);
    }
  }

  /** The sibling of a short hole exists; inner is its subtree next to the hole. */
  lemma ShortSibling(c: Ctx, f: Tree)
    requires Short(c, f)
    ensures c.sib.Node? && c.sib == Mk(c.s, c.sib.Sub(c.s), c.sib.p, c.sib.red, c.sib.Sub(c.s.Opp()))
    ensures SubOk(c.sib.Sub(c.s)) && SubOk(c.sib.Sub(c.s.Opp()))
    ensures BH(c.sib.Sub(c.s)) == BH(c.sib.Sub(c.s.Opp())) == BH(f) + if c.sib.red then 1 else 0
    ensures CtxOk(c.up, BH(f) + 1 + if c.red then 0 else 1) && (c.red ==> c.up.In? && !c.up.red && !c.sib.red)
    ensures c.sib.red ==> !c.red && !Red(c.sib.Sub(c.s)) && !Red(c.sib.Sub(c.s.Opp())) && c.sib.Sub(c.s).Node?
  {
    MkRules(c.s, c.sib.Sub(c.s), c.sib.p, c.sib.red, c.sib.Sub(c.s.Opp()));
  }

  /** Case 1: red sibling. The hole stays short, below a red parent. */
  lemma RedSiblingRules(up: Ctx, s: Side, p: Ptr, sp: Ptr, inner: Tree, outer: Tree, f: Tree)
    requires Short(In(up, s, p, false, Mk(s, inner, sp, true, outer)), f)
    ensures Short(In(In(up, s, sp, false, outer), s, p, true, Recolor(inner, false)), f)
    ensures Recolor(inner, false) == inner
  {
    MkRules(s, inner, sp, true, outer);
    RecolorBlack(inner);
    assert CtxOk(In(up, s, sp, false, outer), BH(f) + 1);
  }

  /** Case 2: black sibling and nephews; the sibling turns red. */
  lemma FlipSiblingRules(c: Ctx, f: Tree)
    requires Short(c, f) && !Red(c.sib.Sub(L)) && !Red(c.sib.Sub(R)) && !c.sib.red
    ensures c.red ==> RedBlack(Fill(c.up, Mk(c.s, f, c.p, false, Recolor(c.sib, true))))
    ensures !c.red && c.up.Top? ==> RedBlack(Mk(c.s, f, c.p, false, Recolor(c.sib, true)))
    ensures !c.red && c.up.In? ==> Short(c.up, Mk(c.s, f, c.p, false, Recolor(c.sib, true)))
  {
    ShortSibling(c, f);
    var sib' := Recolor(c.sib, true);
    assert SubOk(sib') && BH(sib') == BH(f);
    MkRules(c.s, f, c.p, false, sib');
    if c.red {
      FillRedBlack(c.up, Mk(c.s, f, c.p, false, sib'));
    }
  }

  /** Case 3: only the inner nephew is red; afterwards the outer one is. */
  lemma InnerNephewRules(up: Ctx, s: Side, p: Ptr, cp: bool, sp: Ptr, ii: Tree, ip: Ptr, io: Tree, outer: Tree, f: Tree)
    requires Short(In(up, s, p, cp, Mk(s, Mk(s, ii, ip, true, io), sp, false, outer)), f) && !Red(outer)
    ensures Short(In(up, s, p, cp, Mk(s, ii, ip, false, Mk(s, Recolor(io, false), sp, true, outer))), f)
    ensures Recolor(io, false) == io
  {
    MkRules(s, Mk(s, ii, ip, true, io), sp, false, outer);
    MkRules(s, ii, ip, true, io);
    RecolorBlack(io);
    MkRules(s, Recolor(io, false), sp, true, outer);
    MkRules(s, ii, ip, false, Mk(s, Recolor(io, false), sp, true, outer));
  }

  /** Case 4: the outer nephew is red; one rotation ends it. */
  lemma OuterNephewRules(up: Ctx, s: Side, p: Ptr, cp: bool, sp: Ptr, inner: Tree, outer: Tree, f: Tree)
    requires Short(In(up, s, p, cp, Mk(s, inner, sp, false, outer)), f) && Red(outer)
    ensures RedBlack(Fill(up, Mk(s, Mk(s, f, p, false, inner), sp, cp, Recolor(outer, false))))
  {
    MkRules(s, inner, sp, false, outer);
    RecolorBlack(outer);
    MkRules(s, f, p, false, inner);
    MkRules(s, Mk(s, f, p, false, inner), sp, cp, Recolor(outer, false));
    FillRedBlack(up, Mk(s, Mk(s, f, p, false, inner), sp, cp, Recolor(outer, false)));
  }

  // ---- the cases on the pool

  /** Changing the colour of the node in focus. */
  lemma RecolorFocus(m: Pool, root: Ptr, own: Own, c: Ctx, t: Tree, red: bool)
    requires At(m, root, own, c, t) && t.Node?
    ensures t.p in m && m[t.p].parent == CtxParent(c)
    ensures var m' := SetParentColor(m, t.p, CtxParent(c), red);
            m'.Keys == m.Keys && At(m', root, own, c, Recolor(t, red))
    ensures InOrder(Fill(c, Recolor(t, red))) == InOrder(Fill(c, t))
  {
    var m' := SetParentColor(m, t.p, CtxParent(c), red);
    FillUniq(c, t);
    RepInPool(m, t, CtxParent(c));
    CtxInPool(m, c, t.p);
    RepRecolor(m, m', t, CtxParent(c), red);
    CtxFrame(m, m', c, t.p);
    RecolorLocal(m, m', own, Ids(Fill(c, t)));
    RecolorSame(t, red);
    FillSame(c, t, Recolor(t, red));
  }

  /** What the pointers say around a short hole. */
  lemma ShortPointers(m: Pool, root: Ptr, own: Own, c: Ctx, f: Tree)
    requires At(m, root, own, c, f) && Short(c, f)
    ensures c.p in m && c.p != NULL && m[c.p].parent == CtxParent(c.up) && m[c.p].red == c.red
    ensures m[c.p].Child(c.s.Opp()) == c.sib.p && c.sib.p in m && m[c.sib.p].red == c.sib.red && c.sib.p != NULL
    ensures c.sib.p != Root(f) && (Root(f) != m[c.p].right <==> c.s == L)
    ensures m[c.sib.p].Child(c.s) == Root(c.sib.Sub(c.s)) && m[c.sib.p].Child(c.s.Opp()) == Root(c.sib.Sub(c.s.Opp()))
    ensures forall d: Side :: c.sib.Sub(d).Node? ==>
              c.sib.Sub(d).p != NULL && c.sib.Sub(d).p in m && m[c.sib.Sub(d).p].red == c.sib.Sub(d).red
    ensures Fill(c, f) == Fill(c.up, Mk(c.s.Opp(), c.sib, c.p, c.red, f))
  {
    ShortSibling(c, f);
    FillUniq(c, f);
    RepInPool(m, f, c.p);
    MkOpp(c.s, c.sib, c.p, c.red, f);
    MkRep(m, c.s, c.sib.Sub(c.s), c.sib.p, c.sib.red, c.sib.Sub(c.s.Opp()), c.p);
  }

  /** Before rotating the sibling over the parent (cases 1 and 4). */
  lemma SiblingReady(m: Pool, root: Ptr, own: Own, c: Ctx, f: Tree)
    requires At(m, root, own, c, f) && Short(c, f)
    ensures var o, inner, outer := c.s.Opp(), c.sib.Sub(c.s), c.sib.Sub(c.s.Opp());
            && ReadyLinks(m, root, c.up, o, outer, c.sib.p, inner, c.p, c.red, f)
            && ReadyValues(m, own, c.up, o, outer, c.sib.p, inner, c.p, f)
            && InOrder(Fill(c.up, Mk(o, Mk(o, outer, c.sib.p, false, inner), c.p, c.red, f))) == InOrder(Fill(c, f))
  {
    ShortSibling(c, f);
    var o, inner, outer := c.s.Opp(), c.sib.Sub(c.s), c.sib.Sub(c.s.Opp());
    MkOpp(c.s, c.sib, c.p, c.red, f);
    MkOpp(c.s, outer, c.sib.p, c.sib.red, inner);
    AtRefocus(m, root, own, c, f, c.up, Mk(o, Mk(o, outer, c.sib.p, c.sib.red, inner), c.p, c.red, f));
    AtReady(m, root, own, c.up, o, outer, c.sib.p, c.sib.red, inner, c.p, c.red, f);
    ColorOrder(c.up, o, outer, c.sib.p, c.sib.red, inner, c.p, c.red, f);
  }

  /** The tree a sibling rotation leaves, with the hole in focus again. */
  lemma SiblingRotated(m: Pool, root: Ptr, own: Own, up: Ctx, s: Side, outer: Tree, sp: Ptr, inner: Tree,
                       p: Ptr, cp: bool, f: Tree, bRed: bool, gRed: bool)
    requires At(m, root, own, up, Rotated(s.Opp(), outer, sp, inner, p, cp, f, bRed, gRed))
    ensures var c' := In(In(up, s, sp, cp, outer), s, p, gRed, Recolor(inner, bRed));
            && At(m, root, own, c', f)
            && Fill(c', f) == Fill(up, Rotated(s.Opp(), outer, sp, inner, p, cp, f, bRed, gRed))
            && Fill(c', f) == Fill(up, Mk(s, Mk(s, f, p, gRed, Recolor(inner, bRed)), sp, cp, outer))
  {
    var c' := In(In(up, s, sp, cp, outer), s, p, gRed, Recolor(inner, bRed));
    MkOpp(s, Recolor(inner, bRed), p, gRed, f);
    MkOpp(s, outer, sp, cp, Mk(s.Opp(), Recolor(inner, bRed), p, gRed, f));
    AtRefocus(m, root, own, up, Rotated(s.Opp(), outer, sp, inner, p, cp, f, bRed, gRed), c', f);
  }

  /** Case 3: before and after the inner nephew moves over the sibling. */
  lemma NephewReady(m: Pool, root: Ptr, own: Own, c: Ctx, f: Tree)
    requires At(m, root, own, c, f) && Short(c, f) && Red(c.sib.Sub(c.s))
    ensures var inner, outer, cs := c.sib.Sub(c.s), c.sib.Sub(c.s.Opp()), In(c.up, c.s.Opp(), c.p, c.red, f);
            && ReadyLinks(m, root, cs, c.s, inner.Sub(c.s), inner.p, inner.Sub(c.s.Opp()), c.sib.p, c.sib.red, outer)
            && ReadyValues(m, own, cs, c.s, inner.Sub(c.s), inner.p, inner.Sub(c.s.Opp()), c.sib.p, outer)
            && InOrder(Fill(cs, Mk(c.s, Mk(c.s, inner.Sub(c.s), inner.p, false, inner.Sub(c.s.Opp())), c.sib.p,
              c.sib.red, outer)))
               == InOrder(Fill(c, f))
  {
    ShortSibling(c, f);
    var inner, outer, cs := c.sib.Sub(c.s), c.sib.Sub(c.s.Opp()), In(c.up, c.s.Opp(), c.p, c.red, f);
    var ii, io := inner.Sub(c.s), inner.Sub(c.s.Opp());
    MkOpp(c.s, c.sib, c.p, c.red, f);
    assert inner == Mk(c.s, ii, inner.p, true, io);
    AtRefocus(m, root, own, c, f, cs, Mk(c.s, Mk(c.s, ii, inner.p, true, io), c.sib.p, c.sib.red, outer));
    AtReady(m, root, own, cs, c.s, ii, inner.p, true, io, c.sib.p, c.sib.red, outer);
    ColorOrder(cs, c.s, ii, inner.p, true, io, c.sib.p, c.sib.red, outer);
  }

  lemma NephewRotated(m: Pool, root: Ptr, own: Own, up: Ctx, s: Side, p: Ptr, cp: bool, f: Tree, sib': Tree)
    requires At(m, root, own, In(up, s.Opp(), p, cp, f), sib')
    ensures At(m, root, own, In(up, s, p, cp, sib'), f)
    ensures Fill(In(up, s, p, cp, sib'), f) == Fill(In(up, s.Opp(), p, cp, f), sib')
  {
    MkOpp(s, sib', p, cp, f);
    AtRefocus(m, root, own, In(up, s.Opp(), p, cp, f), sib', In(up, s, p, cp, sib'), f);
  }

  /** Case 4, first half: the outer nephew turns black. */
  lemma OuterNephewBlack(m: Pool, root: Ptr, own: Own, c: Ctx, f: Tree)
    requires At(m, root, own, c, f) && Short(c, f) && Red(c.sib.Sub(c.s.Opp()))
    ensures c.sib.Sub(c.s.Opp()).p in m
    ensures var inner, outer := c.sib.Sub(c.s), c.sib.Sub(c.s.Opp());
            var m' := SetParentColor(m, outer.p, c.sib.p, false);
            var c' := In(c.up, c.s, c.p, c.red, Mk(c.s, inner, c.sib.p, c.sib.red, Recolor(outer, false)));
            && outer.p in m && m'.Keys == m.Keys && At(m', root, own, c', f)
            && InOrder(Fill(c', f)) == InOrder(Fill(c, f))
  {
    ShortSibling(c, f);
    ShortPointers(m, root, own, c, f);
    var inner, outer := c.sib.Sub(c.s), c.sib.Sub(c.s.Opp());
    var c' := In(c.up, c.s, c.p, c.red, Mk(c.s, inner, c.sib.p, c.sib.red, Recolor(outer, false)));
    var co := In(In(c.up, c.s.Opp(), c.p, c.red, f), c.s.Opp(), c.sib.p, c.sib.red, inner);
    MkOpp(c.s, c.sib, c.p, c.red, f);
    MkOpp(c.s, outer, c.sib.p, c.sib.red, inner);
    AtRefocus(m, root, own, c, f, co, outer);
    RecolorFocus(m, root, own, co, outer, false);
    MkOpp(c.s, c'.sib, c.p, c.red, f);
    MkOpp(c.s, Recolor(outer, false), c.sib.p, c.sib.red, inner);
    AtRefocus(SetParentColor(m, outer.p, c.sib.p, false), root, own, co, Recolor(outer, false), c', f);
  }

  /** Case 4, second half: before the sibling moves over the parent. */
  lemma LastReady(m: Pool, root: Ptr, own: Own, up: Ctx, s: Side, p: Ptr, cp: bool, inner: Tree, sp: Ptr, outer: Tree,
      f: Tree)
    requires At(m, root, own, In(up, s, p, cp, Mk(s, inner, sp, false, outer)), f)
    ensures ReadyLinks(m, root, up, s.Opp(), outer, sp, inner, p, cp, f)
    ensures ReadyValues(m, own, up, s.Opp(), outer, sp, inner, p, f)
    ensures InOrder(Fill(up, Mk(s.Opp(), Mk(s.Opp(), outer, sp, false, inner), p, cp, f)))
            == InOrder(Fill(In(up, s, p, cp, Mk(s, inner, sp, false, outer)), f))
    ensures m[sp].Child(s) == Root(inner)
  {
    MkOpp(s, Mk(s, inner, sp, false, outer), p, cp, f);
    MkOpp(s, outer, sp, false, inner);
    AtRefocus(m, root, own, In(up, s, p, cp, Mk(s, inner, sp, false, outer)), f,
              up, Mk(s.Opp(), Mk(s.Opp(), outer, sp, false, inner), p, cp, f));
    AtReady(m, root, own, up, s.Opp(), outer, sp, false, inner, p, cp, f);
  }

  /** Case 2: the sibling turns red, and the parent black if it was red. */
  lemma FlipSiblingOk(m: Pool, root: Ptr, own: Own, c: Ctx, f: Tree)
    requires At(m, root, own, c, f) && Short(c, f)
    ensures c.sib.Node? && c.sib.p in m && c.p in m && m[c.p].parent == CtxParent(c.up)
    ensures var m1 := SetParentColor(m, c.sib.p, c.p, true);
            var m2 := SetParentColor(m1, c.p, CtxParent(c.up), false);
            && m1.Keys == m2.Keys == m.Keys && m1[c.p] == m[c.p]
            && At(m1, root, own, c.up, Mk(c.s, f, c.p, c.red, Recolor(c.sib, true)))
            && At(m2, root, own, c.up, Mk(c.s, f, c.p, false, Recolor(c.sib, true)))
    ensures InOrder(Fill(c.up, Mk(c.s, f, c.p, c.red, Recolor(c.sib, true)))) == InOrder(Fill(c, f))
    ensures InOrder(Fill(c.up, Mk(c.s, f, c.p, false, Recolor(c.sib, true)))) == InOrder(Fill(c, f))
  {
    ShortSibling(c, f);
    ShortPointers(m, root, own, c, f);
    var cs := In(c.up, c.s.Opp(), c.p, c.red, f);
    AtRefocus(m, root, own, c, f, cs, c.sib);
    RecolorFocus(m, root, own, cs, c.sib, true);
    var m1, t1 := SetParentColor(m, c.sib.p, c.p, true), Mk(c.s, f, c.p, c.red, Recolor(c.sib, true));
    MkOpp(c.s, Recolor(c.sib, true), c.p, c.red, f);
    AtRefocus(m1, root, own, cs, Recolor(c.sib, true), c.up, t1);
    RecolorFocus(m1, root, own, c.up, t1, false);
    FillUniq(c, f);
  }

  // ---- erasing a node with two children

  /** k's hole inside the hole of base. */
  function Append(k: Ctx, base: Ctx): Ctx {
    if k.Top? then base else In(Append(k.up, base), k.s, k.p, k.red, k.sib)
  }

  lemma {:induction false} FillAppend(k: Ctx, base: Ctx, t: Tree)
    ensures Fill(Append(k, base), t) == Fill(base, Fill(k, t))
    ensures CtxIds(Append(k, base)) == CtxIds(k) + CtxIds(base)
    decreases k
  {
    if k.In? {
      FillAppend(k.up, base, Mk(k.s, t, k.p, k.red, k.sib));
    }
  }

  /** A path that only ever goes left. */
  predicate AllLeft(k: Ctx) { k.In? ==> k.s == L && AllLeft(k.up) }

  lemma {:induction false} LeftmostBefore(k: Ctx)
    requires AllLeft(k)
    ensures Before(k) == []
  {
    if k.In? {
      LeftmostBefore(k.up);
    }
  }

  /** Away from x, renaming x changes nothing. */
  lemma {:induction false} RenameCtxSame(c: Ctx, x: Ptr, y: Ptr)
    requires x !in CtxIds(c) && y !in CtxIds(c)
    ensures RenameCtx(c, x, y) == c
    decreases c
  {
    if c.In? {
      RenameFacts(c.sib, x, y);
      RenameCtxSame(c.up, x, y);
    }
  }

  /** The successor takes the erased node's place in the tree. */
  lemma RenameAt(c: Ctx, a: Tree, x: Ptr, cx: bool, b: Tree, y: Ptr)
    requires Uniq(Fill(c, Node(a, x, cx, b))) && y !in Ids(Fill(c, Node(a, x, cx, b)))
    ensures Rename(Fill(c, Node(a, x, cx, b)), x, y) == Fill(c, Node(a, y, cx, b))
  {
    FillUniq(c, Node(a, x, cx, b));
    FillIds(c, Node(a, x, cx, b));
    RenameFill(c, Node(a, x, cx, b), x, y);
    RenameFacts(a, x, y);
    RenameFacts(b, x, y);
    RenameCtxSame(c, x, y);
  }

  /** The order before and after, with y the leftmost node of the right subtree. */
  lemma EraseOrder(c: Ctx, a: Tree, x: Ptr, cx: bool, k: Ctx, y: Ptr, cy: bool, h: Tree)
    requires AllLeft(k)
    ensures var pre, post := Before(c) + InOrder(a), InOrder(Fill(k, Mk(L, Leaf, y, cy, h))) + Behind(c);
            && InOrder(Fill(c, Node(a, x, cx, Fill(k, Mk(L, Leaf, y, cy, h))))) == pre + [x] + post
            && InOrder(Fill(c, Node(a, y, cx, Fill(k, Recolor(h, cy))))) == pre + post
  {
    var b, b' := Fill(k, Mk(L, Leaf, y, cy, h)), Fill(k, Recolor(h, cy));
    LeftmostBefore(k);
    UnlinkOrder(k, L, y, cy, h);
    assert InOrder(b) == [y] + InOrder(b') by {
      assert InOrder(b) == [] + ([y] + InOrder(h)) + Behind(k);
      assert InOrder(b') == [] + InOrder(h) + Behind(k);
    }
    FillInOrder(c, Node(a, x, cx, b));
    FillInOrder(c, Node(a, y, cx, b'));
    OrderGlue(Before(c), InOrder(a), x, y, InOrder(b'), Behind(c));
  }

  lemma OrderGlue(p: seq<Ptr>, a: seq<Ptr>, x: Ptr, y: Ptr, b: seq<Ptr>, q: seq<Ptr>)
    ensures p + (a + [x] + ([y] + b)) + q == p + a + [x] + ([y] + b + q)
    ensures p + (a + [y] + b) + q == p + a + ([y] + b + q)
  {
  }

  /** Correcting values inside b leaves the nodes outside it, other than b's
      parent y, as right as they were. */
  lemma OutsideStays(m: Pool, m': Pool, own: Own, c: Ctx, a: Tree, y: Ptr, cx: bool, b: Tree, wrong: set<Ptr>)
    requires Rep(m, Fill(c, Node(a, y, cx, b)), NULL) && Uniq(Fill(c, Node(a, y, cx, b)))
    requires AllLocal(m, own, Ids(Fill(c, Node(a, y, cx, b))) - wrong)
      && wrong * Ids(Fill(c, Node(a, y, cx, b))) <= Ids(b) + {y}
    requires m'.Keys == m.Keys && (forall x :: x in m ==> SameLinks(m, m', x))
      && (forall x :: x in m && x !in Ids(b) ==> m'[x] == m[x])
    requires AllLocal(m', own, Ids(b))
    ensures AllLocal(m', own, Ids(Fill(c, Node(a, y, cx, b))) - {y})
  {
    var t := Fill(c, Node(a, y, cx, b));
    RepParents(m, t, NULL);
    FillRep(m, c, Node(a, y, cx, b));
    FillUniq(c, Node(a, y, cx, b));
    FillIds(c, Node(a, y, cx, b));
    forall x | x in Ids(t) - {y} ensures LocalOk(m', own, x) {
      if x !in Ids(b) {
        assert LocalOk(m, own, x);
        ChildOutside(m, t, c, a, y, cx, b, x, L);
        ChildOutside(m, t, c, a, y, cx, b, x, R);
      }
    }
  }

  lemma ChildOutside(m: Pool, t: Tree, c: Ctx, a: Tree, y: Ptr, cx: bool, b: Tree, x: Ptr, s: Side)
    requires ParentsOk(m, Ids(t)) && Rep(m, b, y) && Uniq(b) && x in Ids(t) && x !in Ids(b) && x != y
    ensures m[x].Child(s) !in Ids(b) || m[x].Child(s) == NULL
  {
    var z := m[x].Child(s);
    if z != NULL && z in Ids(b) {
      Climb(m, b, y, z);
    }
  }

  /** The successor y is unlinked and put in the place of x: the links. */
  lemma SpliceOk(m: Pool, root: Ptr, own: Own, c: Ctx, a: Tree, x: Ptr, cx: bool, k: Ctx, y: Ptr, cy: bool, h: Tree)
    requires AtBut(m, root, own, c, Node(a, x, cx, Fill(k, Mk(L, Leaf, y, cy, h))), {x})
    ensures y in m && y != NULL && x != y && m[y].right == Root(h) && m[y].red == cy
    ensures (h.Node? ==> h.p in m) && (m[y].parent != NULL ==> m[y].parent in m)
    ensures var (m1, r1) := Unlink(m, root, y, Root(h));
            && x in m1 && (m1[x].left != NULL ==> m1[x].left in m1) && (m1[x].right != NULL ==> m1[x].right in m1)
            && (m1[x].parent != NULL ==> m1[x].parent in m1)
            && var (m2, r2) := Replace(m1, r1, x, y);
               && m2.Keys == m.Keys
               && AtBut(m2, r2, own, c, Node(a, y, cx, Fill(k, Recolor(h, cy))), {x, y, CtxParent(k)})
  {
    hide AtBut, Unlink, Replace, Recolor, Append;
    var c1 := In(c, R, x, cx, a);
    var cS, h' := Append(k, c1), Recolor(h, cy);
    var whole1 := Fill(c, Node(a, x, cx, Fill(k, h')));
    SplicePlace(c, a, x, cx, k, y, cy, h);
    AtButRefocus(m, root, own, c, Node(a, x, cx, Fill(k, Mk(L, Leaf, y, cy, h))), cS, Mk(L, Leaf, y, cy, h), {x});
    SuccessorNode(m, root, own, cS, y, cy, h, {x});
    UnlinkOk(m, root, own, cS, L, y, cy, h, {x});
    UnlinkNodes(cS, L, y, cy, h);
    var (m1, r1) := Unlink(m, root, y, Root(h));
    AtButRefocus(m1, r1, own, cS, h', Top, whole1, {x} + {CtxParent(cS)});
    SpliceIds(m, root, own, c, a, x, cx, k, y, cy, h);
    ReplaceOk(m1, r1, own, whole1, x, y, {x} + {CtxParent(cS)});
    SpliceEnd(m1, r1, own, c, a, x, cx, k, h', y, CtxParent(cS));
  }

  /** The successor's place in the whole tree. */
  lemma SplicePlace(c: Ctx, a: Tree, x: Ptr, cx: bool, k: Ctx, y: Ptr, cy: bool, h: Tree)
    ensures var cS := Append(k, In(c, R, x, cx, a));
            && Fill(cS, Mk(L, Leaf, y, cy, h)) == Fill(c, Node(a, x, cx, Fill(k, Mk(L, Leaf, y, cy, h))))
            && Fill(cS, Recolor(h, cy)) == Fill(Top, Fill(c, Node(a, x, cx, Fill(k, Recolor(h, cy)))))
            && CtxParent(cS) == if k.In? then k.p else x
  {
    FillAppend(k, In(c, R, x, cx, a), Mk(L, Leaf, y, cy, h));
    FillAppend(k, In(c, R, x, cx, a), Recolor(h, cy));
  }

  lemma SuccessorNode(m: Pool, root: Ptr, own: Own, c: Ctx, y: Ptr, cy: bool, h: Tree, wrong: set<Ptr>)
    requires AtBut(m, root, own, c, Mk(L, Leaf, y, cy, h), wrong)
    ensures y in m && y != NULL && m[y].right == Root(h) && m[y].red == cy && (h.Node? ==> h.p in m)
    ensures m[y].parent == CtxParent(c) && (m[y].parent != NULL ==> m[y].parent in m)
  {
    MkRep(m, L, Leaf, y, cy, h, CtxParent(c));
  }

  lemma SpliceIds(m: Pool, root: Ptr, own: Own, c: Ctx, a: Tree, x: Ptr, cx: bool, k: Ctx, y: Ptr, cy: bool, h: Tree)
    requires AtBut(m, root, own, c, Node(a, x, cx, Fill(k, Mk(L, Leaf, y, cy, h))), {x})
    ensures var whole := Fill(c, Node(a, x, cx, Fill(k, Recolor(h, cy)))); y !in Ids(whole) && x in Ids(whole) && x != y
  {
    var cS := Append(k, In(c, R, x, cx, a));
    SplicePlace(c, a, x, cx, k, y, cy, h);
    FillUniq(cS, Mk(L, Leaf, y, cy, h));
    MkIds(L, Leaf, y, cy, h);
    FillIds(cS, Recolor(h, cy));
    FillIds(c, Node(a, x, cx, Fill(k, Recolor(h, cy))));
    FillIds(c, Node(a, x, cx, Fill(k, Mk(L, Leaf, y, cy, h))));
    FillIds(cS, Mk(L, Leaf, y, cy, h));
  }

  lemma SpliceEnd(m1: Pool, r1: Ptr, own: Own, c: Ctx, a: Tree, x: Ptr, cx: bool, k: Ctx, h': Tree, y: Ptr, lost: Ptr)
    requires AtBut(m1, r1, own, Top, Fill(c, Node(a, x, cx, Fill(k, h'))), {x} + {lost}) && y != NULL && x in m1
      && x != y
    requires y !in Ids(Fill(c, Node(a, x, cx, Fill(k, h')))) && lost == (if k.In? then k.p else x)
    requires (m1[x].left != NULL ==> m1[x].left in m1) && (m1[x].right != NULL ==> m1[x].right in m1)
    requires m1[x].parent != NULL ==> m1[x].parent in m1
    requires var (m2, r2) := Replace(m1, r1, x, y);
             AtBut(m2, r2, own, Top, Rename(Fill(c, Node(a, x, cx, Fill(k, h'))), x, y), {x} + {lost} + {y})
    ensures var (m2, r2) := Replace(m1, r1, x, y);
            AtBut(m2, r2, own, c, Node(a, y, cx, Fill(k, h')), {x, y, CtxParent(k)})
  {
    var (m2, r2) := Replace(m1, r1, x, y);
    var t' := Node(a, y, cx, Fill(k, h'));
    RenameAt(c, a, x, cx, Fill(k, h'), y);
    AtButRefocus(m2, r2, own, Top, Fill(c, t'), c, t', {x} + {lost} + {y});
    assert Ids(Fill(c, t')) - {x, y, CtxParent(k)} <= Ids(Fill(c, t')) - ({x} + {lost} + {y});
  }

  /** The nodes of the tree before and after the splice. */
  lemma SpliceNodes(c: Ctx, a: Tree, x: Ptr, cx: bool, k: Ctx, y: Ptr, cy: bool, h: Tree)
    requires Uniq(Fill(c, Node(a, x, cx, Fill(k, Mk(L, Leaf, y, cy, h)))))
    ensures x !in Ids(Fill(c, Node(a, y, cx, Fill(k, Recolor(h, cy)))))
    ensures y !in Ids(Fill(c, Node(a, x, cx, Fill(k, Recolor(h, cy)))))
    ensures Uniq(Fill(c, Node(a, x, cx, Fill(k, Recolor(h, cy)))))
    ensures x !in CtxIds(k) && x !in Ids(h) && x != y
  {
    var b, b' := Fill(k, Mk(L, Leaf, y, cy, h)), Fill(k, Recolor(h, cy));
    FillUniq(c, Node(a, x, cx, b));
    UnlinkNodes(k, L, y, cy, h);
    FillUniq(k, Mk(L, Leaf, y, cy, h));
    MkIds(L, Leaf, y, cy, h);
    FillIds(c, Node(a, x, cx, b));
    FillIds(c, Node(a, x, cx, b'));
    FillIds(c, Node(a, y, cx, b'));
    FillUniqSwap(c, Node(a, x, cx, b), Node(a, x, cx, b'));
  }

  /** The splice costs a black node only when a black leaf node was moved, and
      then only at the place it was taken from. */
  lemma SpliceRules(c: Ctx, a: Tree, x: Ptr, cx: bool, k: Ctx, y: Ptr, cy: bool, h: Tree)
    requires Uniq(Fill(c, Node(a, x, cx, Fill(k, Mk(L, Leaf, y, cy, h)))))
    requires RedBlack(Fill(c, Node(a, x, cx, Fill(k, Mk(L, Leaf, y, cy, h)))))
    ensures h.Node? || cy ==> RedBlack(Fill(c, Node(a, y, cx, Fill(k, Recolor(h, cy)))))
    ensures h.Leaf? && !cy ==>
              var c' := RenameCtx(Append(k, In(c, R, x, cx, a)), x, y);
              && Short(c', Leaf) && Fill(c', Leaf) == Fill(c, Node(a, y, cx, Fill(k, Recolor(h, cy))))
              && CtxParent(c') == if k.In? then k.p else y
  {
    var c1 := In(c, R, x, cx, a);
    var cS, h' := Append(k, c1), Recolor(h, cy);
    var whole1 := Fill(c, Node(a, x, cx, Fill(k, h')));
    FillAppend(k, c1, Mk(L, Leaf, y, cy, h));
    FillAppend(k, c1, h');
    UnlinkRules(cS, L, y, cy, h);
    SpliceNodes(c, a, x, cx, k, y, cy, h);
    RenameAt(c, a, x, cx, Fill(k, h'), y);
    if h.Node? || cy {
      RenameFacts(whole1, x, y);
    } else {
      RenameFill(cS, Leaf, x, y);
      FillIds(cS, Leaf);
      RenameCtxOk(cS, 1, x, y);
    }
  }
}
