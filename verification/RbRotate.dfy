/** Pointer updates of the red-black tree code, and the rotation at its heart. */
module RbRotate {
  import opened RbTree

  /** A node's own contribution to the augmented value (its RBCOMPUTE). */
  type Own = Ptr -> nat

  // ---- field updates

  function SetChild(m: Pool, x: Ptr, s: Side, c: Ptr): Pool
    requires x in m
  {
    m[x := m[x].SetChild(s, c)]
  }

  function SetParent(m: Pool, x: Ptr, par: Ptr): Pool
    requires x in m
  {
    m[x := m[x].(parent := par)]
  }

  function SetParentColor(m: Pool, x: Ptr, par: Ptr, red: bool): Pool
    requires x in m
  {
    m[x := m[x].(parent := par, red := red)]
  }

  /** The pool and the root pointer after old's place was given to new. */
  function ChangeChild(m: Pool, root: Ptr, old_: Ptr, new_: Ptr, parent: Ptr): (Pool, Ptr)
    requires parent != NULL ==> parent in m
  {
    if parent == NULL then (m, new_)
    else (SetChild(m, parent, if m[parent].left == old_ then L else R, new_), root)
  }

  /** new takes over parent and colour of old, old goes below new. */
  function RotateSetParents(m: Pool, root: Ptr, old_: Ptr, new_: Ptr, red: bool): (Pool, Ptr)
    requires old_ in m && new_ in m && (m[old_].parent != NULL ==> m[old_].parent in m)
  {
    var m1 := SetParentColor(m, new_, m[old_].parent, m[old_].red);
    ChangeChild(SetParentColor(m1, old_, new_, red), root, old_, new_, m[old_].parent)
  }

  // ---- augmented values

  function Max(a: nat, b: nat): nat { if a < b then b else a }

  function GapOf(m: Pool, x: Ptr): nat { if x != NULL && x in m then m[x].gap else 0 }

  /** What a node's augmented value should be, given its children's. */
  function Compute(m: Pool, own: Own, x: Ptr): nat
    requires x in m
  {
    Max(Max(own(x), GapOf(m, m[x].left)), GapOf(m, m[x].right))
  }

  predicate LocalOk(m: Pool, own: Own, x: Ptr) {
    x in m && m[x].gap == Compute(m, own, x)
  }

  ghost predicate AllLocal(m: Pool, own: Own, xs: set<Ptr>) {
    forall x :: x in xs ==> LocalOk(m, own, x)
  }

  function AugmentRotate(m: Pool, own: Own, old_: Ptr, new_: Ptr): Pool
    requires old_ in m && new_ in m
  {
    var m1 := m[new_ := m[new_].(gap := m[old_].gap)];
    m1[old_ := m1[old_].(gap := Compute(m1, own, old_))]
  }

  /** Children point back to their parents and stay in the set. */
  ghost predicate ParentsOk(m: Pool, xs: set<Ptr>) {
    && (forall x :: x in xs ==> x in m && x != NULL)
    && (forall x, s: Side :: x in xs && m[x].Child(s) != NULL ==>
          m[x].Child(s) in xs && m[m[x].Child(s)].parent == x)
  }

  lemma {:induction false} RepParents(m: Pool, t: Tree, par: Ptr)
    requires Rep(m, t, par)
    ensures ParentsOk(m, Ids(t))
    decreases t
  {
    if t.Node? {
      RepParents(m, t.l, t.p);
      RepParents(m, t.r, t.p);
    }
  }

  // ---- climbing

  ghost function Depth(t: Tree, x: Ptr): nat {
    if t.Leaf? || t.p == x then 0
    else if x in Ids(t.l) then 1 + Depth(t.l, x)
    else 1 + Depth(t.r, x)
  }

  /** A node's parent is one step nearer the top. */
  lemma {:induction false} Climb(m: Pool, t: Tree, par: Ptr, x: Ptr)
    requires Rep(m, t, par) && x in Ids(t) && Uniq(t)
    ensures x in m && x != NULL
    ensures x == t.p ==> m[x].parent == par
    ensures x != t.p ==> m[x].parent in Ids(t) && m[x].parent != x && Depth(t, m[x].parent) < Depth(t, x)
    decreases t
  {
    if x != t.p {
      if x in Ids(t.l) {
        Climb(m, t.l, t.p, x);
      } else {
        Climb(m, t.r, t.p, x);
      }
    }
  }

  /** A node's parent links back to it. */
  lemma {:induction false} LinkedBack(m: Pool, t: Tree, par: Ptr, x: Ptr)
    requires Rep(m, t, par) && x in Ids(t) && Uniq(t) && x != t.p
    ensures x in m && m[x].parent in m && (m[m[x].parent].left == x || m[m[x].parent].right == x)
    decreases t
  {
    if x in Ids(t.l) {
      if x != t.l.p {
        LinkedBack(m, t.l, t.p, x);
      }
    } else if x != t.r.p {
      LinkedBack(m, t.r, t.p, x);
    }
  }

  // ---- one rotation

  function Recolor(t: Tree, red: bool): Tree { if t.Leaf? then t else t.(red := red) }

  /** p, the child of g on side s, moves up; its inner subtree b goes to g. */
  function RotateUp(m: Pool, root: Ptr, own: Own, s: Side, g: Ptr, p: Ptr, b: Ptr, bRed: bool, gRed: bool): (Pool, Ptr)
    requires g in m && p in m && g != NULL && p != NULL && (b != NULL ==> b in m)
    requires m[g].parent != NULL ==> m[g].parent in m
    requires b != g && b != p && g != p
  {
    var m1 := SetChild(SetChild(m, g, s, b), p, s.Opp(), g);
    var m2 := if b != NULL then SetParentColor(m1, b, g, bRed) else m1;
    var (m3, root') := RotateSetParents(m2, root, g, p, gRed);
    (AugmentRotate(m3, own, g, p), root')
  }

  function Rotated(s: Side, a: Tree, p: Ptr, b: Tree, g: Ptr, cg: bool, u: Tree, bRed: bool, gRed: bool): Tree {
    Mk(s, a, p, cg, Mk(s, Recolor(b, bRed), g, gRed, u))
  }

  /** The links of every node after a rotation. */
  ghost predicate PointersRotated(m: Pool, m': Pool, s: Side, gg: Ptr, cs: Side, g: Ptr, p: Ptr, b: Ptr, bRed: bool,
      gRed: bool) {
    && g in m && p in m && m'.Keys == m.Keys
    && m'[p] == m[p].SetChild(s.Opp(), g).(parent := gg, red := m[g].red, gap := m[g].gap)
    && m'[g] == m[g].SetChild(s, b).(parent := p, red := gRed, gap := m'[g].gap)
    && (b != NULL ==> b in m && m'[b] == m[b].(parent := g, red := bRed))
    && (gg != NULL ==> gg in m && m'[gg] == m[gg].SetChild(cs, p))
    && (forall x :: x in m && x != p && x != g && x != b && x != gg ==> m'[x] == m[x])
  }

  /** The rotation on pointers alone: gg is g's parent, cs the side g is on. */
  lemma RotatePointers(m: Pool, root: Ptr, own: Own, s: Side, gg: Ptr, cs: Side, g: Ptr, p: Ptr, b: Ptr, bRed: bool,
      gRed: bool)
    requires g in m && p in m && g != NULL && p != NULL && (b != NULL ==> b in m) && (gg != NULL ==> gg in m)
    requires b != g && b != p && g != p && gg != g && gg != p && (gg != NULL ==> gg != b)
    requires m[g].parent == gg && (gg != NULL ==> m[gg].Child(cs) == g && m[gg].Child(cs.Opp()) != g)
    ensures var (m', root') := RotateUp(m, root, own, s, g, p, b, bRed, gRed);
            && PointersRotated(m, m', s, gg, cs, g, p, b, bRed, gRed)
            && root' == (if gg == NULL then p else root)
  {
  }

  /** The value g is given: the maximum over its own gap and its new children. */
  lemma RotateValue(m: Pool, root: Ptr, own: Own, s: Side, gg: Ptr, cs: Side, g: Ptr, p: Ptr, b: Ptr, bRed: bool,
      gRed: bool)
    requires g in m && p in m && g != NULL && p != NULL && (b != NULL ==> b in m) && (gg != NULL ==> gg in m)
    requires b != g && b != p && g != p && gg != g && gg != p && (gg != NULL ==> gg != b) && m[g].parent == gg
    requires m[g].Child(s.Opp()) != p && m[g].Child(s.Opp()) != g
    ensures RotateUp(m, root, own, s, g, p, b, bRed, gRed).0[g].gap
            == Max(Max(own(g), GapOf(m, b)), GapOf(m, m[g].Child(s.Opp())))
  {
    hide Rep;
  }

  lemma {:induction false} CtxInPool(m: Pool, c: Ctx, hole: Ptr)
    requires RepCtx(m, c, hole)
    ensures forall x :: x in CtxIds(c) ==> x in m && x != NULL
    decreases c
  {
    if c.In? {
      RepInPool(m, c.sib, c.p);
      CtxInPool(m, c.up, c.p);
    }
  }

  /** A subtree whose root got a new parent and colour. */
  lemma RepRehang(m: Pool, m': Pool, b: Tree, par: Ptr, par': Ptr, red: bool)
    requires Rep(m, b, par) && Uniq(b)
    requires b.Node? ==> b.p in m' && m'[b.p] == m[b.p].(parent := par', red := red, gap := m'[b.p].gap)
    requires forall x :: x in Ids(b) && x != Root(b) ==> SameLinks(m, m', x)
    ensures Rep(m', Recolor(b, red), par')
  {
    if b.Node? {
      RepFrame(m, m', b.l, b.p);
      RepFrame(m, m', b.r, b.p);
    }
  }

  /** A context whose hole now holds another node. */
  lemma CtxRehang(m: Pool, m': Pool, c: Ctx, old_: Ptr, new_: Ptr)
    requires RepCtx(m, c, old_)
    requires c.In? ==> c.p !in Ids(c.sib) && c.p !in CtxIds(c.up)
    requires c.In? ==> c.p in m' && m'[c.p] == m[c.p].SetChild(c.s, new_).(gap := m'[c.p].gap)
    requires forall x :: x in CtxIds(c) && x != CtxParent(c) ==> SameLinks(m, m', x)
    ensures RepCtx(m', c, new_)
  {
    if c.In? {
      RepFrame(m, m', c.sib, c.p);
      CtxFrame(m, m', c.up, c.p);
    }
  }

  /** A rotation moves no node in the in-order sequence. */
  lemma RotateOrder(c: Ctx, s: Side, a: Tree, p: Ptr, cp: bool, b: Tree, g: Ptr, cg: bool, u: Tree, bRed: bool,
      gRed: bool)
    ensures var t, t' := Mk(s, Mk(s, a, p, cp, b), g, cg, u), Rotated(s, a, p, b, g, cg, u, bRed, gRed);
            && InOrder(Fill(c, t')) == InOrder(Fill(c, t))
            && Ids(Fill(c, t')) == Ids(Fill(c, t))
            && (Uniq(Fill(c, t)) ==> Uniq(Fill(c, t')))
  {
    var t, t' := Mk(s, Mk(s, a, p, cp, b), g, cg, u), Rotated(s, a, p, b, g, cg, u, bRed, gRed);
    RotateOrderSub(s, a, p, cp, b, g, cg, u, bRed, gRed);
    FillInOrder(c, t);
    FillInOrder(c, t');
    FillIds(c, t);
    FillIds(c, t');
    if Uniq(Fill(c, t)) {
      FillUniq(c, t);
      FillUniqSwap(c, t, t');
    }
  }

  lemma RotateOrderSub(s: Side, a: Tree, p: Ptr, cp: bool, b: Tree, g: Ptr, cg: bool, u: Tree, bRed: bool, gRed: bool)
    ensures var t, t' := Mk(s, Mk(s, a, p, cp, b), g, cg, u), Rotated(s, a, p, b, g, cg, u, bRed, gRed);
            InOrder(t') == InOrder(t) && Ids(t') == Ids(t) && (Uniq(t) ==> Uniq(t'))
  {
    var b' := Recolor(b, bRed);
    assert InOrder(b') == InOrder(b) && Ids(b') == Ids(b) && (Uniq(b) ==> Uniq(b'));
    RotateSeqs(s, a, p, cp, b, g, cg, u, cg, b', gRed);
    RotateSets(s, a, p, cp, b, g, cg, u, cg, b', gRed);
  }

  lemma RotateSeqs(s: Side, a: Tree, p: Ptr, cp: bool, b: Tree, g: Ptr, cg: bool, u: Tree, cp': bool, b': Tree,
      cg': bool)
    requires InOrder(b') == InOrder(b)
    ensures InOrder(Mk(s, a, p, cp', Mk(s, b', g, cg', u))) == InOrder(Mk(s, Mk(s, a, p, cp, b), g, cg, u))
  {
    hide InOrder, Mk;
    MkOrder(s, Mk(s, a, p, cp, b), g, cg, u);
    MkOrder(s, a, p, cp, b);
    MkOrder(s, a, p, cp', Mk(s, b', g, cg', u));
    MkOrder(s, b', g, cg', u);
    Regroup(InOrder(a), p, InOrder(b), g, InOrder(u));
    Regroup(InOrder(u), g, InOrder(b), p, InOrder(a));
  }

  lemma Regroup(a: seq<Ptr>, p: Ptr, b: seq<Ptr>, g: Ptr, u: seq<Ptr>)
    ensures (a + [p] + b) + [g] + u == a + [p] + (b + [g] + u)
  {
  }

  lemma RotateSets(s: Side, a: Tree, p: Ptr, cp: bool, b: Tree, g: Ptr, cg: bool, u: Tree, cp': bool, b': Tree,
      cg': bool)
    requires Ids(b') == Ids(b) && (Uniq(b) ==> Uniq(b'))
    ensures var t, t' := Mk(s, Mk(s, a, p, cp, b), g, cg, u), Mk(s, a, p, cp', Mk(s, b', g, cg', u));
            Ids(t') == Ids(t) && (Uniq(t) ==> Uniq(t'))
  {
    MkIds(s, Mk(s, a, p, cp, b), g, cg, u);
    MkIds(s, a, p, cp, b);
    MkIds(s, a, p, cp', Mk(s, b', g, cg', u));
    MkIds(s, b', g, cg', u);
  }

  // ---- augmented values away from the rotation

  predicate SameValue(m: Pool, m': Pool, x: Ptr) {
    x in m && x in m' && m'[x].left == m[x].left && m'[x].right == m[x].right && m'[x].gap == m[x].gap
  }

  lemma TreeLocalFrame(m: Pool, m': Pool, own: Own, t: Tree, par: Ptr)
    requires Rep(m, t, par) && AllLocal(m, own, Ids(t)) && forall x :: x in Ids(t) ==> SameValue(m, m', x)
    ensures AllLocal(m', own, Ids(t))
  {
    RepParents(m, t, par);
    forall x | x in Ids(t) ensures LocalOk(m', own, x) {
      assert LocalOk(m, own, x) && SameValue(m, m', x);
      assert m[x].Child(L) != NULL ==> m[x].Child(L) in Ids(t);
      assert m[x].Child(R) != NULL ==> m[x].Child(R) in Ids(t);
    }
  }

  /** A context sees the hole only through the value of the node in it. */
  lemma {:induction false} CtxLocalFrame(m: Pool, m': Pool, own: Own, c: Ctx, old_: Ptr, new_: Ptr)
    requires RepCtx(m, c, old_) && AllLocal(m, own, CtxIds(c))
    requires forall x :: x in CtxIds(c) && x != CtxParent(c) ==> SameValue(m, m', x)
    requires c.In? ==> c.p in m' && m'[c.p] == m[c.p].SetChild(c.s, new_).(parent := m'[c.p].parent, red := m'[c.p].red)
    requires c.In? ==> c.p !in Ids(c.sib) && c.p !in CtxIds(c.up)
    requires GapOf(m', new_) == GapOf(m, old_)
    ensures AllLocal(m', own, CtxIds(c))
  {
    if c.In? {
      assert Ids(c.sib) <= CtxIds(c) && CtxIds(c.up) <= CtxIds(c);
      RepInPool(m, c.sib, c.p);
      TreeLocalFrame(m, m', own, c.sib, c.p);
      assert LocalOk(m, own, c.p);
      assert c.sib.Node? ==> SameValue(m, m', c.sib.p);
      assert LocalOk(m', own, c.p);
      CtxLocalSame(m, m', own, c.up, c.p);
    }
  }

  /** The same when nothing in the context moved. */
  lemma {:induction false} CtxLocalSame(m: Pool, m': Pool, own: Own, c: Ctx, hole: Ptr)
    requires RepCtx(m, c, hole) && AllLocal(m, own, CtxIds(c))
    requires forall x :: x in CtxIds(c) ==> SameValue(m, m', x)
    requires GapOf(m', hole) == GapOf(m, hole)
    ensures AllLocal(m', own, CtxIds(c))
    decreases c
  {
    if c.In? {
      assert Ids(c.sib) <= CtxIds(c) && CtxIds(c.up) <= CtxIds(c);
      TreeLocalFrame(m, m', own, c.sib, c.p);
      assert LocalOk(m, own, c.p) && SameValue(m, m', c.p);
      assert c.sib.Node? ==> SameValue(m, m', c.sib.p);
      CtxLocalSame(m, m', own, c.up, c.p);
    }
  }

  // ---- the rotation as a whole

  /** The pool stands for Fill(c, t), with t in focus, and every augmented value
      is the maximum its node's children call for. */
  ghost predicate At(m: Pool, root: Ptr, own: Own, c: Ctx, t: Tree) {
    && Rep(m, t, CtxParent(c)) && RepCtx(m, c, Root(t)) && root == CtxRoot(c, Root(t))
    && Uniq(Fill(c, t)) && AllLocal(m, own, Ids(Fill(c, t)))
  }

  /** Focusing elsewhere. */
  lemma AtRefocus(m: Pool, root: Ptr, own: Own, c: Ctx, t: Tree, c': Ctx, t': Tree)
    requires At(m, root, own, c, t) && Fill(c', t') == Fill(c, t)
    ensures At(m, root, own, c', t')
  {
    FillRep(m, c, t);
    FillRep(m, c', t');
  }

  /** The same, except that the values of the nodes in wrong may be off. */
  ghost predicate AtBut(m: Pool, root: Ptr, own: Own, c: Ctx, t: Tree, wrong: set<Ptr>) {
    && Rep(m, t, CtxParent(c)) && RepCtx(m, c, Root(t)) && root == CtxRoot(c, Root(t))
    && Uniq(Fill(c, t)) && AllLocal(m, own, Ids(Fill(c, t)) - wrong)
  }

  lemma AtButRefocus(m: Pool, root: Ptr, own: Own, c: Ctx, t: Tree, c': Ctx, t': Tree, wrong: set<Ptr>)
    requires AtBut(m, root, own, c, t, wrong) && Fill(c', t') == Fill(c, t)
    ensures AtBut(m, root, own, c', t', wrong)
  {
    FillRep(m, c, t);
    FillRep(m, c', t');
  }

  /** Links needed before g and its child p on side s can be rotated. The link
      from g to p and p's own parent and colour are not: they are about to be
      overwritten. */
  ghost predicate ReadyLinks(m: Pool, root: Ptr, c: Ctx, s: Side, a: Tree, p: Ptr, b: Tree, g: Ptr, cg: bool, u: Tree) {
    && g in m && p in m && g != NULL && p != NULL
    && m[g].parent == CtxParent(c) && m[g].red == cg && m[g].Child(s.Opp()) == Root(u)
    && m[p].Child(s) == Root(a) && m[p].Child(s.Opp()) == Root(b)
    && Rep(m, a, p) && Rep(m, b, p) && Rep(m, u, g)
    && RepCtx(m, c, g) && root == CtxRoot(c, g)
    && Uniq(Fill(c, Mk(s, Mk(s, a, p, false, b), g, cg, u)))
  }

  /** And the values. */
  ghost predicate ReadyValues(m: Pool, own: Own, c: Ctx, s: Side, a: Tree, p: Ptr, b: Tree, g: Ptr, u: Tree) {
    && g in m && p in m
    && m[p].gap == Max(Max(own(p), GapOf(m, Root(a))), GapOf(m, Root(b)))
    && m[g].gap == Max(Max(own(g), m[p].gap), GapOf(m, Root(u)))
    && AllLocal(m, own, Ids(a)) && AllLocal(m, own, Ids(b)) && AllLocal(m, own, Ids(u)) && AllLocal(m, own, CtxIds(c))
  }

  /** A complete tree is ready. */
  lemma AtReady(m: Pool, root: Ptr, own: Own, c: Ctx, s: Side, a: Tree, p: Ptr, cp: bool, b: Tree, g: Ptr, cg: bool,
      u: Tree)
    requires At(m, root, own, c, Mk(s, Mk(s, a, p, cp, b), g, cg, u))
    ensures ReadyLinks(m, root, c, s, a, p, b, g, cg, u) && ReadyValues(m, own, c, s, a, p, b, g, u)
  {
    AtReadyLinks(m, root, own, c, s, a, p, cp, b, g, cg, u);
    AtReadyValues(m, root, own, c, s, a, p, cp, b, g, cg, u);
  }

  lemma AtReadyLinks(m: Pool, root: Ptr, own: Own, c: Ctx, s: Side, a: Tree, p: Ptr, cp: bool, b: Tree, g: Ptr,
      cg: bool, u: Tree)
    requires At(m, root, own, c, Mk(s, Mk(s, a, p, cp, b), g, cg, u))
    ensures ReadyLinks(m, root, c, s, a, p, b, g, cg, u)
  {
    var t := Mk(s, Mk(s, a, p, cp, b), g, cg, u);
    MkRep(m, s, Mk(s, a, p, cp, b), g, cg, u, CtxParent(c));
    MkRep(m, s, a, p, cp, b, g);
    FillUniq(c, t);
    UniqColor(s, a, p, cp, b, g, cg, u);
    FillUniqSwap(c, t, Mk(s, Mk(s, a, p, false, b), g, cg, u));
  }

  lemma AtReadyValues(m: Pool, root: Ptr, own: Own, c: Ctx, s: Side, a: Tree, p: Ptr, cp: bool, b: Tree, g: Ptr,
      cg: bool, u: Tree)
    requires At(m, root, own, c, Mk(s, Mk(s, a, p, cp, b), g, cg, u))
    ensures ReadyValues(m, own, c, s, a, p, b, g, u)
  {
    hide Ids, CtxIds, Fill, Rep, RepCtx, Uniq, InOrder, Mk;
    MkRep(m, s, Mk(s, a, p, cp, b), g, cg, u, CtxParent(c));
    MkRep(m, s, a, p, cp, b, g);
    MkIds(s, Mk(s, a, p, cp, b), g, cg, u);
    MkIds(s, a, p, cp, b);
    FillIds(c, Mk(s, Mk(s, a, p, cp, b), g, cg, u));
    assert LocalOk(m, own, g) && LocalOk(m, own, p);
  }

  lemma UniqColor(s: Side, a: Tree, p: Ptr, cp: bool, b: Tree, g: Ptr, cg: bool, u: Tree)
    ensures var t, t' := Mk(s, Mk(s, a, p, cp, b), g, cg, u), Mk(s, Mk(s, a, p, false, b), g, cg, u);
            Ids(t') == Ids(t) && (Uniq(t) ==> Uniq(t'))
  {
    MkIds(s, Mk(s, a, p, cp, b), g, cg, u);
    MkIds(s, a, p, cp, b);
    MkIds(s, Mk(s, a, p, false, b), g, cg, u);
    MkIds(s, a, p, false, b);
  }

  /** Which of the nodes involved are distinct. */
  lemma ReadyApart(m: Pool, root: Ptr, c: Ctx, s: Side, a: Tree, p: Ptr, b: Tree, g: Ptr, cg: bool, u: Tree)
    requires ReadyLinks(m, root, c, s, a, p, b, g, cg, u)
    ensures g != p && p !in Ids(a) + Ids(b) + Ids(u) + CtxIds(c) && g !in Ids(a) + Ids(b) + Ids(u) + CtxIds(c)
    ensures Ids(a) !! Ids(b) !! Ids(u) !! CtxIds(c) && Uniq(b)
    ensures Root(b) != g && Root(b) != p && (b.Node? ==> b.p in m)
    ensures Root(a) != g && Root(a) != p && Root(u) != g && Root(u) != p && Root(b) !in CtxIds(c)
    ensures CtxParent(c) !in Ids(a) + Ids(b) + Ids(u)
    ensures c.In? ==> c.p != NULL && c.p in m && c.p != g && c.p != p && c.p != Root(b)
                      && m[c.p].Child(c.s) == g && m[c.p].Child(c.s.Opp()) != g
                      && c.p !in Ids(c.sib) && c.p !in CtxIds(c.up)
  {
    var t := Mk(s, Mk(s, a, p, false, b), g, cg, u);
    FillUniq(c, t);
    MkIds(s, Mk(s, a, p, false, b), g, cg, u);
    MkIds(s, a, p, false, b);
    RepInPool(m, a, p);
    RepInPool(m, b, p);
    RepInPool(m, u, g);
    CtxInPool(m, c, g);
  }

  lemma RootIn(t: Tree)
    ensures t.Node? ==> Root(t) in Ids(t)
    ensures t.Leaf? ==> Root(t) == NULL
  {
  }

  lemma RotateTree(m: Pool, m': Pool, gg: Ptr, cs: Side, s: Side, a: Tree, p: Ptr, b: Tree,
                   g: Ptr, u: Tree, bRed: bool, gRed: bool)
    requires PointersRotated(m, m', s, gg, cs, g, p, Root(b), bRed, gRed)
    requires g != NULL && p != NULL && m[p].Child(s) == Root(a) && m[g].Child(s.Opp()) == Root(u)
    requires Rep(m, a, p) && Rep(m, b, p) && Rep(m, u, g) && Uniq(b)
    requires p !in Ids(a) + Ids(b) + Ids(u) && g !in Ids(a) + Ids(b) + Ids(u) && gg !in Ids(a) + Ids(b) + Ids(u)
    requires Ids(a) !! Ids(b) !! Ids(u)
    ensures Rep(m', Rotated(s, a, p, b, g, m[g].red, u, bRed, gRed), gg)
  {
    hide Ids, Uniq, Rep;
    RootIn(b);
    RepInPool(m, a, p);
    RepInPool(m, b, p);
    RepInPool(m, u, g);
    RepFrame(m, m', a, p);
    RepFrame(m, m', u, g);
    RepRehang(m, m', b, p, g, bRed);
    MkRep(m', s, Recolor(b, bRed), g, gRed, u, p);
    MkRep(m', s, a, p, m[g].red, Mk(s, Recolor(b, bRed), g, gRed, u), gg);
  }

  lemma RotateRep(m: Pool, m': Pool, root: Ptr, c: Ctx, s: Side, a: Tree, p: Ptr, b: Tree,
                  g: Ptr, cg: bool, u: Tree, bRed: bool, gRed: bool)
    requires ReadyLinks(m, root, c, s, a, p, b, g, cg, u)
    requires PointersRotated(m, m', s, CtxParent(c), if c.In? then c.s else L, g, p, Root(b), bRed, gRed)
    ensures Rep(m', Rotated(s, a, p, b, g, cg, u, bRed, gRed), CtxParent(c)) && RepCtx(m', c, p)
  {
    ReadyApart(m, root, c, s, a, p, b, g, cg, u);
    RotateTree(m, m', CtxParent(c), if c.In? then c.s else L, s, a, p, b, g, u, bRed, gRed);
    CtxInPool(m, c, g);
    CtxRehang(m, m', c, g, p);
  }

  /** The two rotated nodes have the values their new children call for. */
  lemma RotatePair(m: Pool, m': Pool, own: Own, s: Side, gg: Ptr, cs: Side, a: Ptr, p: Ptr, b: Ptr, g: Ptr, u: Ptr,
      bRed: bool, gRed: bool)
    requires PointersRotated(m, m', s, gg, cs, g, p, b, bRed, gRed) && g != NULL && p != NULL
    requires m[g].Child(s.Opp()) == u && m[p].Child(s) == a && p != g && gg != p && gg != g
    requires a != p && a != g && b != p && b != g && u != p && u != g
    requires m[p].gap == Max(Max(own(p), GapOf(m, a)), GapOf(m, b))
    requires m[g].gap == Max(Max(own(g), m[p].gap), GapOf(m, u))
    requires m'[g].gap == Max(Max(own(g), GapOf(m, b)), GapOf(m, u))
    ensures LocalOk(m', own, g) && LocalOk(m', own, p)
  {
    assert GapOf(m', a) == GapOf(m, a) && GapOf(m', b) == GapOf(m, b) && GapOf(m', u) == GapOf(m, u);
  }

  /** The three subtrees do not notice. */
  lemma RotateSubValues(m: Pool, m': Pool, own: Own, gg: Ptr, cs: Side, s: Side, a: Tree, p: Ptr, b: Tree,
                        g: Ptr, u: Tree, bRed: bool, gRed: bool)
    requires PointersRotated(m, m', s, gg, cs, g, p, Root(b), bRed, gRed)
    requires Rep(m, a, p) && Rep(m, b, p) && Rep(m, u, g)
    requires AllLocal(m, own, Ids(a)) && AllLocal(m, own, Ids(b)) && AllLocal(m, own, Ids(u))
    requires p !in Ids(a) + Ids(b) + Ids(u) && g !in Ids(a) + Ids(b) + Ids(u) && gg !in Ids(a) + Ids(b) + Ids(u)
    ensures AllLocal(m', own, Ids(a)) && AllLocal(m', own, Ids(b)) && AllLocal(m', own, Ids(u))
  {
    hide Ids, Rep, Uniq;
    RepInPool(m, a, p);
    RepInPool(m, b, p);
    RepInPool(m, u, g);
    TreeLocalFrame(m, m', own, a, p);
    TreeLocalFrame(m, m', own, b, p);
    TreeLocalFrame(m, m', own, u, g);
  }

  lemma RotateCtxValues(m: Pool, m': Pool, own: Own, c: Ctx, s: Side, p: Ptr, b: Ptr, g: Ptr, bRed: bool, gRed: bool)
    requires PointersRotated(m, m', s, CtxParent(c), if c.In? then c.s else L, g, p, b, bRed, gRed)
    requires RepCtx(m, c, g) && AllLocal(m, own, CtxIds(c)) && g != NULL && p != NULL
    requires p !in CtxIds(c) && b !in CtxIds(c) && g !in CtxIds(c)
    requires c.In? ==> c.p !in Ids(c.sib) && c.p !in CtxIds(c.up)
    ensures AllLocal(m', own, CtxIds(c))
  {
    CtxInPool(m, c, g);
    CtxLocalFrame(m, m', own, c, g, p);
  }

  lemma RotateValues(m: Pool, m': Pool, root: Ptr, own: Own, c: Ctx, s: Side, a: Tree, p: Ptr, b: Tree,
                     g: Ptr, cg: bool, u: Tree, bRed: bool, gRed: bool)
    requires ReadyLinks(m, root, c, s, a, p, b, g, cg, u) && ReadyValues(m, own, c, s, a, p, b, g, u)
    requires PointersRotated(m, m', s, CtxParent(c), if c.In? then c.s else L, g, p, Root(b), bRed, gRed)
    requires m'[g].gap == Max(Max(own(g), GapOf(m, Root(b))), GapOf(m, Root(u)))
    ensures AllLocal(m', own, Ids(a) + Ids(b) + Ids(u) + CtxIds(c) + {p, g})
  {
    ReadyApart(m, root, c, s, a, p, b, g, cg, u);
    var cs := if c.In? then c.s else L;
    RotatePair(m, m', own, s, CtxParent(c), cs, Root(a), p, Root(b), g, Root(u), bRed, gRed);
    RotateSubValues(m, m', own, CtxParent(c), cs, s, a, p, b, g, u, bRed, gRed);
    RotateCtxValues(m, m', own, c, s, p, Root(b), g, bRed, gRed);
  }

  lemma RotateDone(m: Pool, m': Pool, root: Ptr, own: Own, c: Ctx, s: Side, a: Tree, p: Ptr, b: Tree,
                   g: Ptr, cg: bool, u: Tree, bRed: bool, gRed: bool)
    requires ReadyLinks(m, root, c, s, a, p, b, g, cg, u) && ReadyValues(m, own, c, s, a, p, b, g, u)
    requires PointersRotated(m, m', s, CtxParent(c), if c.In? then c.s else L, g, p, Root(b), bRed, gRed)
    requires m'[g].gap == Max(Max(own(g), GapOf(m, Root(b))), GapOf(m, Root(u)))
    ensures var t' := Rotated(s, a, p, b, g, cg, u, bRed, gRed);
            && At(m', CtxRoot(c, p), own, c, t')
            && InOrder(Fill(c, t')) == InOrder(Fill(c, Mk(s, Mk(s, a, p, false, b), g, cg, u)))
  {
    RotateRep(m, m', root, c, s, a, p, b, g, cg, u, bRed, gRed);
    RotateOrder(c, s, a, p, false, b, g, cg, u, bRed, gRed);
    RotateValues(m, m', root, own, c, s, a, p, b, g, cg, u, bRed, gRed);
    RotatedIds(c, s, a, p, b, g, cg, u, bRed, gRed);
  }

  /** Everything a rotation keeps: shape, order and augmented values. */
  lemma RotateUpOk(m: Pool, root: Ptr, own: Own, c: Ctx, s: Side, a: Tree, p: Ptr, b: Tree,
                   g: Ptr, cg: bool, u: Tree, bRed: bool, gRed: bool)
    requires ReadyLinks(m, root, c, s, a, p, b, g, cg, u) && ReadyValues(m, own, c, s, a, p, b, g, u)
    ensures g in m && p in m && g != NULL && p != NULL && g != p && Root(b) != g && Root(b) != p
    ensures (b.Node? ==> b.p in m) && m[g].parent == CtxParent(c) && (c.In? ==> c.p in m)
    ensures var (m', root') := RotateUp(m, root, own, s, g, p, Root(b), bRed, gRed);
            var t' := Rotated(s, a, p, b, g, cg, u, bRed, gRed);
            && m'.Keys == m.Keys && At(m', root', own, c, t')
            && InOrder(Fill(c, t')) == InOrder(Fill(c, Mk(s, Mk(s, a, p, false, b), g, cg, u)))
  {
    ReadyApart(m, root, c, s, a, p, b, g, cg, u);
    var gg, cs := CtxParent(c), if c.In? then c.s else L;
    RotatePointers(m, root, own, s, gg, cs, g, p, Root(b), bRed, gRed);
    RotateValue(m, root, own, s, gg, cs, g, p, Root(b), bRed, gRed);
    var m' := RotateUp(m, root, own, s, g, p, Root(b), bRed, gRed).0;
    RotateDone(m, m', root, own, c, s, a, p, b, g, cg, u, bRed, gRed);
  }

  lemma RotatedIds(c: Ctx, s: Side, a: Tree, p: Ptr, b: Tree, g: Ptr, cg: bool, u: Tree, bRed: bool, gRed: bool)
    ensures var t' := Rotated(s, a, p, b, g, cg, u, bRed, gRed);
            && Ids(Fill(c, t')) == Ids(a) + Ids(b) + Ids(u) + CtxIds(c) + {p, g} && Root(t') == p
  {
    hide Ids, CtxIds, Fill, Mk, Recolor;
    var t' := Rotated(s, a, p, b, g, cg, u, bRed, gRed);
    FillIds(c, t');
    MkIds(s, a, p, cg, Mk(s, Recolor(b, bRed), g, gRed, u));
    MkIds(s, Recolor(b, bRed), g, gRed, u);
    RecolorIds(b, bRed);
    MkRoot(s, a, p, cg, Mk(s, Recolor(b, bRed), g, gRed, u));
  }

  lemma RecolorIds(t: Tree, red: bool)
    ensures Ids(Recolor(t, red)) == Ids(t)
  {
  }

  lemma MkRoot(s: Side, a: Tree, p: Ptr, red: bool, b: Tree)
    ensures Root(Mk(s, a, p, red, b)) == p
  {
  }

  // ---- recolouring

  /** Only colours differ. */
  ghost predicate Recolored(m: Pool, m': Pool) {
    m'.Keys == m.Keys && forall x :: x in m ==> m'[x] == m[x].(red := m'[x].red)
  }

  lemma RecolorLocal(m: Pool, m': Pool, own: Own, xs: set<Ptr>)
    requires Recolored(m, m') && AllLocal(m, own, xs)
    ensures AllLocal(m', own, xs)
  {
    forall x | x in xs ensures LocalOk(m', own, x) {
      assert LocalOk(m, own, x);
    }
  }

  /** A subtree whose root alone may have changed colour. */
  lemma RepRecolor(m: Pool, m': Pool, t: Tree, par: Ptr, red: bool)
    requires Rep(m, t, par) && Uniq(t) && Recolored(m, m')
    requires t.Node? ==> t.p in m && m'[t.p].red == red
    requires forall x :: x in Ids(t) && x in m && x != Root(t) ==> m'[x] == m[x]
    ensures Rep(m', Recolor(t, red), par)
  {
    RepInPool(m, t, par);
    RepRehang(m, m', t, par, par, red);
  }

  lemma RootNull(m: Pool, t: Tree, par: Ptr)
    requires Rep(m, t, par)
    ensures Root(t) == NULL <==> t.Leaf?
  {
  }
}
