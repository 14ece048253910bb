/** Red-black trees in memory, and the trees they stand for.

    A pool gives each node's links, colour and augmented value, as the fields
    of an embedded rb_node do. Ghost trees and contexts describe what a pool
    represents. Mirror-image cases share one text through a side. */
module RbTree {
  import opened Pow2

  type Ptr = nat

  const NULL: Ptr := 0

  datatype Side = L | R {
    function Opp(): Side { if this == L then R else L }
  }

  datatype RbNode = RbNode(parent: Ptr, red: bool, left: Ptr, right: Ptr, gap: nat) {
    function Child(s: Side): Ptr { if s == L then left else right }

    function SetChild(s: Side, c: Ptr): RbNode {
      if s == L then this.(left := c) else this.(right := c)
    }
  }

  type Pool = map<Ptr, RbNode>

  // ---- trees

  datatype Tree = Leaf | Node(l: Tree, p: Ptr, red: bool, r: Tree) {
    function Sub(s: Side): Tree
      requires Node?
    {
      if s == L then l else r
    }
  }

  /** A node with subtree a on side s and b on the other. */
  function Mk(s: Side, a: Tree, p: Ptr, red: bool, b: Tree): Tree {
    if s == L then Node(a, p, red, b) else Node(b, p, red, a)
  }

  function Root(t: Tree): Ptr { if t.Leaf? then NULL else t.p }

  function InOrder(t: Tree): seq<Ptr> {
    if t.Leaf? then [] else InOrder(t.l) + [t.p] + InOrder(t.r)
  }

  ghost function Ids(t: Tree): set<Ptr> {
    if t.Leaf? then {} else Ids(t.l) + {t.p} + Ids(t.r)
  }

  /** No node occurs twice. */
  ghost predicate Uniq(t: Tree) {
    t.Node? ==>
      && t.p !in Ids(t.l) && t.p !in Ids(t.r) && Ids(t.l) !! Ids(t.r)
      && Uniq(t.l) && Uniq(t.r)
  }

  // ---- red-black rules

  predicate Red(t: Tree) { t.Node? && t.red }

  /** Black nodes on the leftmost path. */
  function BH(t: Tree): nat {
    if t.Leaf? then 0 else BH(t.l) + if t.red then 0 else 1
  }

  /** Rules 4 and 5: a red node has black children, and all paths from a node to
      its leaves have the same number of black nodes. */
  predicate SubOk(t: Tree) {
    t.Node? ==>
      && SubOk(t.l) && SubOk(t.r) && BH(t.l) == BH(t.r)
      && (t.red ==> !Red(t.l) && !Red(t.r))
  }

  /** Rule 2 as well: the root is black. */
  predicate RedBlack(t: Tree) { !Red(t) && SubOk(t) }

  function Height(t: Tree): nat {
    if t.Leaf? then 0 else 1 + if Height(t.l) < Height(t.r) then Height(t.r) else Height(t.l)
  }

  /** No path is more than twice as long as another, and the nodes of a tree grow
      exponentially with its black height: the height is logarithmic. */
  lemma {:induction false} SubHeight(t: Tree)
    requires SubOk(t)
    ensures Height(t) <= 2 * BH(t) + (if Red(t) then 1 else 0) && Pow(BH(t)) <= |InOrder(t)| + 1
    decreases t
  {
    if t.Node? {
      SubHeight(t.l);
      SubHeight(t.r);
    }
  }

  lemma HeightIsLogarithmic(t: Tree)
    requires RedBlack(t)
    ensures Height(t) <= 2 * BH(t) && Pow(BH(t)) <= |InOrder(t)| + 1
  {
    SubHeight(t);
  }

  // ---- contexts: a tree with one subtree missing

  /** The hole is on side s of p; sib is on the other side. */
  datatype Ctx = Top | In(up: Ctx, s: Side, p: Ptr, red: bool, sib: Tree)

  function Fill(c: Ctx, t: Tree): Tree
    decreases c
  {
    if c.Top? then t else Fill(c.up, Mk(c.s, t, c.p, c.red, c.sib))
  }

  function CtxParent(c: Ctx): Ptr { if c.Top? then NULL else c.p }

  function CtxRoot(c: Ctx, hole: Ptr): Ptr
    decreases c
  {
    if c.Top? then hole else CtxRoot(c.up, c.p)
  }

  function Before(c: Ctx): seq<Ptr> {
    if c.Top? then [] else Before(c.up) + if c.s == L then [] else InOrder(c.sib) + [c.p]
  }

  function Behind(c: Ctx): seq<Ptr> {
    if c.Top? then [] else (if c.s == L then [c.p] + InOrder(c.sib) else []) + Behind(c.up)
  }

  ghost function CtxIds(c: Ctx): set<Ptr> {
    if c.Top? then {} else {c.p} + Ids(c.sib) + CtxIds(c.up)
  }

  predicate CtxRed(c: Ctx) { c.In? && c.red }

  /** Filling the hole with a tree of black height h, and of a colour that suits
      the hole's parent, gives a red-black tree. */
  predicate CtxOk(c: Ctx, h: nat)
    decreases c
  {
    c.In? ==>
      && SubOk(c.sib) && BH(c.sib) == h
      && (c.red ==> !Red(c.sib) && c.up.In? && !c.up.red)
      && CtxOk(c.up, h + if c.red then 0 else 1)
  }

  lemma {:induction false} FillInOrder(c: Ctx, t: Tree)
    ensures InOrder(Fill(c, t)) == Before(c) + InOrder(t) + Behind(c)
    decreases c
  {
    if c.In? {
      FillInOrder(c.up, Mk(c.s, t, c.p, c.red, c.sib));
      MkOrder(c.s, t, c.p, c.red, c.sib);
      Glue(Before(c.up), InOrder(t), c.p, InOrder(c.sib), Behind(c.up));
    }
  }

  lemma Glue(pre: seq<Ptr>, t: seq<Ptr>, p: Ptr, u: seq<Ptr>, post: seq<Ptr>)
    ensures pre + (t + [p] + u) + post == (pre + []) + t + (([p] + u) + post)
    ensures pre + (u + [p] + t) + post == (pre + (u + [p])) + t + ([] + post)
  {
  }

  lemma {:induction false} FillIds(c: Ctx, t: Tree)
    ensures Ids(Fill(c, t)) == CtxIds(c) + Ids(t)
    decreases c
  {
    if c.In? {
      FillIds(c.up, Mk(c.s, t, c.p, c.red, c.sib));
    }
  }

  lemma {:induction false} FillUniq(c: Ctx, t: Tree)
    requires Uniq(Fill(c, t))
    ensures Uniq(t) && CtxIds(c) !! Ids(t)
    ensures c.In? ==> && c.p !in Ids(c.sib) && Uniq(c.sib) && Uniq(Fill(c.up, Mk(c.s, t, c.p, c.red, c.sib)))
                      && CtxIds(c.up) !! Ids(c.sib) && c.p !in CtxIds(c.up)
    decreases c
  {
    if c.In? {
      FillUniq(c.up, Mk(c.s, t, c.p, c.red, c.sib));
    }
  }

  /** Replacing a subtree by one over no other nodes. */
  lemma {:induction false} FillUniqSwap(c: Ctx, t: Tree, t': Tree)
    requires Uniq(Fill(c, t)) && Ids(t') <= Ids(t) && Uniq(t')
    ensures Uniq(Fill(c, t'))
    decreases c
  {
    FillUniq(c, t);
    if c.In? {
      FillUniqSwap(c.up, Mk(c.s, t, c.p, c.red, c.sib), Mk(c.s, t', c.p, c.red, c.sib));
    }
  }

  /** A hole filled suitably: rule by rule. */
  lemma {:induction false} FillRedBlack(c: Ctx, t: Tree)
    requires CtxOk(c, BH(t)) && SubOk(t)
    requires Red(t) ==> c.In? && !c.red
    ensures RedBlack(Fill(c, t))
    decreases c
  {
    if c.In? {
      FillRedBlack(c.up, Mk(c.s, t, c.p, c.red, c.sib));
    }
  }

  /** Opening a red-black tree at any place gives a suitable context. */
  lemma {:induction false} CtxOfRedBlack(c: Ctx, t: Tree)
    requires RedBlack(Fill(c, t))
    ensures CtxOk(c, BH(t)) && SubOk(t) && (Red(t) ==> c.In? && !c.red)
    decreases c
  {
    if c.In? {
      CtxOfRedBlack(c.up, Mk(c.s, t, c.p, c.red, c.sib));
    }
  }

  // ---- representation

  /** The pool holds t at Root(t), below parent par. */
  ghost predicate Rep(m: Pool, t: Tree, par: Ptr)
    decreases t
  {
    t.Node? ==>
      && t.p != NULL && t.p in m
      && m[t.p].parent == par && m[t.p].red == t.red
      && m[t.p].left == Root(t.l) && m[t.p].right == Root(t.r)
      && Rep(m, t.l, t.p) && Rep(m, t.r, t.p)
  }

  ghost predicate RepCtx(m: Pool, c: Ctx, hole: Ptr)
    decreases c
  {
    c.In? ==>
      && c.p != NULL && c.p in m
      && m[c.p].parent == CtxParent(c.up) && m[c.p].red == c.red
      && m[c.p].Child(c.s) == hole && m[c.p].Child(c.s.Opp()) == Root(c.sib)
      && Rep(m, c.sib, c.p) && RepCtx(m, c.up, c.p)
  }

  lemma {:induction false} FillRep(m: Pool, c: Ctx, t: Tree)
    ensures Rep(m, Fill(c, t), NULL) <==> Rep(m, t, CtxParent(c)) && RepCtx(m, c, Root(t))
    ensures Root(Fill(c, t)) == CtxRoot(c, Root(t))
    decreases c
  {
    if c.In? {
      FillRep(m, c.up, Mk(c.s, t, c.p, c.red, c.sib));
    }
  }

  /** Same links and colour; the augmented value may differ. */
  predicate SameLinks(m: Pool, m': Pool, x: Ptr) {
    x in m && x in m' && m'[x] == m[x].(gap := m'[x].gap)
  }

  lemma {:induction false} RepFrame(m: Pool, m': Pool, t: Tree, par: Ptr)
    requires Rep(m, t, par) && forall x :: x in Ids(t) ==> SameLinks(m, m', x)
    ensures Rep(m', t, par)
    decreases t
  {
    if t.Node? {
      assert SameLinks(m, m', t.p);
      RepFrame(m, m', t.l, t.p);
      RepFrame(m, m', t.r, t.p);
    }
  }

  lemma {:induction false} CtxFrame(m: Pool, m': Pool, c: Ctx, hole: Ptr)
    requires RepCtx(m, c, hole) && forall x :: x in CtxIds(c) ==> SameLinks(m, m', x)
    ensures RepCtx(m', c, hole)
    decreases c
  {
    if c.In? {
      assert SameLinks(m, m', c.p);
      RepFrame(m, m', c.sib, c.p);
      CtxFrame(m, m', c.up, c.p);
    }
  }

  /** Every node of a represented tree is in the pool. */
  lemma {:induction false} RepInPool(m: Pool, t: Tree, par: Ptr)
    requires Rep(m, t, par)
    ensures forall x :: x in Ids(t) ==> x in m && x != NULL
    decreases t
  {
    if t.Node? {
      RepInPool(m, t.l, t.p);
      RepInPool(m, t.r, t.p);
    }
  }

  /** Any node can be brought into focus. */
  lemma {:induction false} Focus(c: Ctx, t: Tree, x: Ptr) returns (c': Ctx, t': Tree)
    requires x in Ids(t)
    ensures Fill(c', t') == Fill(c, t) && t'.Node? && t'.p == x
    decreases t
  {
    if t.p == x {
      return c, t;
    } else if x in Ids(t.l) {
      assert Fill(In(c, L, t.p, t.red, t.r), t.l) == Fill(c, t);
      c', t' := Focus(In(c, L, t.p, t.red, t.r), t.l, x);
    } else {
      assert Fill(In(c, R, t.p, t.red, t.l), t.r) == Fill(c, t);
      c', t' := Focus(In(c, R, t.p, t.red, t.l), t.r, x);
    }
  }

  // ---- one level at a time, for either side

  lemma MkRep(m: Pool, s: Side, a: Tree, p: Ptr, red: bool, b: Tree, par: Ptr)
    ensures Rep(m, Mk(s, a, p, red, b), par) <==>
              && p != NULL && p in m && m[p].parent == par && m[p].red == red
              && m[p].Child(s) == Root(a) && m[p].Child(s.Opp()) == Root(b)
              && Rep(m, a, p) && Rep(m, b, p)
    ensures Root(Mk(s, a, p, red, b)) == p
  {
  }

  lemma MkIds(s: Side, a: Tree, p: Ptr, red: bool, b: Tree)
    ensures Ids(Mk(s, a, p, red, b)) == Ids(a) + {p} + Ids(b)
    ensures Uniq(Mk(s, a, p, red, b)) <==>
              p !in Ids(a) && p !in Ids(b) && Ids(a) !! Ids(b) && Uniq(a) && Uniq(b)
  {
  }

  lemma MkOrder(s: Side, a: Tree, p: Ptr, red: bool, b: Tree)
    ensures InOrder(Mk(s, a, p, red, b))
            == if s == L then InOrder(a) + [p] + InOrder(b) else InOrder(b) + [p] + InOrder(a)
  {
  }

  lemma MkRules(s: Side, a: Tree, p: Ptr, red: bool, b: Tree)
    ensures SubOk(Mk(s, a, p, red, b)) <==>
              SubOk(a) && SubOk(b) && BH(a) == BH(b) && (red ==> !Red(a) && !Red(b))
    ensures BH(a) == BH(b) ==> BH(Mk(s, a, p, red, b)) == BH(a) + if red then 0 else 1
    ensures Red(Mk(s, a, p, red, b)) == red
  {
  }

  /** The order around a node in focus. */
  lemma FocusOrder(c: Ctx, f: Tree)
    requires f.Node?
    ensures InOrder(Fill(c, f)) == (Before(c) + InOrder(f.l)) + [f.p] + (InOrder(f.r) + Behind(c))
  {
    FillInOrder(c, f);
    Around(Before(c), InOrder(f.l), f.p, InOrder(f.r), Behind(c));
  }

  lemma Around(pre: seq<Ptr>, l: seq<Ptr>, p: Ptr, r: seq<Ptr>, post: seq<Ptr>)
    ensures pre + (l + [p] + r) + post == (pre + l) + [p] + (r + post)
  {
  }

  lemma LeafOrder(c: Ctx, x: Ptr, red: bool)
    ensures InOrder(Fill(c, Node(Leaf, x, red, Leaf))) == Before(c) + [x] + Behind(c)
  {
    assert InOrder(Leaf) == [];
    assert InOrder(Node(Leaf, x, red, Leaf)) == [] + [x] + [] == [x];
    FillInOrder(c, Node(Leaf, x, red, Leaf));
  }
}
