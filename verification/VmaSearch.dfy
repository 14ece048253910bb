/** Searches through the list and tree of areas. None of them changes anything. */
module VmaSearch {
  import opened Options
  import opened RbTree
  import opened RbRotate
  import opened VmaList
  import opened VmaSpec
  import opened VmaIndex
  import opened GapSearch

  /** What a search reads. */
  datatype Index = Index(nodes: Pool, root: Ptr, vmas: VmaPool, mmap: Ptr, highest: nat)

  /** List and tree hold the same areas, t the tree and list their order. */
  ghost predicate Placed(ix: Index, t: Tree, list: seq<Ptr>, lo: nat, hi: nat) {
    && ListOk(ix.vmas, ix.mmap, list) && Within(ix.vmas, list) && Sorted(View(ix.vmas, list), lo, hi)
    && Shaped(ix.nodes, ix.root, t, list)
  }

  /** And the tree's values and the highest end are right. */
  ghost predicate Ok(ix: Index, t: Tree, list: seq<Ptr>, lo: nat, hi: nat) {
    && Placed(ix, t, list, lo, hi)
    && Indexed(ix.nodes, ix.root, ix.vmas, t, list) && ix.highest == HighestEnd(View(ix.vmas, list))
  }

  /** One step of a walk down the tree: the node in focus and its area. */
  lemma WindowDown(m: Pool, root: Ptr, t: Tree, v: VmaPool, mmap: Ptr, list: seq<Ptr>, c: Ctx, f: Tree, a: nat, b: nat)
    returns (k: nat)
    requires Window(m, root, t, list, c, f, a, b) && Root(f) != NULL && ListOk(v, mmap, list)
    ensures f.Node? && a <= k < b <= |list| && k == a + |InOrder(f.l)| && list[k] == f.p && f.p in v
      && View(v, list)[k] == AreaOf(v[f.p])
    ensures f.p in m && m[f.p].left == Root(f.l) && m[f.p].right == Root(f.r)
    ensures Window(m, root, t, list, In(c, L, f.p, f.red, f.r), f.l, a, k)
    ensures Window(m, root, t, list, In(c, R, f.p, f.red, f.l), f.r, k + 1, b)
  {
    WindowEmpty(m, root, t, list, c, f, a, b);
    k := WindowStep(m, root, t, list, c, f, a, b);
  }

  lemma IndexedUniq(m: Pool, root: Ptr, v: VmaPool, t: Tree, list: seq<Ptr>)
    requires Indexed(m, root, v, t, list)
    ensures Uniq(t)
  {
  }

  // ---- searches

  /** The first area that ends behind addr. */
  method FindVma(ix: Index, ghost t: Tree, ghost list: seq<Ptr>, ghost lo: nat, ghost hi: nat, addr: nat)
      returns (vma: Ptr, ghost i: nat)
    requires Placed(ix, t, list, lo, hi)
    ensures i <= |list| && vma == Nth(list, i) && EndBy(View(ix.vmas, list), i, addr)
    ensures i < |list| ==> View(ix.vmas, list)[i].end > addr
  {
    hide ListOk, Within, Shaped, Window, Sorted, EndBy, HighestEnd, View;
    ghost var rs := View(ix.vmas, list);
    vma := NULL;
    var rb := ix.root;
    ghost var c, f, a: nat, b: nat := Top, t, 0, |list|;
    WindowTop(ix.nodes, ix.root, t, list);
    EndByNone(rs, addr);
    while rb != NULL
      invariant Window(ix.nodes, ix.root, t, list, c, f, a, b) && rb == Root(f) && vma == Nth(list, b)
      invariant a <= b <= |rs| && EndBy(rs, a, addr) && (b < |rs| ==> rs[b].end > addr)
      decreases f
    {
      ghost var k := WindowDown(ix.nodes, ix.root, t, ix.vmas, ix.mmap, list, c, f, a, b);
      if ix.vmas[rb].end > addr {
        vma := rb;
        if ix.vmas[rb].start <= addr {
          EndByStart(rs, lo, hi, k, addr);
          i := k;
          return;
        }
        rb := ix.nodes[rb].left;
        c, f, b := In(c, L, f.p, f.red, f.r), f.l, k;
      } else {
        EndByNext(rs, lo, hi, k, addr);
        rb := ix.nodes[rb].right;
        c, f, a := In(c, R, f.p, f.red, f.l), f.r, k + 1;
      }
    }
    WindowEmpty(ix.nodes, ix.root, t, list, c, f, a, b);
    i := a;
  }

  /** Where an area [addr, end) would go: behind the first |Before(c)| areas.
      Fails exactly when it would overlap one. */
  method FindVmaLinks(ix: Index, ghost t: Tree, ghost list: seq<Ptr>, ghost lo: nat, ghost hi: nat, addr: nat,
      end: nat) returns (ok: bool, prev: Ptr, parent: Ptr, s: Side, ghost c: Ctx)
    requires Placed(ix, t, list, lo, hi) && addr <= end
    ensures ok <==> !Overlapped(View(ix.vmas, list), addr, end)
    ensures ok ==> Fill(c, Leaf) == t && parent == CtxParent(c) && (c.In? ==> c.s == s)
    ensures ok ==> |Before(c)| <= |list| && prev == Nth(list, |Before(c)| - 1)
    ensures ok ==> EndBy(View(ix.vmas, list), |Before(c)|, addr) && StartFrom(View(ix.vmas, list), |Before(c)|, end)
  {
    hide ListOk, Within, Shaped, Window, Sorted, EndBy, StartFrom, Overlapped, HighestEnd, View;
    ghost var rs := View(ix.vmas, list);
    var link := ix.root;
    prev, parent, s, c := NULL, NULL, L, Top;
    ghost var f, a: nat, b: nat := t, 0, |list|;
    WindowTop(ix.nodes, ix.root, t, list);
    EndByNone(rs, addr);
    StartFromNone(rs, end);
    while link != NULL
      invariant Window(ix.nodes, ix.root, t, list, c, f, a, b) && link == Root(f)
      invariant parent == CtxParent(c) && (c.In? ==> c.s == s) && prev == Nth(list, a - 1)
      invariant a <= b <= |rs| && EndBy(rs, a, addr) && StartFrom(rs, b, end)
      decreases f
    {
      ghost var k := WindowDown(ix.nodes, ix.root, t, ix.vmas, ix.mmap, list, c, f, a, b);
      parent := link;
      if ix.vmas[parent].end > addr {
        if ix.vmas[parent].start < end {
          OverlapFound(rs, k, addr, end);
          ok := false;
          return;
        }
        StartFromNext(rs, lo, hi, k, end);
        s, link := L, ix.nodes[parent].left;
        c, f, b := In(c, L, f.p, f.red, f.r), f.l, k;
      } else {
        EndByNext(rs, lo, hi, k, addr);
        prev := parent;
        s, link := R, ix.nodes[parent].right;
        c, f, a := In(c, R, f.p, f.red, f.l), f.r, k + 1;
      }
    }
    WindowEmpty(ix.nodes, ix.root, t, list, c, f, a, b);
    NoOverlap(rs, a, addr, end);
    ok := true;
  }

  /** Climbs until a node was reached from its right child; NULL if there is none. */
  method ClimbFromRight(ix: Index, ghost t: Tree, ghost list: seq<Ptr>, ghost lo: nat, ghost hi: nat, x: Ptr,
      ghost c0: Ctx, ghost f0: Tree, ghost a0: nat, ghost b0: nat)
    returns (vma: Ptr, ghost c: Ctx, ghost f: Tree, ghost a: nat, ghost b: nat)
    requires Ok(ix, t, list, lo, hi) && Window(ix.nodes, ix.root, t, list, c0, f0, a0, b0) && f0.Node? && f0.p == x
    ensures vma == NULL ==> a0 == 0
    ensures vma != NULL ==> && Window(ix.nodes, ix.root, t, list, c, f, a, b) && f.Node? && f.p == vma
                            && a + |InOrder(f.l)| + 1 == a0
  {
    hide ListOk, Within, Indexed, Shaped, Window, Sorted, HighestEnd, Uniq, InOrder, View;
    IndexedUniq(ix.nodes, ix.root, ix.vmas, t, list);
    vma := x;
    c, f, a, b := c0, f0, a0, b0;
    while true
      invariant Window(ix.nodes, ix.root, t, list, c, f, a, b) && f.Node? && f.p == vma && a == a0
      decreases c
    {
      WindowEmpty(ix.nodes, ix.root, t, list, c, f, a, b);
      var prev := vma;
      vma := ix.nodes[prev].parent;
      if vma == NULL {
        return;
      }
      ghost var a', b' := WindowUp(ix.nodes, ix.root, t, list, c, f, a, b);
      c, f, a, b := c.up, Mk(c.s, f, c.p, c.red, c.sib), a', b';
      if prev == ix.nodes[vma].right {
        return;
      }
    }
  }

  /** The tree-guided search from the top: the greatest feasible address. */
  method FindVaRangeTopdown(ix: Index, ghost t: Tree, ghost list: seq<Ptr>, ghost lo: nat, ghost hi: nat, q: Request)
      returns (r: Option<nat>)
    requires Ok(ix, t, list, lo, hi) && (q.length > 0 || ix.highest <= q.high)
    ensures r.Some? ==> Greatest(View(ix.vmas, list), r.value, q)
    ensures r.None? ==> Infeasible(View(ix.vmas, list), q)
  {
    hide ListOk, Within, Indexed, Shaped, Sorted, HighestEnd, Greatest, Infeasible, View;
    ghost var rs := View(ix.vmas, list);
    var gapEnd := q.high;
    if gapEnd < q.length {
      NoRoom(rs, q);
      return None;
    }
    var highLimit := gapEnd - q.length;
    if q.low > highLimit {
      NoRoom(rs, q);
      return None;
    }
    var gapStart := ix.highest;
    if gapStart <= highLimit {
      HighestIsGreatest(rs, lo, hi, q);
      gapEnd := gapEnd - q.length;
      assert gapEnd >= q.low && gapEnd >= gapStart;
      return Some(gapEnd);
    }
    r := SearchDown(ix, t, list, lo, hi, q, highLimit, q.low + q.length);
  }

  /** The address at the top of a suitable gap. */
  method Clip(ix: Index, ghost t: Tree, ghost list: seq<Ptr>, ghost lo: nat, ghost hi: nat, q: Request, gapStart: nat,
      gapEnd0: nat, ghost k: nat) returns (r: Option<nat>)
    requires Ok(ix, t, list, lo, hi) && q.length > 0 && q.low + q.length <= q.high < ix.highest + q.length
    requires k < |list| && gapStart == GapStart(View(ix.vmas, list), k) && gapEnd0 == View(ix.vmas, list)[k].start
    requires gapStart + q.length <= q.high && gapEnd0 >= q.low + q.length && gapEnd0 - gapStart >= q.length
    requires NoneFrom(View(ix.vmas, list), k + 1, q)
    ensures r.Some? && Greatest(View(ix.vmas, list), r.value, q)
  {
    var gapEnd := gapEnd0;
    if gapEnd > q.high {
      gapEnd := q.high;
    }
    gapEnd := gapEnd - q.length;
    GapIsGreatest(View(ix.vmas, list), lo, hi, k, q, gapEnd);
    assert gapEnd >= q.low && gapEnd >= gapStart;
    r := Some(gapEnd);
  }

  /** Goes right as long as that looks promising. The gaps behind the node it
      ends at are all unsuitable if those behind the start are. */
  method DescendRight(ix: Index, ghost t: Tree, ghost list: seq<Ptr>, ghost lo: nat, ghost hi: nat, x: Ptr, q: Request,
      highLimit: nat, ghost c0: Ctx, ghost f0: Tree, ghost a0: nat, ghost b: nat)
    returns (vma: Ptr, gapStart: nat, ghost c: Ctx, ghost f: Tree, ghost a: nat, ghost k: nat)
    requires Ok(ix, t, list, lo, hi) && q.length > 0 && highLimit == q.high - q.length
    requires Window(ix.nodes, ix.root, t, list, c0, f0, a0, b) && f0.Node? && f0.p == x && x != NULL
    requires NoneFrom(View(ix.vmas, list), b, q)
    ensures Window(ix.nodes, ix.root, t, list, c, f, a, b) && f.Node? && f.p == vma && vma != NULL
    ensures k == a + |InOrder(f.l)| < b && NoneFrom(View(ix.vmas, list), k + 1, q)
      && gapStart == GapStart(View(ix.vmas, list), k)
  {
    hide ListOk, Within, Indexed, Shaped, Window, Sorted, HighestEnd, NoneFrom, InOrder, View;
    vma, c, f, a := x, c0, f0, a0;
    while true
      invariant Window(ix.nodes, ix.root, t, list, c, f, a, b) && f.Node? && f.p == vma && vma != NULL
      decreases f
    {
      k := WindowDown(ix.nodes, ix.root, t, ix.vmas, ix.mmap, list, c, f, a, b);
      GapAt(ix.vmas, ix.mmap, list, k, lo, hi);
      gapStart := if ix.vmas[vma].prev != NULL then ix.vmas[ix.vmas[vma].prev].end else 0;
      if gapStart > highLimit || GapOf(ix.nodes, ix.nodes[vma].right) < q.length {
        RightDone(ix.nodes, ix.root, ix.vmas, ix.mmap, t, list, c, f, k, b, lo, hi, q);
        return;
      }
      vma := ix.nodes[vma].right;
      c, f, a := In(c, R, f.p, f.red, f.l), f.r, k + 1;
    }
  }

  /** The part of the search behind the check of the space above all areas. */
  method SearchDown(ix: Index, ghost t: Tree, ghost list: seq<Ptr>, ghost lo: nat, ghost hi: nat, q: Request,
      highLimit: nat, lowLimit: nat) returns (r: Option<nat>)
    requires Ok(ix, t, list, lo, hi) && q.length > 0 && highLimit == q.high - q.length && lowLimit == q.low + q.length
    requires lowLimit <= q.high && ix.highest > highLimit
    ensures r.Some? ==> Greatest(View(ix.vmas, list), r.value, q)
    ensures r.None? ==> Infeasible(View(ix.vmas, list), q)
  {
    hide ListOk, Within, Indexed, Shaped, Window, Sorted, HighestEnd, NoneFrom, Greatest, Infeasible, InOrder, View;
    ghost var rs := View(ix.vmas, list);
    WindowTop(ix.nodes, ix.root, t, list);
    ghost var c, f, a: nat, b: nat, k: nat := Top, t, 0, |list|, 0;
    WindowEmpty(ix.nodes, ix.root, t, list, c, f, a, b);
    if ix.root == NULL || ix.nodes[ix.root].gap < q.length {
      Pruned(ix.nodes, ix.root, ix.vmas, ix.mmap, t, list, c, f, a, b, lo, hi, q);
      NoGap(rs, lo, hi, q);
      return None;
    }
    NoneEmpty(rs, q);
    var vma, gapStart;
    vma, gapStart, c, f, a, k := DescendRight(ix, t, list, lo, hi, ix.root, q, highLimit, c, f, a, b);
    r := SearchFrom(ix, t, list, lo, hi, vma, gapStart, q, highLimit, lowLimit, c, f, a, b, k);
  }

  /** From a node with no suitable gap to the next candidate before it; NULL if
      there is none. */
  method MoveLeft(ix: Index, ghost t: Tree, ghost list: seq<Ptr>, ghost lo: nat, ghost hi: nat, x: Ptr, q: Request,
      highLimit: nat, ghost c0: Ctx, ghost f0: Tree, ghost a0: nat, ghost b0: nat, ghost k0: nat)
    returns (vma: Ptr, gapStart: nat, ghost c: Ctx, ghost f: Tree, ghost a: nat, ghost b: nat, ghost k: nat)
    requires Ok(ix, t, list, lo, hi) && q.length > 0 && highLimit == q.high - q.length
    requires Window(ix.nodes, ix.root, t, list, c0, f0, a0, b0) && f0.Node? && f0.p == x && x != NULL
    requires k0 == a0 + |InOrder(f0.l)| && NoneFrom(View(ix.vmas, list), k0 + 1, q) && Unfit(View(ix.vmas, list), k0, q)
    ensures vma == NULL ==> NoneFrom(View(ix.vmas, list), 0, q)
    ensures vma != NULL ==> && Window(ix.nodes, ix.root, t, list, c, f, a, b) && f.Node? && f.p == vma
                            && k == a + |InOrder(f.l)| < k0 && NoneFrom(View(ix.vmas, list), k + 1, q)
                            && gapStart == GapStart(View(ix.vmas, list), k)
  {
    hide ListOk, Within, Indexed, Shaped, Window, Sorted, HighestEnd, NoneFrom, Unfit, InOrder, View;
    ghost var rs := View(ix.vmas, list);
    k := WindowDown(ix.nodes, ix.root, t, ix.vmas, ix.mmap, list, c0, f0, a0, b0);
    if GapOf(ix.nodes, ix.nodes[x].left) >= q.length {
      NoneAt(rs, k, q);
      b := k;
      vma, gapStart, c, f, a, k :=
        DescendRight(ix, t, list, lo, hi, ix.nodes[x].left, q, highLimit, In(c0, L, f0.p, f0.red, f0.r), f0.l, a0, b);
    } else {
      LeftDone(ix.nodes, ix.root, ix.vmas, ix.mmap, t, list, c0, f0, a0, k, lo, hi, q);
      vma, c, f, a, b := ClimbFromRight(ix, t, list, lo, hi, x, c0, f0, a0, b0);
      gapStart := 0;
      if vma != NULL {
        k := WindowDown(ix.nodes, ix.root, t, ix.vmas, ix.mmap, list, c, f, a, b);
        GapAt(ix.vmas, ix.mmap, list, k, lo, hi);
        gapStart := if ix.vmas[vma].prev != NULL then ix.vmas[ix.vmas[vma].prev].end else 0;
      }
    }
  }

  /** Checks gaps from right to left, starting at a node behind which there is no
      suitable gap. */
  method SearchFrom(ix: Index, ghost t: Tree, ghost list: seq<Ptr>, ghost lo: nat, ghost hi: nat, x: Ptr, gap0: nat,
      q: Request, highLimit: nat, lowLimit: nat,
                    ghost c0: Ctx, ghost f0: Tree, ghost a0: nat, ghost b0: nat, ghost k0: nat) returns (r: Option<nat>)
    requires Ok(ix, t, list, lo, hi) && q.length > 0 && highLimit == q.high - q.length && lowLimit == q.low + q.length
    requires lowLimit <= q.high && ix.highest > highLimit
    requires Window(ix.nodes, ix.root, t, list, c0, f0, a0, b0) && f0.Node? && f0.p == x && x != NULL
    requires k0 == a0 + |InOrder(f0.l)| && NoneFrom(View(ix.vmas, list), k0 + 1, q)
      && gap0 == GapStart(View(ix.vmas, list), k0)
    ensures r.Some? ==> Greatest(View(ix.vmas, list), r.value, q)
    ensures r.None? ==> Infeasible(View(ix.vmas, list), q)
  {
    hide ListOk, Within, Indexed, Shaped, Window, Sorted, HighestEnd, NoneFrom, Greatest, Infeasible, InOrder, View;
    ghost var rs := View(ix.vmas, list);
    var vma, gapStart := x, gap0;
    ghost var c, f, a: nat, b: nat, k: nat := c0, f0, a0, b0, k0;
    while true
      invariant Window(ix.nodes, ix.root, t, list, c, f, a, b) && f.Node? && f.p == vma && vma != NULL
      invariant k == a + |InOrder(f.l)| && NoneFrom(rs, k + 1, q) && gapStart == GapStart(rs, k)
      decreases k
    {
      k := WindowDown(ix.nodes, ix.root, t, ix.vmas, ix.mmap, list, c, f, a, b);
      var gapEnd := ix.vmas[vma].start;
      if gapEnd < lowLimit {
        NoneBelow(rs, lo, hi, k, q);
        return None;
      }
      if gapStart <= highLimit && gapEnd - gapStart >= q.length {
        r := Clip(ix, t, list, lo, hi, q, gapStart, gapEnd, k);
        return;
      }
      vma, gapStart, c, f, a, b, k := MoveLeft(ix, t, list, lo, hi, vma, q, highLimit, c, f, a, b, k);
      if vma == NULL {
        NoGap(rs, lo, hi, q);
        return None;
      }
    }
  }

  // ---- from the bottom

  /** Climbs until a node was reached from its left child; NULL if there is none. */
  method ClimbFromLeft(ix: Index, ghost t: Tree, ghost list: seq<Ptr>, ghost lo: nat, ghost hi: nat,
                       x: Ptr, ghost c0: Ctx, ghost f0: Tree, ghost a0: nat, ghost b0: nat)
    returns (vma: Ptr, ghost c: Ctx, ghost f: Tree, ghost a: nat, ghost b: nat)
    requires Ok(ix, t, list, lo, hi) && Window(ix.nodes, ix.root, t, list, c0, f0, a0, b0) && f0.Node? && f0.p == x
    ensures vma == NULL ==> b0 == |list|
    ensures vma != NULL ==> && Window(ix.nodes, ix.root, t, list, c, f, a, b) && f.Node? && f.p == vma
                            && a + |InOrder(f.l)| == b0 > 0
  {
    hide ListOk, Within, Indexed, Shaped, Window, Sorted, HighestEnd, Uniq, InOrder, View;
    IndexedUniq(ix.nodes, ix.root, ix.vmas, t, list);
    vma := x;
    c, f, a, b := c0, f0, a0, b0;
    while true
      invariant Window(ix.nodes, ix.root, t, list, c, f, a, b) && f.Node? && f.p == vma && b == b0
      decreases c
    {
      WindowEmpty(ix.nodes, ix.root, t, list, c, f, a, b);
      var prev := vma;
      vma := ix.nodes[prev].parent;
      if vma == NULL {
        return;
      }
      ghost var a', b' := WindowUp(ix.nodes, ix.root, t, list, c, f, a, b);
      c, f, a, b := c.up, Mk(c.s, f, c.p, c.red, c.sib), a', b';
      if prev == ix.nodes[vma].left {
        return;
      }
    }
  }

  /** The tree-guided search from the bottom: the least feasible address. */
  method FindVaRangeBottomup(ix: Index, ghost t: Tree, ghost list: seq<Ptr>, ghost lo: nat, ghost hi: nat, q: Request)
    returns (r: Option<nat>)
    requires Ok(ix, t, list, lo, hi) && q.length > 0
    ensures r.Some? ==> Least(View(ix.vmas, list), r.value, q)
    ensures r.None? ==> Infeasible(View(ix.vmas, list), q)
  {
    hide ListOk, Within, Indexed, Shaped, Window, Sorted, HighestEnd, NoneBefore, Least, Infeasible, InOrder, View;
    ghost var rs := View(ix.vmas, list);
    if q.high < q.length || q.low > q.high - q.length {
      NoRoom(rs, q);
      return None;
    }
    WindowTop(ix.nodes, ix.root, t, list);
    WindowEmpty(ix.nodes, ix.root, t, list, Top, t, 0, |list|);
    NoneBeforeFirst(rs, q);
    if ix.root == NULL || ix.nodes[ix.root].gap < q.length {
      PrunedAll(ix, t, list, lo, hi, q);
      r := CheckHighest(ix, t, list, lo, hi, q);
    } else {
      var vma, gapEnd;
      ghost var c, f, b, k;
      vma, gapEnd, c, f, b, k := DescendLeft(ix, t, list, lo, hi, ix.root, q, Top, t, 0, |list|);
      r := SearchUpFrom(ix, t, list, lo, hi, vma, gapEnd, q, c, f, 0, b, k);
    }
  }

  lemma PrunedAll(ix: Index, t: Tree, list: seq<Ptr>, lo: nat, hi: nat, q: Request)
    requires Ok(ix, t, list, lo, hi) && GapOf(ix.nodes, ix.root) < q.length
    ensures NoneBefore(View(ix.vmas, list), |list|, q)
  {
    hide ListOk, Indexed, Window, Sorted, HighestEnd, InOrder, Suitable;
    WindowTop(ix.nodes, ix.root, t, list);
    WindowEmpty(ix.nodes, ix.root, t, list, Top, t, 0, |list|);
    Pruned(ix.nodes, ix.root, ix.vmas, ix.mmap, t, list, Top, t, 0, |list|, lo, hi, q);
  }

  /** No gap before an area will do; the space behind the last might. */
  method CheckHighest(ix: Index, ghost t: Tree, ghost list: seq<Ptr>, ghost lo: nat, ghost hi: nat, q: Request)
    returns (r: Option<nat>)
    requires Ok(ix, t, list, lo, hi) && q.length > 0 && q.low + q.length <= q.high
    requires NoneBefore(View(ix.vmas, list), |list|, q)
    ensures r.Some? ==> Least(View(ix.vmas, list), r.value, q)
    ensures r.None? ==> Infeasible(View(ix.vmas, list), q)
  {
    var gapStart := ix.highest;
    if gapStart > q.high - q.length {
      NoGap(View(ix.vmas, list), lo, hi, q);
      return None;
    }
    if gapStart < q.low {
      gapStart := q.low;
    }
    HighestIsLeast(View(ix.vmas, list), lo, hi, q, gapStart);
    r := Some(gapStart);
  }

  /** Goes left as long as that looks promising. */
  method DescendLeft(ix: Index, ghost t: Tree, ghost list: seq<Ptr>, ghost lo: nat, ghost hi: nat,
                     x: Ptr, q: Request, ghost c0: Ctx, ghost f0: Tree, ghost a: nat, ghost b0: nat)
    returns (vma: Ptr, gapEnd: nat, ghost c: Ctx, ghost f: Tree, ghost b: nat, ghost k: nat)
    requires Ok(ix, t, list, lo, hi) && q.length > 0 && q.low + q.length <= q.high
    requires Window(ix.nodes, ix.root, t, list, c0, f0, a, b0) && f0.Node? && f0.p == x && x != NULL
    requires NoneBefore(View(ix.vmas, list), a, q)
    ensures Window(ix.nodes, ix.root, t, list, c, f, a, b) && f.Node? && f.p == vma && vma != NULL
    ensures k == a + |InOrder(f.l)| < b <= |list| && NoneBefore(View(ix.vmas, list), k, q)
      && gapEnd == View(ix.vmas, list)[k].start
  {
    hide ListOk, Within, Indexed, Shaped, Window, Sorted, HighestEnd, NoneBefore, InOrder, View;
    vma, c, f, b := x, c0, f0, b0;
    while true
      invariant Window(ix.nodes, ix.root, t, list, c, f, a, b) && f.Node? && f.p == vma && vma != NULL
      decreases f
    {
      k := WindowDown(ix.nodes, ix.root, t, ix.vmas, ix.mmap, list, c, f, a, b);
      gapEnd := ix.vmas[vma].start;
      if gapEnd < q.low + q.length || GapOf(ix.nodes, ix.nodes[vma].left) < q.length {
        LeftOut(ix.nodes, ix.root, ix.vmas, ix.mmap, t, list, c, f, a, k, lo, hi, q);
        return;
      }
      vma := ix.nodes[vma].left;
      c, f, b := In(c, L, f.p, f.red, f.r), f.l, k;
    }
  }

  /** From a node with no suitable gap to the next candidate behind it; NULL if
      there is none. */
  method MoveRight(ix: Index, ghost t: Tree, ghost list: seq<Ptr>, ghost lo: nat, ghost hi: nat,
                   x: Ptr, q: Request, ghost c0: Ctx, ghost f0: Tree, ghost a0: nat, ghost b0: nat, ghost k0: nat)
    returns (vma: Ptr, gapEnd: nat, ghost c: Ctx, ghost f: Tree, ghost a: nat, ghost b: nat, ghost k: nat)
    requires Ok(ix, t, list, lo, hi) && q.length > 0 && q.low + q.length <= q.high
    requires Window(ix.nodes, ix.root, t, list, c0, f0, a0, b0) && f0.Node? && f0.p == x && x != NULL
    requires k0 == a0 + |InOrder(f0.l)| && NoneBefore(View(ix.vmas, list), k0, q) && Unfit(View(ix.vmas, list), k0, q)
    ensures vma == NULL ==> NoneBefore(View(ix.vmas, list), |list|, q)
    ensures vma != NULL ==> && Window(ix.nodes, ix.root, t, list, c, f, a, b) && f.Node? && f.p == vma
                            && k0 < k == a + |InOrder(f.l)| < |list| && NoneBefore(View(ix.vmas, list), k, q)
                            && gapEnd == View(ix.vmas, list)[k].start
  {
    hide ListOk, Within, Indexed, Shaped, Window, Sorted, HighestEnd, NoneBefore, Unfit, InOrder, View;
    ghost var rs := View(ix.vmas, list);
    k := WindowDown(ix.nodes, ix.root, t, ix.vmas, ix.mmap, list, c0, f0, a0, b0);
    if GapOf(ix.nodes, ix.nodes[x].right) >= q.length {
      NoneUpTo(rs, k, q);
      a := k + 1;
      vma, gapEnd, c, f, b, k :=
        DescendLeft(ix, t, list, lo, hi, ix.nodes[x].right, q, In(c0, R, f0.p, f0.red, f0.l), f0.r, a, b0);
    } else {
      RightOut(ix.nodes, ix.root, ix.vmas, ix.mmap, t, list, c0, f0, k, b0, lo, hi, q);
      vma, c, f, a, b := ClimbFromLeft(ix, t, list, lo, hi, x, c0, f0, a0, b0);
      gapEnd := 0;
      if vma != NULL {
        k := WindowDown(ix.nodes, ix.root, t, ix.vmas, ix.mmap, list, c, f, a, b);
        gapEnd := ix.vmas[vma].start;
      }
    }
  }

  /** Checks gaps from left to right, starting at a node before which there is no
      suitable gap. */
  method SearchUpFrom(ix: Index, ghost t: Tree, ghost list: seq<Ptr>, ghost lo: nat, ghost hi: nat, x: Ptr, gap0: nat,
                      q: Request, ghost c0: Ctx, ghost f0: Tree, ghost a0: nat, ghost b0: nat, ghost k0: nat)
    returns (r: Option<nat>)
    requires Ok(ix, t, list, lo, hi) && q.length > 0 && q.low + q.length <= q.high
    requires Window(ix.nodes, ix.root, t, list, c0, f0, a0, b0) && f0.Node? && f0.p == x && x != NULL
    requires k0 == a0 + |InOrder(f0.l)| < |list| && NoneBefore(View(ix.vmas, list), k0, q)
    requires gap0 == View(ix.vmas, list)[k0].start
    ensures r.Some? ==> Least(View(ix.vmas, list), r.value, q)
    ensures r.None? ==> Infeasible(View(ix.vmas, list), q)
  {
    hide ListOk, Within, Indexed, Shaped, Window, Sorted, HighestEnd, NoneBefore, Least, Infeasible, InOrder, View;
    ghost var rs := View(ix.vmas, list);
    var vma, gapEnd := x, gap0;
    ghost var c, f, a: nat, b: nat, k: nat := c0, f0, a0, b0, k0;
    while true
      invariant Window(ix.nodes, ix.root, t, list, c, f, a, b) && f.Node? && f.p == vma && vma != NULL
      invariant k == a + |InOrder(f.l)| < |list| && NoneBefore(rs, k, q) && gapEnd == rs[k].start
      decreases |list| - k
    {
      k := WindowDown(ix.nodes, ix.root, t, ix.vmas, ix.mmap, list, c, f, a, b);
      GapAt(ix.vmas, ix.mmap, list, k, lo, hi);
      var gapStart := if ix.vmas[vma].prev != NULL then ix.vmas[ix.vmas[vma].prev].end else 0;
      if gapStart > q.high - q.length {
        NoneAbove(rs, lo, hi, k, q);
        return None;
      }
      if gapEnd >= q.low + q.length && gapEnd - gapStart >= q.length {
        r := Some(if gapStart < q.low then q.low else gapStart);
        GapIsLeast(rs, lo, hi, k, q, r.value);
        return;
      }
      vma, gapEnd, c, f, a, b, k := MoveRight(ix, t, list, lo, hi, vma, q, c, f, a, b, k);
      if vma == NULL {
        r := CheckHighest(ix, t, list, lo, hi, q);
        return;
      }
    }
  }
}
