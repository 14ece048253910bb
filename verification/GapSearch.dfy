/** Which gaps can hold a range, and what the tree's values say about them. */
module GapSearch {
  import opened RbTree
  import opened RbRotate
  import opened VmaList
  import opened VmaSpec
  import opened VmaIndex

  /** A request for length bytes inside [low, high). */
  datatype Request = Request(length: nat, low: nat, high: nat)

  function GapStart(rs: seq<Area>, i: int): nat { if 0 < i <= |rs| then rs[i - 1].end else 0 }

  /** The gap before area i can hold the request. */
  ghost predicate Suitable(rs: seq<Area>, i: int, q: Request) {
    && 0 <= i < |rs|
    && GapStart(rs, i) + q.length <= q.high && rs[i].start >= q.low + q.length
    && rs[i].start - GapStart(rs, i) >= q.length
  }

  /** No gap before areas i up to j is suitable. */
  ghost predicate NoneIn(rs: seq<Area>, i: int, j: int, q: Request) {
    forall k :: i <= k < j ==> !Suitable(rs, k, q)
  }

  ghost predicate NoneFrom(rs: seq<Area>, i: int, q: Request) { NoneIn(rs, i, |rs|, q) }

  /** Address a can be given out. */
  ghost predicate Feasible(rs: seq<Area>, a: int, q: Request) {
    q.low <= a && a + q.length <= q.high && FreeRange(rs, a, q.length)
  }

  ghost predicate Greatest(rs: seq<Area>, a: int, q: Request) {
    Feasible(rs, a, q) && forall x :: Feasible(rs, x, q) ==> x <= a
  }

  ghost predicate Least(rs: seq<Area>, a: int, q: Request) {
    Feasible(rs, a, q) && forall x :: Feasible(rs, x, q) ==> a <= x
  }

  ghost predicate Infeasible(rs: seq<Area>, q: Request) {
    forall x :: !Feasible(rs, x, q)
  }

  /** A feasible address fits a suitable gap, or the space behind the last area. */
  lemma FeasibleGap(rs: seq<Area>, lo: nat, hi: nat, x: int, q: Request) returns (i: nat)
    requires Sorted(rs, lo, hi) && Feasible(rs, x, q) && q.length > 0
    ensures i <= |rs| && GapStart(rs, i) <= x && (i < |rs| ==> Suitable(rs, i, q) && x + q.length <= rs[i].start)
    ensures i == |rs| ==> HighestEnd(rs) <= x
  {
    i := FreeInGap(rs, lo, hi, x, q.length);
  }

  lemma HighestIsGreatest(rs: seq<Area>, lo: nat, hi: nat, q: Request)
    requires Sorted(rs, lo, hi) && q.length <= q.high && q.low <= q.high - q.length
      && HighestEnd(rs) <= q.high - q.length
    ensures Greatest(rs, q.high - q.length, q)
  {
    GapIsFree(rs, lo, hi, |rs|, q.high - q.length, q.length);
  }

  lemma GapIsGreatest(rs: seq<Area>, lo: nat, hi: nat, k: nat, q: Request, a: int)
    requires Sorted(rs, lo, hi) && q.length > 0 && NoneFrom(rs, k + 1, q)
    requires k < |rs| && GapStart(rs, k) + q.length <= q.high && rs[k].start >= q.low + q.length
    requires rs[k].start - GapStart(rs, k) >= q.length
    requires HighestEnd(rs) + q.length > q.high && q.low + q.length <= q.high
    requires a == (if rs[k].start > q.high then q.high else rs[k].start) - q.length
    ensures Greatest(rs, a, q) && q.low <= a && GapStart(rs, k) <= a
  {
    GapIsFree(rs, lo, hi, k, a, q.length);
    forall x | Feasible(rs, x, q) ensures x <= a {
      var i := FeasibleGap(rs, lo, hi, x, q);
      if i < k {
        assert rs[i].end <= GapStart(rs, k);
      }
    }
  }

  lemma FoundFits(rs: seq<Area>, q: Request)
    ensures forall a {:trigger Greatest(rs, a, q)} {:trigger Least(rs, a, q)} ::
              Greatest(rs, a, q) || Least(rs, a, q) ==> q.low <= a && a + q.length <= q.high
  {
  }

  lemma NoRoom(rs: seq<Area>, q: Request)
    requires q.high < q.low + q.length
    ensures Infeasible(rs, q)
  {
  }

  lemma NoGap(rs: seq<Area>, lo: nat, hi: nat, q: Request)
    requires Sorted(rs, lo, hi) && q.length > 0 && NoneFrom(rs, 0, q)
    requires HighestEnd(rs) + q.length > q.high
    ensures Infeasible(rs, q)
  {
    forall x ensures !Feasible(rs, x, q) {
      if Feasible(rs, x, q) {
        var i := FeasibleGap(rs, lo, hi, x, q);
      }
    }
  }

  // ---- pruning

  lemma GapAt(v: VmaPool, mmap: Ptr, list: seq<Ptr>, k: nat, lo: nat, hi: nat)
    requires ListOk(v, mmap, list) && k < |list| && Sorted(View(v, list), lo, hi)
    ensures var rs, p := View(v, list), v[list[k]].prev;
            && (p != NULL ==> p in v) && GapStart(rs, k) == (if p != NULL then v[p].end else 0)
            && (p == NULL <==> k == 0)
            && ComputeGap(v, list[k]) == rs[k].start - GapStart(rs, k)
  {
    assert Linked(v, list, k);
  }

  lemma SmallGap(rs: seq<Area>, k: nat, q: Request)
    requires k < |rs| && rs[k].start - GapStart(rs, k) < q.length
    ensures !Suitable(rs, k, q)
  {
  }

  /** A subtree whose value is too small holds no suitable gap. */
  lemma Pruned(m: Pool, root: Ptr, v: VmaPool, mmap: Ptr, t: Tree, list: seq<Ptr>, c: Ctx, f: Tree, a: nat, b: nat,
               lo: nat, hi: nat, q: Request)
    requires ListOk(v, mmap, list) && Sorted(View(v, list), lo, hi) && Indexed(m, root, v, t, list)
    requires Window(m, root, t, list, c, f, a, b) && GapOf(m, Root(f)) < q.length
    ensures NoneIn(View(v, list), a, b, q)
  {
    var rs := View(v, list);
    hide ListOk, Sorted, MaxOwn, LocalOk, Rep, RepCtx, Uniq, RedBlack, Suitable;
    FillIds(c, f);
    assert AllLocal(m, GapFn(v), Ids(f));
    ValueIsMax(m, GapFn(v), f, CtxParent(c));
    forall k | a <= k < b ensures !Suitable(rs, k, q) {
      MaxOwnBound(GapFn(v), InOrder(f), k - a);
      assert InOrder(f)[k - a] == list[k];
      GapAt(v, mmap, list, k, lo, hi);
      SmallGap(rs, k, q);
    }
  }

  /** Gaps behind one that starts too high start higher still. */
  lemma TooHigh(rs: seq<Area>, lo: nat, hi: nat, k: nat, b: nat, q: Request)
    requires Sorted(rs, lo, hi) && k < |rs| && b <= |rs| && GapStart(rs, k) + q.length > q.high
    ensures NoneIn(rs, k + 1, b, q)
  {
    forall j | k < j < b ensures !Suitable(rs, j, q) {
      assert k < j ==> k - 1 < j - 1 && GapStart(rs, k) <= rs[k].end <= GapStart(rs, j);
    }
  }

  /** Gaps before one that ends too low end lower still. */
  lemma TooLow(rs: seq<Area>, lo: nat, hi: nat, k: nat, q: Request)
    requires Sorted(rs, lo, hi) && k < |rs| && rs[k].start < q.low + q.length
    ensures NoneIn(rs, 0, k + 1, q)
  {
    forall j | 0 <= j < k + 1 ensures !Suitable(rs, j, q) {
      assert j < k ==> rs[j].start < rs[j].end <= rs[k].start;
    }
  }

  lemma NoneEmpty(rs: seq<Area>, q: Request)
    ensures NoneFrom(rs, |rs|, q)
  {
  }

  ghost predicate Unfit(rs: seq<Area>, k: int, q: Request) {
    0 <= k < |rs| ==>
      || GapStart(rs, k) + q.length > q.high || rs[k].start < q.low + q.length
      || rs[k].start - GapStart(rs, k) < q.length
  }

  lemma NoneAt(rs: seq<Area>, k: nat, q: Request)
    requires NoneFrom(rs, k + 1, q) && Unfit(rs, k, q)
    ensures NoneFrom(rs, k, q)
  {
  }

  /** Nothing to the right of a node, because its gap starts too high already or
      because the right subtree's value is too small. */
  lemma RightDone(m: Pool, root: Ptr, v: VmaPool, mmap: Ptr, t: Tree, list: seq<Ptr>, c: Ctx, f: Tree, k: nat, b: nat,
                  lo: nat, hi: nat, q: Request)
    requires ListOk(v, mmap, list) && Sorted(View(v, list), lo, hi) && Indexed(m, root, v, t, list)
    requires f.Node? && Window(m, root, t, list, In(c, R, f.p, f.red, f.l), f.r, k + 1, b) && k < |list|
    requires GapStart(View(v, list), k) + q.length > q.high || GapOf(m, Root(f.r)) < q.length
    requires NoneFrom(View(v, list), b, q)
    ensures NoneFrom(View(v, list), k + 1, q)
  {
    hide Sorted, Indexed, Window, Suitable;
    if GapOf(m, Root(f.r)) < q.length {
      Pruned(m, root, v, mmap, t, list, In(c, R, f.p, f.red, f.l), f.r, k + 1, b, lo, hi, q);
    } else {
      WindowEmpty(m, root, t, list, In(c, R, f.p, f.red, f.l), f.r, k + 1, b);
      TooHigh(View(v, list), lo, hi, k, b, q);
    }
  }

  lemma LeftDone(m: Pool, root: Ptr, v: VmaPool, mmap: Ptr, t: Tree, list: seq<Ptr>, c: Ctx, f: Tree, a: nat, k: nat,
                 lo: nat, hi: nat, q: Request)
    requires ListOk(v, mmap, list) && Sorted(View(v, list), lo, hi) && Indexed(m, root, v, t, list)
    requires f.Node? && Window(m, root, t, list, In(c, L, f.p, f.red, f.r), f.l, a, k)
    requires GapOf(m, Root(f.l)) < q.length && Unfit(View(v, list), k, q) && NoneFrom(View(v, list), k + 1, q)
    ensures NoneFrom(View(v, list), a, q)
  {
    Pruned(m, root, v, mmap, t, list, In(c, L, f.p, f.red, f.r), f.l, a, k, lo, hi, q);
  }

  lemma NoneBelow(rs: seq<Area>, lo: nat, hi: nat, k: nat, q: Request)
    requires Sorted(rs, lo, hi) && q.length > 0 && k < |rs| && NoneFrom(rs, k + 1, q)
    requires rs[k].start < q.low + q.length && HighestEnd(rs) + q.length > q.high
    ensures Infeasible(rs, q)
  {
    TooLow(rs, lo, hi, k, q);
    NoGap(rs, lo, hi, q);
  }

  // ---- the same from the bottom

  ghost predicate NoneBefore(rs: seq<Area>, i: int, q: Request) { NoneIn(rs, 0, i, q) }

  lemma NoneBeforeFirst(rs: seq<Area>, q: Request)
    ensures NoneBefore(rs, 0, q)
  {
  }

  lemma NoneUpTo(rs: seq<Area>, k: nat, q: Request)
    requires NoneBefore(rs, k, q) && Unfit(rs, k, q)
    ensures NoneBefore(rs, k + 1, q)
  {
  }

  lemma GapIsLeast(rs: seq<Area>, lo: nat, hi: nat, k: nat, q: Request, a: int)
    requires Sorted(rs, lo, hi) && q.length > 0 && NoneBefore(rs, k, q) && q.low + q.length <= q.high
    requires k < |rs| && GapStart(rs, k) + q.length <= q.high && rs[k].start >= q.low + q.length
    requires rs[k].start - GapStart(rs, k) >= q.length
    requires a == if GapStart(rs, k) < q.low then q.low else GapStart(rs, k)
    ensures Least(rs, a, q)
  {
    GapIsFree(rs, lo, hi, k, a, q.length);
    forall x | Feasible(rs, x, q) ensures a <= x {
      var i := FeasibleGap(rs, lo, hi, x, q);
      if i > k {
        assert GapStart(rs, k) <= rs[k].end <= GapStart(rs, i);
      }
    }
  }

  lemma HighestIsLeast(rs: seq<Area>, lo: nat, hi: nat, q: Request, a: int)
    requires Sorted(rs, lo, hi) && q.length > 0 && NoneBefore(rs, |rs|, q) && q.low + q.length <= q.high
    requires HighestEnd(rs) + q.length <= q.high && a == if HighestEnd(rs) < q.low then q.low else HighestEnd(rs)
    ensures Least(rs, a, q)
  {
    GapIsFree(rs, lo, hi, |rs|, a, q.length);
    forall x | Feasible(rs, x, q) ensures a <= x {
      var i := FeasibleGap(rs, lo, hi, x, q);
    }
  }

  lemma NoneAbove(rs: seq<Area>, lo: nat, hi: nat, k: nat, q: Request)
    requires Sorted(rs, lo, hi) && q.length > 0 && k < |rs| && NoneBefore(rs, k, q)
      && GapStart(rs, k) + q.length > q.high
    ensures Infeasible(rs, q)
  {
    TooHigh(rs, lo, hi, k, |rs|, q);
    assert k < |rs| - 1 ==> rs[k].end <= rs[|rs| - 1].start;
    assert GapStart(rs, k) <= rs[k].end <= HighestEnd(rs);
    NoGap(rs, lo, hi, q);
  }

  /** Nothing to the left of a node, because its gap ends too low already or
      because the left subtree's value is too small. */
  lemma LeftOut(m: Pool, root: Ptr, v: VmaPool, mmap: Ptr, t: Tree, list: seq<Ptr>, c: Ctx, f: Tree, a: nat, k: nat,
                lo: nat, hi: nat, q: Request)
    requires ListOk(v, mmap, list) && Sorted(View(v, list), lo, hi) && Indexed(m, root, v, t, list)
    requires f.Node? && Window(m, root, t, list, In(c, L, f.p, f.red, f.r), f.l, a, k) && k < |list|
    requires View(v, list)[k].start < q.low + q.length || GapOf(m, Root(f.l)) < q.length
    requires NoneBefore(View(v, list), a, q)
    ensures NoneBefore(View(v, list), k, q)
  {
    hide Sorted, Indexed, Window, Suitable;
    if GapOf(m, Root(f.l)) < q.length {
      Pruned(m, root, v, mmap, t, list, In(c, L, f.p, f.red, f.r), f.l, a, k, lo, hi, q);
    } else {
      TooLow(View(v, list), lo, hi, k, q);
    }
  }

  lemma RightOut(m: Pool, root: Ptr, v: VmaPool, mmap: Ptr, t: Tree, list: seq<Ptr>, c: Ctx, f: Tree, k: nat, b: nat,
                 lo: nat, hi: nat, q: Request)
    requires ListOk(v, mmap, list) && Sorted(View(v, list), lo, hi) && Indexed(m, root, v, t, list)
    requires f.Node? && Window(m, root, t, list, In(c, R, f.p, f.red, f.l), f.r, k + 1, b)
    requires GapOf(m, Root(f.r)) < q.length && Unfit(View(v, list), k, q) && NoneBefore(View(v, list), k, q)
    ensures NoneBefore(View(v, list), b, q)
  {
    hide ListOk, Sorted, Indexed, Window;
    Pruned(m, root, v, mmap, t, list, In(c, R, f.p, f.red, f.l), f.r, k + 1, b, lo, hi, q);
  }

  // ---- walking up

  /** The parent's window, and on which side of the parent the focus hangs. */
  lemma WindowUp(m: Pool, root: Ptr, t: Tree, list: seq<Ptr>, c: Ctx, f: Tree, a: nat, b: nat)
      returns (a': nat, b': nat)
    requires Window(m, root, t, list, c, f, a, b) && Uniq(t) && f.Node? && c.In?
    ensures f.p in m && m[f.p].parent == c.p && c.p in m && c.p != NULL
    ensures m[c.p].right == f.p <==> c.s == R
    ensures m[c.p].left == f.p <==> c.s == L
    ensures Window(m, root, t, list, c.up, Mk(c.s, f, c.p, c.red, c.sib), a', b')
    ensures c.s == R ==> a > 0 && list[a - 1] == c.p && a' + |InOrder(c.sib)| == a - 1 && b' == b
    ensures c.s == L ==> b < |list| && list[b] == c.p && a' == a && a + |InOrder(f)| == b
  {
    var f' := Mk(c.s, f, c.p, c.red, c.sib);
    FillUniq(c, f);
    assert Fill(c.up, f') == t;
    FillRep(m, c.up, f');
    MkRep(m, c.s, f, c.p, c.red, c.sib, CtxParent(c.up));
    FillInOrder(c, f);
    a', b' := UpBounds(c, f, list, a, b);
    SibRoot(m, c, f);
  }

  lemma SibRoot(m: Pool, c: Ctx, f: Tree)
    requires c.In? && f.Node? && Ids(f) !! CtxIds(c) && f.p != NULL
    ensures Root(c.sib) != f.p
  {
    if c.sib.Node? {
      assert c.sib.p in CtxIds(c);
    }
  }

  lemma UpBounds(c: Ctx, f: Tree, list: seq<Ptr>, a: nat, b: nat) returns (a': nat, b': nat)
    requires c.In? && list == Before(c) + InOrder(f) + Behind(c) && |Before(c)| == a && a + |InOrder(f)| == b
    ensures var f' := Mk(c.s, f, c.p, c.red, c.sib);
            && |Before(c.up)| == a' && a' <= b' <= |list| && |Behind(c.up)| == |list| - b'
              && InOrder(f') == list[a'..b']
    ensures c.s == R ==> a > 0 && list[a - 1] == c.p && a' + |InOrder(c.sib)| == a - 1 && b' == b
    ensures c.s == L ==> b < |list| && list[b] == c.p && a' == a && a + |InOrder(f)| == b
  {
    MkOrder(c.s, f, c.p, c.red, c.sib);
    a' := |Before(c.up)|;
    b' := a' + |InOrder(f)| + 1 + |InOrder(c.sib)|;
    CtxOrder(c);
    hide Before, Behind, InOrder, Mk;
    if c.s == R {
      UpRight(Before(c.up), InOrder(c.sib), c.p, InOrder(f), Behind(c.up));
    } else {
      UpLeft(Before(c.up), InOrder(f), c.p, InOrder(c.sib), Behind(c.up));
    }
  }

  lemma CtxOrder(c: Ctx)
    requires c.In?
    ensures c.s == R ==> Before(c) == Before(c.up) + (InOrder(c.sib) + [c.p]) && Behind(c) == Behind(c.up)
    ensures c.s == L ==> Before(c) == Before(c.up) && Behind(c) == [c.p] + InOrder(c.sib) + Behind(c.up)
  {
    assert Before(c.up) + [] == Before(c.up) && [] + Behind(c.up) == Behind(c.up);
  }

  lemma UpRight(pre: seq<Ptr>, l: seq<Ptr>, p: Ptr, r: seq<Ptr>, post: seq<Ptr>)
    ensures var s := (pre + (l + [p])) + r + post; var n := |pre|;
            && s[n + |l|] == p && s[n..n + |l| + 1 + |r|] == l + [p] + r && |s| == n + |l| + 1 + |r| + |post|
  {
  }

  lemma UpLeft(pre: seq<Ptr>, l: seq<Ptr>, p: Ptr, r: seq<Ptr>, post: seq<Ptr>)
    ensures var s := pre + l + ([p] + r + post); var n := |pre|;
            && s[n + |l|] == p && s[n..n + |l| + 1 + |r|] == l + [p] + r && |s| == n + |l| + 1 + |r| + |post|
  {
  }
}
