/** What the list and tree operations do to list, gaps and areas together. */
module VmaSteps {
  import opened RbTree
  import opened RbRotate
  import opened VmaList
  import opened VmaSpec
  import opened VmaIndex

  lemma ViewInserted(v: VmaPool, list: seq<Ptr>, i: nat, x: Ptr)
    requires Within(v, list) && x in v && i <= |list|
    ensures Within(v, Inserted(list, i, x)) && View(v, Inserted(list, i, x)) == Inserted(View(v, list), i, AreaOf(v[x]))
  {
  }

  lemma ViewRemoved(v: VmaPool, list: seq<Ptr>, i: nat, j: nat)
    requires Within(v, list) && i <= j <= |list|
    ensures Within(v, Removed(list, i, j)) && View(v, Removed(list, i, j)) == Removed(View(v, list), i, j)
  {
  }

  lemma ViewSame(v: VmaPool, w: VmaPool, list: seq<Ptr>)
    requires Within(v, list) && SameRanges(v, w)
    ensures Within(w, list) && View(w, list) == View(v, list)
  {
  }

  lemma ElemsInserted(list: seq<Ptr>, i: nat, x: Ptr)
    requires i <= |list|
    ensures Elems(Inserted(list, i, x)) == Elems(list) + {x} && |Inserted(list, i, x)| == |list| + 1
  {
    assert list == list[..i] + list[i..];
  }

  lemma HighestBound(rs: seq<Area>, lo: nat, hi: nat)
    requires Sorted(rs, lo, hi)
    ensures HighestEnd(rs) <= hi
  {
  }

  lemma HighestInserted(rs: seq<Area>, i: nat, r: Area)
    requires i <= |rs|
    ensures HighestEnd(Inserted(rs, i, r)) == if i == |rs| then r.end else HighestEnd(rs)
  {
  }

  lemma LinkStep(m: Pool, root: Ptr, v: VmaPool, mmap: Ptr, list: seq<Ptr>, t: Tree, x: Ptr, i: nat)
    requires ListOk(v, mmap, list) && x in v && x != NULL && x !in list && i <= |list|
    requires IndexedBut(m, root, v, t, list, {Nth(list, i)})
    ensures NULL !in list && (Nth(list, i - 1) != NULL ==> Nth(list, i - 1) in v)
    ensures var (w, first) := LinkList(v, mmap, x, Nth(list, i - 1));
            && ListOk(w, first, Inserted(list, i, x)) && Within(w, Inserted(list, i, x))
              && IndexedBut(m, root, w, t, list, {Nth(list, i)})
            && w.Keys == v.Keys && View(w, Inserted(list, i, x)) == Inserted(View(v, list), i, AreaOf(v[x]))
            && AreaOf(w[x]) == AreaOf(v[x])
  {
    LinkListFields(v, mmap, list, x, i);
    LinkListOk(v, mmap, list, x, i);
    var (w, first) := LinkList(v, mmap, x, Nth(list, i - 1));
    LinkGaps(v, mmap, list, x, i, w);
    Reindex(m, root, v, w, t, list, {Nth(list, i)}, {Nth(list, i)});
    ViewSame(v, w, list);
    ViewInserted(w, list, i, x);
  }

  lemma InsertedNext(v: VmaPool, mmap: Ptr, list: seq<Ptr>, i: nat, x: Ptr)
    requires i <= |list| && ListOk(v, mmap, Inserted(list, i, x))
    ensures x in v && v[x].next == Nth(list, i) && (v[x].next == NULL <==> i == |list|)
  {
    assert Linked(v, Inserted(list, i, x), i);
  }

  lemma LeafSplit(c: Ctx, list: seq<Ptr>, i: nat)
    requires InOrder(Fill(c, Leaf)) == list && |Before(c)| == i
    ensures i <= |list| && Before(c) == list[..i] && Behind(c) == list[i..]
    ensures Fill(Top, Fill(c, Leaf)) == Fill(c, Leaf)
  {
    FillInOrder(c, Leaf);
    assert InOrder(Leaf) == [];
  }

  // ---- moving a bound

  /** The areas whose gap changes when area i becomes [start, end). */
  ghost function Moved(v: VmaPool, list: seq<Ptr>, i: nat, start: nat, end: nat): set<Ptr>
    requires i < |list| && list[i] in v
  {
    (if start == v[list[i]].start then {} else {list[i]}) + (if end == v[list[i]].end then {} else {Nth(list, i + 1)})
  }

  lemma MovedEnd(v: VmaPool, list: seq<Ptr>, i: nat, end: nat)
    requires i < |list| && list[i] in v && end != v[list[i]].end
    ensures Moved(v, list, i, v[list[i]].start, end) == {Nth(list, i + 1)}
  {
  }

  lemma RangeStep(m: Pool, root: Ptr, v: VmaPool, mmap: Ptr, list: seq<Ptr>, t: Tree, i: nat, start: nat, end: nat)
    requires ListOk(v, mmap, list) && i < |list| && Indexed(m, root, v, t, list)
    ensures list[i] in v && list[i] != NULL && NULL !in list && v[list[i]].next == Nth(list, i + 1)
    ensures |View(v, list)| == |list| && View(v, list)[i] == AreaOf(v[list[i]])
    ensures var w := v[list[i] := v[list[i]].(start := start, end := end)];
            && ListOk(w, mmap, list) && Within(w, list) && w.Keys == v.Keys
            && IndexedBut(m, root, w, t, list, Moved(v, list, i, start, end))
            && View(w, list) == View(v, list)[i := Area(start, end, v[list[i]].flags)]
  {
    hide Indexed, IndexedBut, SameGaps, ComputeGap;
    assert Linked(v, list, i);
    var w := v[list[i] := v[list[i]].(start := start, end := end)];
    RangeGaps(v, mmap, list, i, start, end);
    IndexedAll(m, root, v, t, list, {});
    Reindex(m, root, v, w, t, list, {}, Moved(v, list, i, start, end));
    assert View(w, list) == View(v, list)[i := Area(start, end, v[list[i]].flags)];
  }

  lemma HighestUpdated(rs: seq<Area>, i: nat, r: Area)
    requires i < |rs|
    ensures HighestEnd(rs[i := r]) == if i + 1 == |rs| then r.end else HighestEnd(rs)
    ensures r.end == rs[i].end ==> HighestEnd(rs[i := r]) == HighestEnd(rs)
  {
  }

  // ---- new and old area structures

  /** A structure not yet on the list. */
  lemma AllocStep(m: Pool, root: Ptr, v: VmaPool, mmap: Ptr, list: seq<Ptr>, t: Tree, x: Ptr, a: Vma)
    requires ListOk(v, mmap, list) && Indexed(m, root, v, t, list) && x !in v
    ensures var w := v[x := a];
            ListOk(w, mmap, list) && Within(w, list) && View(w, list) == View(v, list) && Indexed(m, root, w, t, list)
  {
    hide Indexed, IndexedBut;
    var w := v[x := a];
    forall k | 0 <= k < |list| ensures Linked(w, list, k) && ComputeGap(w, list[k]) == ComputeGap(v, list[k]) {
      assert Linked(v, list, k);
    }
    IndexedAll(m, root, v, t, list, {});
    Reindex(m, root, v, w, t, list, {}, {});
    IndexedAll(m, root, w, t, list, {});
    assert View(w, list) == View(v, list);
  }

  lemma FreshPtr(v: VmaPool) returns (x: Ptr)
    ensures x != NULL && x !in v
  {
    x := 1;
    var seen := {};
    while x in v
      invariant x != NULL && seen <= v.Keys && forall y :: y in seen ==> y < x
      decreases v.Keys - seen
    {
      seen := seen + {x};
      x := x + 1;
    }
  }

  // ---- taking areas out

  /** Erasing one node leaves the order of the others. */
  lemma ErasedOrder(cur: seq<Ptr>, p: nat, x: Ptr, pre: seq<Ptr>, post: seq<Ptr>)
    requires Distinct(cur) && p < |cur| && cur[p] == x && cur == pre + [x] + post
    ensures pre + post == Removed(cur, p, p + 1)
  {
    assert cur[|pre|] == x;
    assert pre == cur[..p] && post == cur[p + 1..];
  }

  /** Bypassing areas i up to j, which the tree has lost already. */
  lemma SpliceStep(m: Pool, root: Ptr, v: VmaPool, mmap: Ptr, list: seq<Ptr>, t: Tree, i: nat, j: nat)
    requires ListOkBut(v, mmap, list, i, j) && Indexed(m, root, v, t, Removed(list, i, j))
    ensures Within(v, list)
    ensures var (w, first) := Splice(v, mmap, Nth(list, i - 1), Nth(list, j));
            && ListOk(w, first, Removed(list, i, j)) && Within(w, Removed(list, i, j)) && w.Keys == v.Keys
            && IndexedBut(m, root, w, t, Removed(list, i, j), {Nth(list, j)})
            && View(w, Removed(list, i, j)) == Removed(View(v, list), i, j)
  {
    hide Indexed, IndexedBut, SameGaps, Bypassed, Splice;
    SpliceListFields(v, mmap, list, i, j);
    SpliceListOk(v, mmap, list, i, j);
    var w := Splice(v, mmap, Nth(list, i - 1), Nth(list, j)).0;
    SpliceGaps(v, mmap, list, i, j, w);
    IndexedAll(m, root, v, t, Removed(list, i, j), {});
    Reindex(m, root, v, w, t, Removed(list, i, j), {}, {Nth(list, j)});
    ViewSame(v, w, list);
    ViewRemoved(w, list, i, j);
  }

  /** Giving structures that are not on the list back. */
  lemma FreeStep(m: Pool, root: Ptr, v: VmaPool, mmap: Ptr, list: seq<Ptr>, t: Tree, wrong: set<Ptr>, gone: set<Ptr>)
    requires ListOk(v, mmap, list) && IndexedBut(m, root, v, t, list, wrong) && gone !! Elems(list)
    ensures ListOk(v - gone, mmap, list) && Within(v - gone, list) && View(v - gone, list) == View(v, list)
    ensures IndexedBut(m - gone, root, v - gone, t, list, wrong)
  {
    hide IndexedBut;
    var w := v - gone;
    forall k | 0 <= k < |list|
      ensures list[k] in w && Linked(w, list, k) && ComputeGap(w, list[k]) == ComputeGap(v, list[k])
    {
      assert list[k] in Elems(list);
      assert Linked(v, list, k);
      assert k > 0 ==> list[k - 1] in Elems(list);
    }
    Reindex(m, root, v, w, t, list, wrong, wrong);
    FreeNodes(m, root, w, t, list, wrong, gone);
    assert View(w, list) == View(v, list);
  }

  lemma FreeNodes(m: Pool, root: Ptr, v: VmaPool, t: Tree, list: seq<Ptr>, wrong: set<Ptr>, gone: set<Ptr>)
    requires IndexedBut(m, root, v, t, list, wrong) && gone !! Elems(list)
    ensures IndexedBut(m - gone, root, v, t, list, wrong)
  {
    var m' := m - gone;
    IdsAreElems(t);
    RepInPool(m, t, NULL);
    RepFrame(m, m', t, NULL);
    RepParents(m, t, NULL);
    forall x | x in Ids(t) - wrong ensures LocalOk(m', GapFn(v), x) {
      assert LocalOk(m, GapFn(v), x);
      assert m[x].Child(L) != NULL ==> m[x].Child(L) in Ids(t);
      assert m[x].Child(R) != NULL ==> m[x].Child(R) in Ids(t);
    }
  }

  lemma ElemsRemoved(list: seq<Ptr>, i: nat, j: nat)
    requires Distinct(list) && i <= j <= |list|
    ensures Elems(list) == Elems(Removed(list, i, j)) + Elems(list[i..j])
      && Elems(list[i..j]) !! Elems(Removed(list, i, j))
    ensures Elems(list) - Elems(list[i..j]) == Elems(Removed(list, i, j))
    ensures |Removed(list, i, j)| == |list| - (j - i) && Distinct(Removed(list, i, j))
  {
    assert list == list[..i] + list[i..j] + list[j..];
  }

  /** What the list says about one of its areas. */
  lemma AreaAt(v: VmaPool, mmap: Ptr, list: seq<Ptr>, k: nat)
    requires ListOk(v, mmap, list) && k < |list|
    ensures list[k] in v && list[k] != NULL && |View(v, list)| == |list| && View(v, list)[k] == AreaOf(v[list[k]])
    ensures v[list[k]].next == Nth(list, k + 1) && v[list[k]].prev == Nth(list, k - 1)
    ensures Distinct(list) && NULL !in list && Elems(list) <= v.Keys
  {
    assert Linked(v, list, k);
  }

  lemma ListButOf(v: VmaPool, mmap: Ptr, list: seq<Ptr>, i: nat, j: nat)
    requires ListOk(v, mmap, list) && i < j <= |list|
    ensures ListOkBut(v, mmap, list, i, j)
  {
  }

  lemma RemoveOne(list: seq<Ptr>, i: nat)
    requires Distinct(list) && i < |list|
    ensures Elems(Removed(list, i, i + 1)) == Elems(list) - {list[i]} && |Removed(list, i, i + 1)| == |list| - 1
    ensures Nth(Removed(list, i, i + 1), i) == Nth(list, i + 1)
    ensures forall k :: 0 <= k < i ==> Removed(list, i, i + 1)[k] == list[k]
    ensures forall y :: y in Removed(list, i, i + 1) ==> y in list
  {
    ElemsRemoved(list, i, i + 1);
    assert list[i..i + 1] == [list[i]];
  }

  lemma MergeNeighbours(v: VmaPool, mmap: Ptr, list: seq<Ptr>, i: nat)
    requires ListOk(v, mmap, list) && i <= |list|
    ensures |View(v, list)| == |list|
    ensures i > 0 ==> list[i - 1] in v && list[i - 1] != NULL && v[list[i - 1]].next == Nth(list, i)
                      && View(v, list)[i - 1] == AreaOf(v[list[i - 1]])
    ensures i == 0 ==> mmap == Nth(list, 0)
    ensures i < |list| ==> list[i] in v && list[i] != NULL && View(v, list)[i] == AreaOf(v[list[i]])
  {
    if i > 0 {
      AreaAt(v, mmap, list, i - 1);
    }
    if i < |list| {
      AreaAt(v, mmap, list, i);
    }
  }

  lemma MergeNothing(rs: seq<Area>, i: nat, addr: nat, end: nat)
    requires i <= |rs| && !TouchesPrev(rs, i, addr) && !TouchesNext(rs, i, end)
    ensures Merged(rs, i, addr, end) == rs
  {
  }

  // ---- detaching a run of areas

  /** The areas from i up to j follow each other and start before end, area j does not. */
  ghost predicate Run(v: VmaPool, list: seq<Ptr>, i: nat, j: nat, end: nat) {
    && i < j <= |list| && Distinct(list) && NULL !in list
    && (forall k :: i <= k < j ==> NextInRun(v, list, k))
    && (forall k :: i <= k < j ==> list[k] in v && v[list[k]].start < end)
    && (j < |list| ==> list[j] in v && v[list[j]].start >= end)
  }

  ghost predicate NextInRun(v: VmaPool, list: seq<Ptr>, k: nat) {
    k < |list| && list[k] in v && v[list[k]].next == Nth(list, k + 1)
  }

  lemma RunAt(v: VmaPool, list: seq<Ptr>, i: nat, j: nat, end: nat, k: nat)
    requires Run(v, list, i, j, end) && i <= k < j
    ensures list[k] in v && v[list[k]].next == Nth(list, k + 1) && (v[list[k]].next == NULL <==> k + 1 == |list|)
    ensures k + 1 < |list| ==> list[k + 1] in v && (v[list[k + 1]].start < end <==> k + 1 < j)
  {
    assert NextInRun(v, list, k);
    assert k + 1 < j ==> NextInRun(v, list, k + 1);
  }

  function ClearPrev(v: VmaPool, x: Ptr): VmaPool
    requires x in v
  {
    v[x := v[x].(prev := NULL)]
  }

  lemma ClearedAt(v: VmaPool, mmap: Ptr, list: seq<Ptr>, i: nat, k: nat)
    requires ListOk(v, mmap, list) && i < |list| && k < |list|
    ensures NextInRun(ClearPrev(v, list[i]), list, k)
    ensures k != i ==> Linked(ClearPrev(v, list[i]), list, k)
                       && ComputeGap(ClearPrev(v, list[i]), list[k]) == ComputeGap(v, list[k])
  {
    assert Linked(v, list, k);
  }

  lemma ClearedList(v: VmaPool, mmap: Ptr, list: seq<Ptr>, i: nat, j: nat, end: nat)
    requires ListOk(v, mmap, list) && i < j <= |list|
    requires forall k :: i <= k < j ==> View(v, list)[k].start < end
    requires j < |list| ==> View(v, list)[j].start >= end
    ensures ListOkBut(ClearPrev(v, list[i]), mmap, list, i, j) && Run(ClearPrev(v, list[i]), list, i, j, end)
  {
    hide Linked, NextInRun;
    forall k | 0 <= k < |list|
      ensures NextInRun(ClearPrev(v, list[i]), list, k) && (k != i ==> Linked(ClearPrev(v, list[i]), list, k))
    {
      ClearedAt(v, mmap, list, i, k);
    }
    forall k | i <= k < j ensures list[k] in v && v[list[k]].start < end {
      assert View(v, list)[k].start < end;
    }
  }

  /** Clearing the first area's link back leaves list and gaps intact outside the run. */
  lemma RunStart(m: Pool, root: Ptr, v: VmaPool, mmap: Ptr, list: seq<Ptr>, t: Tree, i: nat, j: nat, end: nat)
    requires ListOk(v, mmap, list) && Indexed(m, root, v, t, list) && i < j <= |list|
    requires forall k :: i <= k < j ==> View(v, list)[k].start < end
    requires j < |list| ==> View(v, list)[j].start >= end
    ensures list[i] in v
    ensures var w := ClearPrev(v, list[i]);
            && ListOkBut(w, mmap, list, i, j) && Within(w, list) && View(w, list) == View(v, list) && w.Keys == v.Keys
            && Run(w, list, i, j, end) && IndexedBut(m, root, w, t, list, {list[i]})
  {
    hide Indexed, IndexedBut, ListOkBut, Run, Linked, Distinct;
    var w := ClearPrev(v, list[i]);
    ClearedList(v, mmap, list, i, j, end);
    forall k | 0 <= k < |list| && k != i ensures ComputeGap(w, list[k]) == ComputeGap(v, list[k]) {
      ClearedAt(v, mmap, list, i, k);
    }
    IndexedAll(m, root, v, t, list, {});
    Reindex(m, root, v, w, t, list, {}, {list[i]});
    assert View(w, list) == View(v, list);
  }

  lemma IndexedWeaken(m: Pool, root: Ptr, v: VmaPool, t: Tree, list: seq<Ptr>, wrong: set<Ptr>, x: Ptr)
    requires IndexedBut(m, root, v, t, list, wrong) && forall y :: y in wrong && y in list ==> y == x
    ensures IndexedBut(m, root, v, t, list, {x})
  {
    IdsAreElems(t);
    assert Ids(t) - {x} <= Ids(t) - wrong;
  }

  lemma RemovedNext(list: seq<Ptr>, i: nat, k: nat)
    requires i <= k < |list| && Distinct(list)
    ensures Distinct(Removed(list, i, k)) && i < |Removed(list, i, k)| && Removed(list, i, k)[i] == list[k]
    ensures Removed(Removed(list, i, k), i, i + 1) == Removed(list, i, k + 1)
    ensures forall y :: y == list[i] && y in Removed(list, i, k) ==> y == list[k]
  {
  }

  lemma RunFacts(v: VmaPool, list: seq<Ptr>, i: nat, j: nat, end: nat)
    requires Run(v, list, i, j, end)
    ensures i < j <= |list| && Distinct(list) && NULL !in list && Removed(list, i, i) == list
  {
  }

  lemma IndexedGone(m: Pool, root: Ptr, v: VmaPool, t: Tree, list: seq<Ptr>, i: nat, k: nat)
    requires i < k <= |list| && Distinct(list)
    ensures IndexedBut(m, root, v, t, Removed(list, i, k), {list[i]}) <==> Indexed(m, root, v, t, Removed(list, i, k))
  {
    IndexedAll(m, root, v, t, Removed(list, i, k), {list[i]});
  }

  /** Detached structures, linked through next only. */
  ghost predicate Chained(v: VmaPool, ks: seq<Ptr>) {
    && Distinct(ks) && NULL !in ks
    && (forall k :: 0 <= k < |ks| ==> ChainAt(v, ks, k))
  }

  ghost predicate ChainAt(v: VmaPool, ks: seq<Ptr>, k: nat) {
    k < |ks| && ks[k] in v && v[ks[k]].next == Nth(ks, k + 1)
  }

  /** The run after list and tree were closed over it and its last link was cleared. */
  lemma DetachedChain(v: VmaPool, mmap: Ptr, list: seq<Ptr>, i: nat, j: nat, end: nat, w: VmaPool)
    requires ListOkBut(v, mmap, list, i, j) && Run(v, list, i, j, end) && Bypassed(v, list, i, j, w)
    ensures Chained(SetNext(w, list[j - 1], NULL), list[i..j])
    ensures forall x :: x in v ==>
      x in SetNext(w, list[j - 1], NULL) && AreaOf(SetNext(w, list[j - 1], NULL)[x]) == AreaOf(v[x])
  {
    var u, ks := SetNext(w, list[j - 1], NULL), list[i..j];
    forall k | 0 <= k < |ks| ensures ChainAt(u, ks, k) {
      RunAt(v, list, i, j, end, i + k);
      assert ks[k] == list[i + k] && list[i + k] in w;
    }
  }

  /** A structure that is not on the list may change. */
  lemma OffList(m: Pool, root: Ptr, v: VmaPool, mmap: Ptr, list: seq<Ptr>, t: Tree, x: Ptr, n: Ptr)
    requires ListOk(v, mmap, list) && Indexed(m, root, v, t, list) && x !in list
    ensures var w := SetNext(v, x, n);
            && ListOk(w, mmap, list) && Within(w, list) && View(w, list) == View(v, list) && w.Keys == v.Keys
            && Indexed(m, root, w, t, list)
  {
    hide Indexed, IndexedBut;
    var w := SetNext(v, x, n);
    forall k | 0 <= k < |list| ensures Linked(w, list, k) && ComputeGap(w, list[k]) == ComputeGap(v, list[k]) {
      assert Linked(v, list, k);
    }
    IndexedAll(m, root, v, t, list, {});
    Reindex(m, root, v, w, t, list, {}, {});
    IndexedAll(m, root, w, t, list, {});
    assert View(w, list) == View(v, list);
  }

  lemma DetachedSeq(list: seq<Ptr>, i: nat, j: nat)
    requires i < j <= |list| && Distinct(list) && NULL !in list
    ensures NULL !in Removed(list, i, j) && list[j - 1] !in Removed(list, i, j)
      && |Removed(list, i, j)| == |list| - (j - i)
    ensures j < |list| ==> list[j] in Removed(list, i, j) && list[j] != NULL
    ensures i > 0 ==> list[i - 1] in list && list[i - 1] != NULL
  {
    ElemsRemoved(list, i, j);
    assert j < |list| ==> Removed(list, i, j)[i] == list[j];
  }

  lemma DetachedHighest(v: VmaPool, mmap: Ptr, list: seq<Ptr>, i: nat, j: nat, lo: nat, hi: nat)
    requires ListOkBut(v, mmap, list, i, j) && Within(v, list) && Sorted(View(v, list), lo, hi)
    ensures j < |list| ==> HighestEnd(Removed(View(v, list), i, j)) == HighestEnd(View(v, list))
    ensures i > 0 ==> list[i - 1] in v && list[i - 1] != NULL
    ensures j == |list| ==> HighestEnd(Removed(View(v, list), i, j)) == if i > 0 then v[list[i - 1]].end else 0
  {
    RemovedAreas(View(v, list), lo, hi, i, j);
  }

  /** A chain's areas, each inside [start, end). */
  ghost predicate ChainWithin(v: VmaPool, ks: seq<Ptr>, start: nat, end: nat) {
    forall k :: 0 <= k < |ks| ==> ks[k] in v && start <= v[ks[k]].start < v[ks[k]].end <= end
  }

  /** Walks a chain and tells which ranges' page table entries are to be freed. */
  method UnmapRegion(v: VmaPool, vma: Ptr, start: nat, end: nat, ghost ks: seq<Ptr>) returns (released: seq<Area>)
    requires Chained(v, ks) && vma == Nth(ks, 0) && ChainWithin(v, ks, start, end)
    ensures released == Real(View(v, ks))
  {
    var x := vma;
    ghost var k := 0;
    released := [];
    while x != NULL && v[x].start < end
      invariant 0 <= k <= |ks| && x == Nth(ks, k) && (k < |ks| ==> x in v)
      invariant released == Real(View(v, ks)[..k])
      decreases |ks| - k
    {
      assert ChainAt(v, ks, k);
      var s := if v[x].start > start then v[x].start else start;
      if s < v[x].end {
        var e := if v[x].end < end then v[x].end else end;
        if e > v[x].start && s != e && v[x].flags != CONFLICT {
          released := released + [Area(s, e, v[x].flags)];
        }
      }
      RealNext(View(v, ks), k);
      k := k + 1;
      x := v[x].next;
    }
    assert View(v, ks)[..k] == View(v, ks);
  }

  lemma RealNext(rs: seq<Area>, k: nat)
    requires k < |rs|
    ensures Real(rs[..k + 1]) == Real(rs[..k]) + if rs[k].flags != CONFLICT then [rs[k]] else []
  {
    assert rs[..k + 1][..k] == rs[..k];
  }

  lemma ChainStep(v: VmaPool, ks: seq<Ptr>, k: nat)
    requires Chained(v, ks) && k < |ks|
    ensures ks[k] in v && ks[k] != NULL && v[ks[k]].next == Nth(ks, k + 1) && ks[k] !in Elems(ks[..k])
    ensures Elems(ks[..k + 1]) == Elems(ks[..k]) + {ks[k]} && Elems(ks[..0]) == {}
  {
    assert ChainAt(v, ks, k);
    assert ks[..k + 1] == ks[..k] + [ks[k]];
  }

  lemma ChainEnd(v: VmaPool, ks: seq<Ptr>, k: nat)
    requires Chained(v, ks) && k <= |ks| && Nth(ks, k) == NULL
    ensures ks[..k] == ks
  {
  }

  lemma BetweenBounds(rs: seq<Area>, lo: nat, hi: nat, i: nat, j: nat, start: int, end: int)
    requires Sorted(rs, lo, hi) && Between(rs, i, j, start, end)
    ensures forall k :: i <= k < j ==> start <= rs[k].start < rs[k].end <= end
    ensures j < |rs| ==> rs[j].start >= end
  {
  }

  lemma ChainAreas(v: VmaPool, w: VmaPool, list: seq<Ptr>, i: nat, j: nat, start: nat, end: nat)
    requires Within(v, list) && Within(w, list) && i <= j <= |list|
    requires forall x :: x in w && x in v ==> AreaOf(w[x]) == AreaOf(v[x])
    requires forall k :: i <= k < j ==> start <= View(v, list)[k].start < View(v, list)[k].end <= end
    ensures ChainWithin(w, list[i..j], start, end) && Within(w, list[i..j])
      && View(w, list[i..j]) == View(v, list)[i..j]
  {
    var ks := list[i..j];
    forall k | 0 <= k < |ks|
      ensures ks[k] in w && AreaOf(w[ks[k]]) == View(v, list)[i + k] && start <= w[ks[k]].start < w[ks[k]].end <= end
    {
      assert ks[k] == list[i + k];
      assert AreaOf(w[ks[k]]) == AreaOf(v[ks[k]]);
    }
  }

  lemma ListWithin(v: VmaPool, w: VmaPool, list: seq<Ptr>)
    requires Within(v, list) && v.Keys == w.Keys
    ensures Within(w, list)
  {
  }

  lemma InsertedPrev(list: seq<Ptr>, j: nat)
    requires j <= |list|
    ensures forall x, k {:trigger Nth(Inserted(list, j, x), k)} ::
      k < j ==> Nth(Inserted(list, j, x), k) == Nth(list, k)
  {
  }

  lemma AreasCount(v: VmaPool, list: seq<Ptr>)
    requires Within(v, list)
    ensures |View(v, list)| == |list|
  {
  }
}
