/** A vRegion: areas on an address-ordered list and in an augmented tree. */
module VRegions {
  import opened RbTree
  import opened RbRotate
  import opened RbOps
  import opened VmaList
  import opened VmaSpec
  import opened VmaIndex
  import opened VmaSteps
  import opened GapSearch
  import opened VmaSearch
  import opened Options

  const VREGION_SIZE: nat := 0x4000_0000
  const EINVAL := 22
  const ENOMEM := 12

  class VRegion {
    const lo: nat
    const hi: nat
    const tree: RbRoot
    /** Search from the top; every vRegion is set up so. */
    const topdown: bool
    var vmas: VmaPool
    var mmap: Ptr
    var nrVmas: nat
    var highestVmEnd: nat
    ghost var list: seq<Ptr>
    ghost var shape: Tree

    constructor (lo: nat, hi: nat)
      ensures this.lo == lo && this.hi == hi && topdown && fresh(tree)
      ensures Valid() && Areas() == []
    {
      this.lo, this.hi, topdown := lo, hi, true;
      tree := new RbRoot();
      vmas, mmap, nrVmas, highestVmEnd := map[], NULL, 0, 0;
      list, shape := [], Leaf;
    }

    /** What a search sees. */
    function Snapshot(): Index
      reads this, tree
    {
      Index(tree.nodes, tree.root, vmas, mmap, highestVmEnd)
    }

    /** The list holds the areas, and the tree has their nodes. */
    ghost predicate Listed()
      reads this, tree
    {
      ListOk(vmas, mmap, list) && Within(vmas, list) && tree.nodes.Keys == Elems(list) && nrVmas == |list|
    }

    /** List, tree and counters agree, and there are no other areas. */
    ghost predicate Structured()
      reads this, tree
    {
      && Listed() && vmas.Keys == Elems(list) && Shaped(tree.nodes, tree.root, shape, list)
      && Indexed(tree.nodes, tree.root, vmas, shape, list)
      && highestVmEnd == HighestEnd(View(vmas, list))
    }

    /** And the areas are non-empty, in order and do not overlap. */
    ghost predicate Consistent()
      reads this, tree
    {
      Structured() && Sorted(View(vmas, list), lo, hi)
    }

    /** And the areas are the maximal runs of what they cover. */
    ghost predicate Valid()
      reads this, tree
    {
      Consistent() && Canonical(View(vmas, list), lo, hi)
    }

    ghost function Areas(): seq<Area>
      requires ListOk(vmas, mmap, list)
      reads this
    {
      View(vmas, list)
    }

    /** Enters x, already on the list behind the first i, into the tree. Values
        are right except perhaps for the gap before the area that follows x. */
    method VmaLinkRb(x: Ptr, parent: Ptr, s: Side, ghost c: Ctx, ghost i: nat)
      requires i <= |list| && x in vmas && x !in list && NULL !in list && ListOk(vmas, mmap, Inserted(list, i, x))
        && x != NULL
      requires IndexedBut(tree.nodes, tree.root, vmas, shape, list, {Nth(list, i)})
      requires Fill(c, Leaf) == shape && |Before(c)| == i && parent == CtxParent(c) && (c.In? ==> c.s == s)
      modifies this`highestVmEnd, this`shape, tree
      ensures Indexed(tree.nodes, tree.root, vmas, shape, Inserted(list, i, x))
      ensures tree.nodes.Keys == old(tree.nodes.Keys) + {x}
      ensures highestVmEnd == if i == |list| then vmas[x].end else old(highestVmEnd)
    {
      hide At, AtBut, ListOk, Fill, Before, Ids, RedBlack;
      InsertedNext(vmas, mmap, list, i, x);
      IdsAreElems(shape);
      LeafSplit(c, list, i);
      if vmas[x].next != NULL {
        tree.Settle(GapFn(vmas), vmas[x].next, shape, {Nth(list, i)});
      } else {
        IndexedAll(tree.nodes, tree.root, vmas, shape, list, {Nth(list, i)});
        highestVmEnd := vmas[x].end;
      }
      AtRefocus(tree.nodes, tree.root, GapFn(vmas), Top, shape, c, Leaf);
      shape := tree.Insert(GapFn(vmas), x, parent, s, c);
    }

    /** Links x, an area behind the first i, into list and tree. */
    method VmaLink(x: Ptr, prev: Ptr, parent: Ptr, s: Side, ghost c: Ctx, ghost i: nat)
      requires Listed() && x !in list && x != NULL && vmas.Keys == Elems(list) + {x} && i <= |list|
      requires IndexedBut(tree.nodes, tree.root, vmas, shape, list, {Nth(list, i)})
      requires Fill(c, Leaf) == shape && |Before(c)| == i && prev == Nth(list, i - 1)
      requires parent == CtxParent(c) && (c.In? ==> c.s == s)
      requires i < |list| ==> highestVmEnd == HighestEnd(Areas())
      modifies this, tree
      ensures Structured() && list == Inserted(old(list), i, x)
      ensures Areas() == Inserted(old(Areas()), i, AreaOf(old(vmas)[x]))
    {
      hide Indexed, IndexedBut, Shaped, Inserted, Sorted, Fill, HighestEnd, ListOk, Within, View, Before, Nth,
        LinkList, Root;
      LinkStep(tree.nodes, tree.root, vmas, mmap, list, shape, x, i);
      ElemsInserted(list, i, x);
      HighestInserted(Areas(), i, AreaOf(vmas[x]));
      var (w, first) := LinkList(vmas, mmap, x, prev);
      vmas, mmap := w, first;
      VmaLinkRb(x, parent, s, c, i);
      IndexedShape(tree.nodes, tree.root, vmas, shape, Inserted(list, i, x), {});
      list := Inserted(list, i, x);
      nrVmas := nrVmas + 1;
    }

    // ---- adjusting areas

    /** Gives area i the bounds start and end, one of which it has already. */
    method MoveBound(vma: Ptr, start: nat, end: nat, ghost i: nat)
      requires Consistent() && i < |list| && list[i] == vma && (start == vmas[vma].start || end == vmas[vma].end)
      requires Sorted(Areas()[i := Area(start, end, vmas[vma].flags)], lo, hi)
      modifies this`vmas, this`highestVmEnd, tree
      ensures Consistent() && Areas() == old(Areas())[i := Area(start, end, old(vmas)[vma].flags)]
    {
      hide ListOk, Within, Indexed, Shaped, IndexedBut, Sorted, HighestEnd, View, AtBut, At, RedBlack, InOrder;
      ghost var rs := Areas();
      RangeStep(tree.nodes, tree.root, vmas, mmap, list, shape, i, start, end);
      HighestUpdated(rs, i, Area(start, end, vmas[vma].flags));
      var next, startChanged, endChanged := vmas[vma].next, start != vmas[vma].start, end != vmas[vma].end;
      ghost var wrong := Moved(vmas, list, i, start, end);
      vmas := vmas[vma := vmas[vma].(start := start, end := end)];
      if startChanged {
        GapUpdate(vma, wrong);
      } else if endChanged && next != NULL {
        GapUpdate(next, wrong);
      } else {
        IndexedAll(tree.nodes, tree.root, vmas, shape, list, wrong);
        if endChanged {
          highestVmEnd := vmas[vma].end;
        }
      }
      IndexedShape(tree.nodes, tree.root, vmas, shape, list, {});
    }

    /** Makes the values right after the gap before x changed. */
    method GapUpdate(x: Ptr, ghost wrong: set<Ptr>)
      requires IndexedBut(tree.nodes, tree.root, vmas, shape, list, wrong) && wrong <= {x} && x in list
      modifies tree
      ensures Indexed(tree.nodes, tree.root, vmas, shape, list) && tree.nodes.Keys == old(tree.nodes.Keys)
    {
      hide AtBut, At, RedBlack, InOrder;
      IdsAreElems(shape);
      tree.Settle(GapFn(vmas), x, shape, wrong);
    }

    method AllocVma(a: Vma) returns (x: Ptr)
      modifies this`vmas
      ensures x != NULL && x !in old(vmas) && vmas == old(vmas)[x := a]
    {
      ghost var y := FreshPtr(vmas);
      x :| x != NULL && x !in vmas;
      vmas := vmas[x := a];
    }

    /** Finds the place for x, which fits behind the first j areas, and links it. */
    method InsertVmStruct(x: Ptr, ghost j: nat)
      requires Listed() && x !in list && x != NULL && vmas.Keys == Elems(list) + {x} && j <= |list|
      requires Sorted(Areas(), lo, hi) && Sorted(Inserted(Areas(), j, AreaOf(vmas[x])), lo, hi)
      requires IndexedBut(tree.nodes, tree.root, vmas, shape, list, {Nth(list, j)})
      requires j < |list| ==> highestVmEnd == HighestEnd(Areas())
      modifies this, tree
      ensures Consistent() && list == Inserted(old(list), j, x)
      ensures Areas() == Inserted(old(Areas()), j, AreaOf(old(vmas)[x]))
    {
      hide ListOk, Within, IndexedBut, Shaped, Sorted, HighestEnd, Inserted, EndBy, StartFrom, Overlapped, Nth,
        Indexed, Fill, Before;
      IndexedShape(tree.nodes, tree.root, vmas, shape, list, {Nth(list, j)});
      FitsBetween(Areas(), lo, hi, j, AreaOf(vmas[x]));
      var ok, prev, parent, s;
      ghost var c;
      ok, prev, parent, s, c := FindVmaLinks(Snapshot(), shape, list, lo, hi, vmas[x].start, vmas[x].end);
      assert ok;
      PlaceUnique(Areas(), lo, hi, j, |Before(c)|, vmas[x].start, vmas[x].end);
      VmaLink(x, prev, parent, s, c, j);
    }

    /** Cuts area i in two at addr; the new structure is below or above the cut. */
    method SplitVma(vma: Ptr, addr: nat, newBelow: bool, ghost i: nat) returns (new_: Ptr)
      requires Consistent() && i < |list| && list[i] == vma && vmas[vma].start < addr < vmas[vma].end
      modifies this, tree
      ensures Consistent() && list == Inserted(old(list), if newBelow then i else i + 1, new_)
      ensures Areas() == SplitAt(old(Areas()), i, addr)
    {
      hide ListOk, Within, IndexedBut, Shaped, Sorted, HighestEnd, Inserted, SplitAt, Indexed, View;
      ghost var rs, v := Areas(), vmas;
      var a := vmas[vma];
      if newBelow {
        new_ := AllocVma(a.(end := addr));
      } else {
        new_ := AllocVma(a.(start := addr));
      }
      AllocStep(tree.nodes, tree.root, v, mmap, list, shape, new_, vmas[new_]);
      var start, end := if newBelow then addr else a.start, if newBelow then a.end else addr;
      RangeStep(tree.nodes, tree.root, vmas, mmap, list, shape, i, start, end);
      SplitSorted(rs, lo, hi, i, addr);
      SplitParts(rs, i, addr);
      assert new_ !in Elems(list);
      HighestUpdated(rs, i, Area(start, end, a.flags));
      assert Moved(vmas, list, i, start, end) == {Nth(list, if newBelow then i else i + 1)};
      vmas := vmas[vma := vmas[vma].(start := start, end := end)];
      InsertVmStruct(new_, if newBelow then i else i + 1);
    }

    // ---- taking areas out

    /** Erases x, element p of cur, from the tree; its own value need not be right. */
    method EraseNode(x: Ptr, ghost cur: seq<Ptr>, ghost p: nat)
      requires IndexedBut(tree.nodes, tree.root, vmas, shape, cur, {x}) && Distinct(cur) && p < |cur| && cur[p] == x
      modifies tree, this`shape
      ensures Indexed(tree.nodes, tree.root, vmas, shape, Removed(cur, p, p + 1))
      ensures tree.nodes.Keys == old(tree.nodes.Keys)
    {
      hide AtBut, At, RedBlack, InOrder, Removed, Distinct;
      IdsAreElems(shape);
      assert x in Elems(cur);
      ghost var pre, post;
      shape, pre, post := tree.Erase(GapFn(vmas), x, shape);
      ErasedOrder(cur, p, x, pre, post);
    }

    /** Extends area i over the whole of the next area, which goes away. */
    method RemoveNext(vma: Ptr, next: Ptr, ghost i: nat)
      requires Consistent() && i + 1 < |list| && list[i] == vma && list[i + 1] == next
      modifies this, tree
      ensures Consistent() && list == Removed(old(list), i + 1, i + 2) && Areas() == Joined(old(Areas()), i)
    {
      hide ListOk, ListOkBut, Within, Indexed, IndexedBut, Shaped, Sorted, HighestEnd, View, Removed, Joined, Distinct,
        Moved;
      ghost var rs := Areas();
      AreaAt(vmas, mmap, list, i);
      AreaAt(vmas, mmap, list, i + 1);
      var end := vmas[next].end;
      RangeStep(tree.nodes, tree.root, vmas, mmap, list, shape, i, vmas[vma].start, end);
      JoinedParts(rs, lo, hi, i);
      JoinedSorted(rs, lo, hi, i);
      MovedEnd(vmas, list, i, end);
      vmas := vmas[vma := vmas[vma].(end := end)];
      EraseNode(next, list, i + 1);
      UnlinkArea(next, i + 1);
      SettleGap(vmas[vma].next, i + 1);
    }

    /** Makes the values right when only the gap before x, area i, may have changed. */
    method SettleGap(x: Ptr, ghost i: nat)
      requires IndexedBut(tree.nodes, tree.root, vmas, shape, list, {Nth(list, i)}) && x == Nth(list, i)
        && NULL !in list
      modifies tree
      ensures Indexed(tree.nodes, tree.root, vmas, shape, list) && Shaped(tree.nodes, tree.root, shape, list)
      ensures tree.nodes.Keys == old(tree.nodes.Keys)
    {
      hide Indexed, IndexedBut, Shaped;
      if x != NULL {
        GapUpdate(x, {x});
      } else {
        IndexedAll(tree.nodes, tree.root, vmas, shape, list, {NULL});
      }
      IndexedShape(tree.nodes, tree.root, vmas, shape, list, {});
    }

    /** Takes x, area i, which the tree has lost already, off the list and frees it. */
    method UnlinkArea(x: Ptr, ghost i: nat)
      requires ListOk(vmas, mmap, list) && i < |list| && list[i] == x && vmas.Keys == Elems(list) == tree.nodes.Keys
      requires Indexed(tree.nodes, tree.root, vmas, shape, Removed(list, i, i + 1)) && nrVmas == |list|
      modifies this`vmas, this`mmap, this`nrVmas, this`list, tree`nodes
      ensures ListOk(vmas, mmap, list) && Within(vmas, list) && list == Removed(old(list), i, i + 1) && nrVmas == |list|
      ensures vmas.Keys == Elems(list) == tree.nodes.Keys
      ensures IndexedBut(tree.nodes, tree.root, vmas, shape, list, {Nth(list, i)})
      ensures View(vmas, list) == Removed(old(View(vmas, list)), i, i + 1)
      ensures i > 0 ==> list[i - 1] == old(list)[i - 1] && list[i - 1] in vmas && vmas[list[i - 1]].next == Nth(list, i)
      ensures NULL !in list
    {
      hide ListOk, ListOkBut, Within, Indexed, IndexedBut, View, Removed, Distinct, Splice, Nth;
      ghost var list' := Removed(list, i, i + 1);
      AreaAt(vmas, mmap, list, i);
      RemoveOne(list, i);
      ListButOf(vmas, mmap, list, i, i + 1);
      SpliceStep(tree.nodes, tree.root, vmas, mmap, list, shape, i, i + 1);
      var (w, first) := UnlinkList(vmas, mmap, x);
      FreeStep(tree.nodes, tree.root, w, first, list', shape, {Nth(list, i + 1)}, {x});
      vmas, mmap := w - {x}, first;
      tree.nodes := tree.nodes - {x};
      nrVmas := nrVmas - 1;
      list := list';
      if i > 0 {
        AreaAt(vmas, mmap, list, i - 1);
      } else if |list| > 0 {
        AreaAt(vmas, mmap, list, 0);
      }
    }

    /** Gives area i new bounds, swallowing the next area when end says so. */
    method VmaAdjust(vma: Ptr, start: nat, end: nat, ghost i: nat)
      requires Consistent() && i < |list| && list[i] == vma && Adjustable(Areas(), lo, hi, i, start, end)
      modifies this, tree
      ensures Consistent() && Areas() == Adjusted(old(Areas()), i, start, end)
    {
      hide ListOk, Within, Indexed, Shaped, Sorted, HighestEnd, View, Removed, Joined;
      ghost var rs := Areas();
      AreaAt(vmas, mmap, list, i);
      AdjustCases(rs, lo, hi, i, start, end);
      var next := vmas[vma].next;
      if next != NULL {
        AreaAt(vmas, mmap, list, i + 1);
        assert end >= vmas[next].end || vmas[vma].end <= end <= vmas[next].start;
        if end >= vmas[next].end {
          RemoveNext(vma, next, i);
          return;
        }
      }
      MoveBound(vma, start, end, i);
    }

    /** Lets [addr, end), which belongs behind the first i areas, be taken over by a
        neighbour it touches. NULL if it touches none. */
    method VmaMerge(prev: Ptr, addr: nat, end: nat, ghost i: nat) returns (vma: Ptr)
      requires Consistent() && i <= |list| && prev == Nth(list, i - 1) && lo <= addr <= end <= hi
      requires EndBy(Areas(), i, addr) && StartFrom(Areas(), i, end)
      modifies this, tree
      ensures Consistent() && Areas() == Merged(old(Areas()), i, addr, end)
      ensures vma == NULL <==> !TouchesPrev(old(Areas()), i, addr) && !TouchesNext(old(Areas()), i, end)
      ensures vma == NULL ==> shape == old(shape) && list == old(list)
    {
      hide ListOk, Within, Indexed, Shaped, Sorted, HighestEnd, View, Removed, Joined, EndBy, StartFrom, Adjustable,
        Adjusted, Merged;
      ghost var rs := Areas();
      MergeAdjusts(rs, lo, hi, i, addr, end);
      MergeNeighbours(vmas, mmap, list, i);
      var next := if prev != NULL then vmas[prev].next else mmap;
      assert next != NULL ==> vmas[next].end != end;
      if prev != NULL && vmas[prev].end == addr {
        var e := if next != NULL && end == vmas[next].start then vmas[next].end else end;
        VmaAdjust(prev, vmas[prev].start, e, i - 1);
        return prev;
      }
      if next != NULL && end == vmas[next].start {
        assert prev != NULL ==> addr >= vmas[prev].end;
        VmaAdjust(next, addr, vmas[next].end, i);
        return next;
      }
      MergeNothing(rs, i, addr, end);
      vma := NULL;
    }

    // ---- unmapping

    /** Erases the run of areas that starts at vma from the tree. */
    method EraseRun(vma: Ptr, end: nat, ghost i: nat, ghost j: nat) returns (rest: Ptr, tail: Ptr)
      requires Run(vmas, list, i, j, end) && vma == list[i] && nrVmas == |list|
      requires IndexedBut(tree.nodes, tree.root, vmas, shape, list, {list[i]})
      modifies tree, this`shape, this`nrVmas
      ensures Indexed(tree.nodes, tree.root, vmas, shape, Removed(list, i, j))
        && tree.nodes.Keys == old(tree.nodes.Keys)
      ensures nrVmas == |list| - (j - i) && rest == Nth(list, j) && tail == list[j - 1]
    {
      hide IndexedBut, Indexed, Run, Removed, Distinct;
      RunFacts(vmas, list, i, j, end);
      rest, tail := vma, NULL;
      var more := true;
      ghost var k := i;
      while more
        invariant i <= k <= j && more == (k < j) && rest == Nth(list, k) && (k > i ==> tail == list[k - 1])
        invariant IndexedBut(tree.nodes, tree.root, vmas, shape, Removed(list, i, k), {list[i]})
        invariant nrVmas == |list| - (k - i) && tree.nodes.Keys == old(tree.nodes.Keys)
        decreases j - k
      {
        RunAt(vmas, list, i, j, end, k);
        RemovedNext(list, i, k);
        IndexedWeaken(tree.nodes, tree.root, vmas, shape, Removed(list, i, k), {list[i]}, list[k]);
        EraseNode(rest, Removed(list, i, k), i);
        IndexedGone(tree.nodes, tree.root, vmas, shape, list, i, k + 1);
        nrVmas := nrVmas - 1;
        tail := rest;
        rest := vmas[rest].next;
        more := rest != NULL && vmas[rest].start < end;
        k := k + 1;
      }
      IndexedGone(tree.nodes, tree.root, vmas, shape, list, i, j);
    }

    /** Takes areas i up to j, the run from vma on that starts before end, out of tree
        and list, and leaves them chained for release. */
    method DetachVmas(vma: Ptr, prev: Ptr, end: nat, ghost i: nat, ghost j: nat)
      requires Consistent() && i < j <= |list| && vma == list[i] && prev == Nth(list, i - 1)
      requires forall k :: i <= k < j ==> Areas()[k].start < end
      requires j < |list| ==> Areas()[j].start >= end
      modifies this, tree
      ensures list == Removed(old(list), i, j) && ListOk(vmas, mmap, list) && Within(vmas, list) && nrVmas == |list|
      ensures Indexed(tree.nodes, tree.root, vmas, shape, list) && highestVmEnd == HighestEnd(Areas())
      ensures vmas.Keys == tree.nodes.Keys == old(vmas.Keys) && Areas() == Removed(old(Areas()), i, j)
      ensures Chained(vmas, old(list)[i..j]) && forall x :: x in vmas ==> AreaOf(vmas[x]) == AreaOf(old(vmas)[x])
    {
      hide ListOk, ListOkBut, Within, Indexed, IndexedBut, Shaped, Sorted, HighestEnd, View, Removed, Run, Chained,
        Distinct;
      ghost var rs := Areas();
      AreaAt(vmas, mmap, list, i);
      DetachedSeq(list, i, j);
      RunStart(tree.nodes, tree.root, vmas, mmap, list, shape, i, j, end);
      vmas := ClearPrev(vmas, vma);
      var rest, tail := EraseRun(vma, end, i, j);
      CloseOver(prev, rest, tail, end, i, j);
    }

    /** Closes list and index over a run the tree has lost already. */
    method CloseOver(prev: Ptr, rest: Ptr, tail: Ptr, ghost end: nat, ghost i: nat, ghost j: nat)
      requires Run(vmas, list, i, j, end) && ListOkBut(vmas, mmap, list, i, j) && Within(vmas, list)
      requires Indexed(tree.nodes, tree.root, vmas, shape, Removed(list, i, j))
      requires prev == Nth(list, i - 1) && rest == Nth(list, j) && tail == list[j - 1]
      requires highestVmEnd == HighestEnd(View(vmas, list)) && Sorted(View(vmas, list), lo, hi)
      modifies this`vmas, this`mmap, this`list, this`highestVmEnd, tree
      ensures list == Removed(old(list), i, j) && ListOk(vmas, mmap, list) && Within(vmas, list)
      ensures Indexed(tree.nodes, tree.root, vmas, shape, list) && highestVmEnd == HighestEnd(View(vmas, list))
      ensures vmas.Keys == old(vmas.Keys) && tree.nodes.Keys == old(tree.nodes.Keys)
      ensures View(vmas, list) == Removed(old(View(vmas, list)), i, j)
      ensures Chained(vmas, old(list)[i..j]) && forall x :: x in vmas ==> AreaOf(vmas[x]) == AreaOf(old(vmas)[x])
    {
      hide ListOk, ListOkBut, Within, Indexed, IndexedBut, HighestEnd, View, Sorted, Removed, Run, Chained, Bypassed,
        Distinct, Splice;
      RunFacts(vmas, list, i, j, end);
      SpliceStep(tree.nodes, tree.root, vmas, mmap, list, shape, i, j);
      SpliceListFields(vmas, mmap, list, i, j);
      DetachedSeq(list, i, j);
      DetachedHighest(vmas, mmap, list, i, j, lo, hi);
      var (w, first) := Splice(vmas, mmap, prev, rest);
      DetachedChain(vmas, mmap, list, i, j, end, w);
      vmas, mmap, list := w, first, Removed(list, i, j);
      if rest != NULL {
        GapUpdate(rest, {rest});
      } else {
        IndexedAll(tree.nodes, tree.root, vmas, shape, list, {NULL});
        highestVmEnd := if prev != NULL then vmas[prev].end else 0;
      }
      OffList(tree.nodes, tree.root, vmas, mmap, list, shape, tail, NULL);
      vmas := SetNext(vmas, tail, NULL);
    }

    /** Frees a chain of detached structures. */
    method FreeChain(vma: Ptr, ghost ks: seq<Ptr>)
      requires Chained(vmas, ks) && |ks| > 0 && vma == ks[0]
      modifies this`vmas, tree`nodes
      ensures vmas == old(vmas) - Elems(ks) && tree.nodes == old(tree.nodes) - Elems(ks)
    {
      var x := vma;
      ghost var v, m, k: nat := vmas, tree.nodes, 0;
      ChainStep(v, ks, 0);
      while x != NULL
        invariant k <= |ks| && x == Nth(ks, k)
        invariant vmas == v - Elems(ks[..k]) && tree.nodes == m - Elems(ks[..k])
        decreases |ks| - k
      {
        hide Chained;
        ChainStep(v, ks, k);
        assert x in vmas;
        var next := vmas[x].next;
        vmas := vmas - {x};
        tree.nodes := tree.nodes - {x};
        x, k := next, k + 1;
      }
      ChainEnd(v, ks, k);
    }

    /** Takes areas i up to j out and frees them. */
    method TakeOut(prev: Ptr, start: nat, end: nat, ghost i: nat, ghost j: nat) returns (released: seq<Area>)
      requires Consistent() && Between(Areas(), i, j, start, end) && prev == Nth(list, i - 1)
      modifies this, tree
      ensures Consistent() && Areas() == Removed(old(Areas()), i, j) && released == Real(old(Areas())[i..j])
    {
      hide ListOk, Within, Indexed, IndexedBut, Shaped, Sorted, HighestEnd, View, Removed, Chained, Real, EndBy,
        StartFrom, ChainWithin, Distinct, Elems;
      ghost var rs, v, all := Areas(), vmas, list;
      MergeNeighbours(vmas, mmap, list, i);
      BetweenBounds(rs, lo, hi, i, j, start, end);
      AreaAt(vmas, mmap, list, i);
      var vma := if prev != NULL then vmas[prev].next else mmap;
      DetachVmas(vma, prev, end, i, j);
      ListWithin(v, vmas, all);
      ChainAreas(v, vmas, all, i, j, start, end);
      RemovedAreas(rs, lo, hi, i, j);
      ElemsRemoved(all, i, j);
      released := UnmapRegion(vmas, vma, start, end, all[i..j]);
      DropDetached(vma, all[i..j]);
    }

    /** Frees detached structures; list and tree do not notice. */
    method DropDetached(vma: Ptr, ghost ks: seq<Ptr>)
      requires ListOk(vmas, mmap, list) && Indexed(tree.nodes, tree.root, vmas, shape, list)
      requires Chained(vmas, ks) && |ks| > 0 && vma == ks[0] && Elems(ks) !! Elems(list)
      modifies this`vmas, tree`nodes
      ensures ListOk(vmas, mmap, list) && Within(vmas, list) && View(vmas, list) == old(View(vmas, list))
      ensures Indexed(tree.nodes, tree.root, vmas, shape, list) && Shaped(tree.nodes, tree.root, shape, list)
      ensures vmas.Keys == old(vmas.Keys) - Elems(ks) && tree.nodes.Keys == old(tree.nodes.Keys) - Elems(ks)
    {
      hide ListOk, Within, Indexed, IndexedBut, Shaped, View, Chained, Elems;
      IndexedAll(tree.nodes, tree.root, vmas, shape, list, {});
      FreeStep(tree.nodes, tree.root, vmas, mmap, list, shape, {}, Elems(ks));
      FreeChain(vma, ks);
      IndexedAll(tree.nodes, tree.root, vmas, shape, list, {});
      IndexedShape(tree.nodes, tree.root, vmas, shape, list, {});
    }

    /** Cuts area i at start if it begins before; the areas from the cut on are next. */
    method CutFront(vma: Ptr, start: nat, end: nat, ghost i0: nat) returns (prev: Ptr, ghost i: nat)
      requires Valid() && i0 < |list| && vma == list[i0] && EndBy(Areas(), i0, start)
      requires start < Areas()[i0].end && Areas()[i0].start < end && start < end
      modifies this, tree
      ensures Consistent() && SameFlags(old(Areas()), Areas()) && Fronted(Areas(), i, start, end)
        && prev == Nth(list, i - 1)
      ensures CutOf(old(Areas()), Areas(), start)
    {
      hide ListOk, Within, Indexed, Shaped, Sorted, Canonical, HighestEnd, View, SplitAt, EndBy, StartFrom, ApartIn,
        SameFlags, Inserted;
      ghost var rs := Areas();
      AreaAt(vmas, mmap, list, i0);
      if start > vmas[vma].start {
        CutAtFront(rs, lo, hi, i0, start);
        InsertedPrev(list, i0 + 1);
        var new_ := SplitVma(vma, start, false, i0);
        prev := vma;
        i := i0 + 1;
      } else {
        NoCutAtFront(rs, lo, hi, i0, start);
        prev := vmas[vma].prev;
        i := i0;
      }
    }

    /** Cuts the area across end, if there is one. */
    method CutBack(start: nat, end: nat, ghost i: nat) returns (ghost j: nat)
      requires Consistent() && Fronted(Areas(), i, start, end)
      modifies this, tree
      ensures Consistent() && SameFlags(old(Areas()), Areas()) && Between(Areas(), i, j, start, end)
      ensures CutOf(old(Areas()), Areas(), end)
      ensures ApartIn(Areas(), 0, i) && ApartIn(Areas(), j, |Areas()|) && Nth(list, i - 1) == old(Nth(list, i - 1))
    {
      hide ListOk, Within, Indexed, Shaped, Sorted, HighestEnd, View, SplitAt, Between, EndBy, StartFrom, ApartIn,
        SameFlags, Inserted;
      ghost var rs := Areas();
      ghost var l;
      var last;
      last, l := FindVma(Snapshot(), shape, list, lo, hi, end);
      MergeNeighbours(vmas, mmap, list, l);
      if last != NULL && end > vmas[last].start {
        CutAtBack(rs, lo, hi, i, l, start, end);
        InsertedPrev(list, l);
        var new_ := SplitVma(last, end, true, l);
        j := l + 1;
      } else {
        NoCutAtBack(rs, lo, hi, i, l, start, end);
        j := l;
      }
    }

    /** Removes [start, start + len) from the allocated addresses. Refused for an
        empty range, and when a hole inside one area would be needed. released are
        the ranges whose page table entries go. */
    method FreeVa(start: nat, len: nat) returns (err: int, released: seq<Area>)
      requires Valid()
      modifies this, tree
      ensures Valid() && err in {0, -EINVAL, -ENOMEM}
      ensures err == -EINVAL <==> len == 0
      ensures err == -ENOMEM <==> len != 0 && Inside(old(Areas()), start, start + len)
      ensures err != 0 ==> Areas() == old(Areas()) && released == []
      ensures err == 0 ==> Without(old(Areas()), Areas(), start, start + len)
      ensures err == 0 ==> Release(old(Areas()), released, start, start + len)
      ensures KeepsMultiples(old(Areas()), Areas(), released, start, start + len) && Sorted(released, lo, hi)
    {
      hide ListOk, Within, Indexed, Shaped, Sorted, Canonical, HighestEnd, View, EndBy, StartFrom, ApartIn, SameFlags,
        Inside, Without, Release, Between, KeepsMultiples;
      released := [];
      SameMultiples(Areas(), start, start + len);
      NoneSorted(lo, hi);
      if len == 0 {
        return -EINVAL, [];
      }
      var end := start + len;
      ghost var rs := Areas();
      ghost var i0;
      var vma;
      vma, i0 := FindVma(Snapshot(), shape, list, lo, hi, start);
      MergeNeighbours(vmas, mmap, list, i0);
      if vma == NULL || vmas[vma].start >= end {
        StartBehind(rs, lo, hi, i0, end);
        NothingToFree(rs, lo, hi, i0, start, end);
        return 0, [];
      }
      InsideIff(rs, lo, hi, i0, start, end);
      if start > vmas[vma].start && end < vmas[vma].end {
        return -ENOMEM, [];
      }
      err, released := FreeFrom(vma, start, end, i0);
    }

    /** The part of FreeVa that changes something. */
    method FreeFrom(vma: Ptr, start: nat, end: nat, ghost i0: nat) returns (err: int, released: seq<Area>)
      requires Valid() && i0 < |list| && vma == list[i0] && EndBy(Areas(), i0, start)
      requires start < Areas()[i0].end && Areas()[i0].start < end && start < end
      modifies this, tree
      ensures Valid() && err == 0 && Without(old(Areas()), Areas(), start, end)
        && Release(old(Areas()), released, start, end)
      ensures KeepsMultiples(old(Areas()), Areas(), released, start, end) && Sorted(released, lo, hi)
    {
      hide ListOk, Within, Indexed, Shaped, Sorted, Canonical, HighestEnd, View, EndBy, StartFrom, ApartIn, SameFlags,
        Without, Release, Between, Fronted, Removed, Real, CutOf, KeepsMultiples;
      ghost var rs := Areas();
      ghost var i, j;
      var prev;
      prev, i := CutFront(vma, start, end, i0);
      ghost var ms := Areas();
      j := CutBack(start, end, i);
      ghost var qs := Areas();
      BetweenSize(qs, i, j, start, end);
      FreeMultiples(rs, ms, qs, i, j, start, end);
      SortedPart(qs, lo, hi, i, j);
      TakeOutBetween(qs, i, j, start, end);
      RemovedApart(qs, lo, hi, i, j, start, end);
      released := TakeOut(prev, start, end, i, j);
      err := 0;
      FreedFlags(rs, ms, qs, Areas(), released, start, end);
    }

    // ---- allocating

    /** Frees what [addr, addr + len) overlaps and finds the range's place. */
    method ClearRange(addr: nat, len: nat)
      returns (ok: bool, released: seq<Area>, prev: Ptr, parent: Ptr, s: Side, ghost c: Ctx)
      requires Valid()
      modifies this, tree
      ensures Valid() && (!ok <==> Inside(old(Areas()), addr, addr + len))
      ensures !ok || !Overlapped(old(Areas()), addr, addr + len) ==> Areas() == old(Areas()) && released == []
      ensures ok ==> && Without(old(Areas()), Areas(), addr, addr + len)
                     && Release(old(Areas()), released, addr, addr + len)
                     && Fill(c, Leaf) == shape && parent == CtxParent(c) && (c.In? ==> c.s == s)
                     && |Before(c)| <= |list| && prev == Nth(list, |Before(c)| - 1)
                     && EndBy(Areas(), |Before(c)|, addr) && StartFrom(Areas(), |Before(c)|, addr + len)
    {
      hide ListOk, Within, Indexed, Shaped, Sorted, Canonical, HighestEnd, View, EndBy, StartFrom, Inside, Without,
        Release, Overlapped, Fill, Before, Nth;
      ghost var rs := Areas();
      released := [];
      ok, prev, parent, s, c := FindVmaLinks(Snapshot(), shape, list, lo, hi, addr, addr + len);
      if ok {
        FreeIsClear(rs, lo, hi, addr, addr + len);
      }
      EmptyInside(rs, addr);
      while !ok
        invariant Valid() && (!ok || !Overlapped(rs, addr, addr + len) ==> Areas() == rs && released == [])
        invariant !ok ==> Overlapped(rs, addr, addr + len)
        invariant ok ==> !Inside(rs, addr, addr + len) && Without(rs, Areas(), addr, addr + len)
                         && Release(rs, released, addr, addr + len)
        invariant ok ==> Fill(c, Leaf) == shape && parent == CtxParent(c) && (c.In? ==> c.s == s)
        invariant ok ==> |Before(c)| <= |list| && prev == Nth(list, |Before(c)| - 1)
                         && EndBy(Areas(), |Before(c)|, addr) && StartFrom(Areas(), |Before(c)|, addr + len)
        decreases !ok
      {
        var err;
        err, released := FreeVa(addr, len);
        if err != 0 {
          return;
        }
        ClearedIsFree(rs, Areas(), lo, hi, addr, addr + len);
        ok, prev, parent, s, c := FindVmaLinks(Snapshot(), shape, list, lo, hi, addr, addr + len);
      }
    }

    /** Makes [addr, addr + len) allocated, freeing first what it overlaps. The areas
        are then those left by the freeing with the range added. Of length 0 it may
        leave an empty area behind. */
    method VmaTreeNew(addr: nat, len: nat, flags: nat)
      returns (r: Option<nat>, released: seq<Area>, ghost rs: seq<Area>, ghost i: nat)
      requires Valid() && lo <= addr && addr + len <= hi
      modifies this, tree
      ensures Structured() && (r.None? <==> Inside(old(Areas()), addr, addr + len))
      ensures r.None? ==> Valid() && Areas() == old(Areas()) && released == []
      ensures !Overlapped(old(Areas()), addr, addr + len) ==> rs == old(Areas()) && released == []
      ensures r.Some? ==> && r.value == addr && Adds(old(Areas()), Areas(), addr, addr + len)
                          && Without(old(Areas()), rs, addr, addr + len)
                            && Release(old(Areas()), released, addr, addr + len)
                          && Canonical(rs, lo, hi) && i <= |rs| && EndBy(rs, i, addr) && StartFrom(rs, i, addr + len)
                          && Areas() == Added(rs, i, addr, addr + len, flags)
                          && (Valid() <==> len > 0 || TouchesPrev(rs, i, addr) || TouchesNext(rs, i, addr + len))
    {
      hide ListOk, Within, Indexed, IndexedBut, Shaped, Sorted, Canonical, HighestEnd, View, EndBy, StartFrom, Inside,
        Without,
        Overlapped, Release, Fill, Before, Nth, Added, Merged, Inserted, Adds, TouchesPrev, TouchesNext;
      ghost var was := Areas();
      var ok, prev, parent, s;
      ghost var c;
      ok, released, prev, parent, s, c := ClearRange(addr, len);
      rs, i := Areas(), 0;
      if !ok {
        return None, released, rs, i;
      }
      r, i := Some(addr), |Before(c)|;
      AddedAdds(was, rs, lo, hi, i, addr, addr + len, flags);
      AddedCanonicalIff(rs, lo, hi, i, addr, addr + len, flags);
      CanonicalIsApart(Added(rs, i, addr, addr + len, flags), lo, hi);
      AddedNew(rs, i, addr, addr + len, flags);
      AreasCount(vmas, list);
      var vma := VmaMerge(prev, addr, addr + len, i);
      if vma == NULL {
        MergeNothing(rs, i, addr, addr + len);
        CreateVma(addr, addr + len, flags, prev, parent, s, c);
      }
    }

    /** Makes a new area and links it at a place found before. */
    method CreateVma(addr: nat, end: nat, flags: nat, prev: Ptr, parent: Ptr, s: Side, ghost c: Ctx)
      requires Structured() && |Before(c)| <= |list|
      requires Fill(c, Leaf) == shape && prev == Nth(list, |Before(c)| - 1) && parent == CtxParent(c)
        && (c.In? ==> c.s == s)
      modifies this, tree
      ensures Structured() && Areas() == Inserted(old(Areas()), |Before(c)|, Area(addr, end, flags))
    {
      hide ListOk, Within, Indexed, IndexedBut, Shaped, Sorted, HighestEnd, View, Inserted, Fill, Before, Nth;
      ghost var v := vmas;
      var x := AllocVma(Vma(addr, end, flags, NULL, NULL));
      AllocStep(tree.nodes, tree.root, v, mmap, list, shape, x, vmas[x]);
      IndexedAny(tree.nodes, tree.root, vmas, shape, list, {Nth(list, |Before(c)|)});
      assert x !in Elems(list);
      VmaLink(x, prev, parent, s, c, |Before(c)|);
    }

    /** Finds room for len bytes; nothing changes. */
    method FindVaRange(len: nat) returns (r: Option<nat>)
      requires Consistent() && (len > 0 || topdown) && hi <= lo + VREGION_SIZE
      ensures r.Some? && topdown ==> Greatest(Areas(), r.value, Request(len, lo, hi))
      ensures r.Some? && !topdown ==> Least(Areas(), r.value, Request(len, lo, hi))
      ensures r.None? ==> Infeasible(Areas(), Request(len, lo, hi))
    {
      hide ListOk, Within, Indexed, Shaped, Sorted, HighestEnd, View, Greatest, Least, Infeasible;
      if len > VREGION_SIZE {
        NoRoom(Areas(), Request(len, lo, hi));
        return None;
      }
      HighestBound(Areas(), lo, hi);
      if topdown {
        r := FindVaRangeTopdown(Snapshot(), shape, list, lo, hi, Request(len, lo, hi));
      } else {
        r := FindVaRangeBottomup(Snapshot(), shape, list, lo, hi, Request(len, lo, hi));
      }
      assert r.Some? ==> r.value + len <= hi by {
        FoundFits(Areas(), Request(len, lo, hi));
      }
    }
  }
}
