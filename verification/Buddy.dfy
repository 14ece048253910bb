/** The buddy allocator of the board's physical pages. */
module Buddy {
  import opened Pow2
  import opened BuddyBlocks
  import opened Options

  /** Free lists with their counters, and the flag and order kept per page. */
  datatype Areas = Areas(free: seq<seq<nat>>, nrFree: seq<nat>, buddy: seq<bool>, order: seq<nat>)

  function Drop(xs: seq<nat>, p: nat): seq<nat> {
    if xs == [] then [] else if xs[0] == p then xs[1..] else [xs[0]] + Drop(xs[1..], p)
  }

  ghost predicate NoDup(xs: seq<nat>) { forall i, j :: 0 <= i < j < |xs| ==> xs[i] != xs[j] }

  /** The list of one order holds exactly the free blocks of that order. */
  ghost predicate ListHolds(xs: seq<nat>, hs: Blocks, o: nat) {
    NoDup(xs) && forall p :: p in xs <==> p in hs && hs[p] == o
  }

  ghost predicate Sized(a: Areas, z: Zone) {
    |a.free| == |a.nrFree| == z.maxOrder && |a.buddy| == |a.order| == z.end
  }

  /** Lists, counters and page flags all tell of the same blocks. */
  ghost predicate Holds(a: Areas, z: Zone, hs: Blocks) {
    && Sized(a, z) && (forall p :: p in hs ==> p < z.end && hs[p] < z.maxOrder)
    && (forall p :: 0 <= p < z.end ==> (a.buddy[p] <==> p in hs) && (p in hs ==> a.order[p] == hs[p]))
    && (forall o :: 0 <= o < z.maxOrder ==> ListHolds(a.free[o], hs, o) && a.nrFree[o] == |a.free[o]|)
  }

  /** Takes a page off its list and clears its flag. */
  function Del(a: Areas, p: nat, o: nat): Areas
    requires o < |a.free| == |a.nrFree| && p < |a.buddy| == |a.order| && a.nrFree[o] > 0
  {
    Areas(a.free[o := Drop(a.free[o], p)], a.nrFree[o := a.nrFree[o] - 1], a.buddy[p := false], a.order[p := 0])
  }

  /** Puts a page at the head of a list and flags it. */
  function Add(a: Areas, p: nat, o: nat): Areas
    requires o < |a.free| == |a.nrFree| && p < |a.buddy| == |a.order|
  {
    Areas(a.free[o := [p] + a.free[o]], a.nrFree[o := a.nrFree[o] + 1], a.buddy[p := true], a.order[p := o])
  }

  lemma {:induction false} DropOne(xs: seq<nat>, p: nat)
    requires NoDup(xs) && p in xs
    ensures NoDup(Drop(xs, p)) && |Drop(xs, p)| == |xs| - 1
    ensures forall q :: q in Drop(xs, p) <==> q in xs && q != p
    decreases xs
  {
    var ys := xs[1..];
    assert xs == [xs[0]] + ys;
    assert forall i, j :: 0 <= i < j < |ys| ==> ys[i] == xs[i + 1] && ys[j] == xs[j + 1];
    if xs[0] == p {
      assert forall i :: 0 <= i < |ys| ==> ys[i] == xs[i + 1] != p;
    } else {
      DropOne(ys, p);
      assert xs[0] !in ys;
    }
  }

  lemma DelHolds(a: Areas, z: Zone, hs: Blocks, p: nat)
    requires Holds(a, z, hs) && p in hs
    ensures p < z.end && hs[p] < z.maxOrder && a.nrFree[hs[p]] > 0 && Holds(Del(a, p, hs[p]), z, hs - {p})
  {
    var o := hs[p];
    assert ListHolds(a.free[o], hs, o);
    DropOne(a.free[o], p);
  }

  lemma AddHolds(a: Areas, z: Zone, hs: Blocks, p: nat, o: nat)
    requires Holds(a, z, hs) && p !in hs && p < z.end && o < z.maxOrder
    ensures Holds(Add(a, p, o), z, hs[p := o])
  {
    var a', hs' := Add(a, p, o), hs[p := o];
    forall k | 0 <= k < z.maxOrder ensures ListHolds(a'.free[k], hs', k) && a'.nrFree[k] == |a'.free[k]| {
      assert ListHolds(a.free[k], hs, k);
    }
  }

  lemma HoldsSized(a: Areas, z: Zone, hs: Blocks)
    requires Holds(a, z, hs)
    ensures Sized(a, z)
  {
  }

  lemma SameStart(z: Zone, hs: Blocks, p: nat, o: nat)
    requires InHand(z, hs, p, o)
    ensures SamePages(hs, p, o, hs, p, o) && o < z.maxOrder
  {
  }

  /** How the code finds the buddy and the merged block from the page's low bits. */
  lemma BuddyAt(a: Areas, z: Zone, hs: Blocks, page: nat, o: nat)
    requires z.Ok() && Holds(a, z, hs) && Fits(z, page, o) && o + 1 < z.maxOrder
    ensures var idx := Low(page, z.maxOrder);
            && page + Flip(idx, o) - idx == Flip(page, o) && page + BitAnd(Flip(idx, o), idx) - idx == Lower(page, o)
            && BitAnd(Flip(idx, o), idx) == Low(Lower(page, o), z.maxOrder)
    ensures Sized(a, z) && Flip(page, o) < z.end
    ensures a.buddy[Flip(page, o)] && a.order[Flip(page, o)] == o <==> !NoBuddy(hs, page, o)
  {
    hide Low, Flip, BitAnd, Lower, Good, ListHolds;
    BuddyInZone(z, page, o);
    FlipLow(page, o, z.maxOrder);
    LowLower(page, o, z.maxOrder);
    LowAligned(page, o, z.maxOrder);
    AndLower(Low(page, z.maxOrder), o);
  }

  lemma FitsBound(z: Zone, p: nat, o: nat)
    requires Fits(z, p, o)
    ensures p < z.end && o < z.maxOrder
  {
  }

  /** A block is taken, or its free is noticed, or it is inside a larger free block. */
  lemma SeenOrBuried(z: Zone, hs: Blocks, p: nat, o: nat)
    requires Good(z, hs) && Fits(z, p, o)
    ensures Taken(hs, p, o) ==> !HeadInside(hs, p, o) && !Buried(hs, p, o)
    ensures !Taken(hs, p, o) ==> (HeadInside(hs, p, o) <==> !Buried(hs, p, o))
  {
    if Buried(hs, p, o) {
      BuriedNotTaken(z, hs, p, o);
    }
    if !Taken(hs, p, o) {
      DoubleFreeSeen(z, hs, p, o);
    }
    if q :| q in hs && InBlock(p, o, q) {
      assert InBlock(q, hs[q], q);
    }
  }

  lemma HeadFlagged(a: Areas, z: Zone, hs: Blocks, p: nat, o: nat)
    requires Holds(a, z, hs) && Fits(z, p, o)
    ensures HeadInside(hs, p, o) <==> a.buddy[p] || exists q :: p < q < p + Pow(o) && a.buddy[q]
  {
    if HeadInside(hs, p, o) {
      var q :| q in hs && InBlock(p, o, q);
      assert a.buddy[q];
    }
    if a.buddy[p] {
      assert InBlock(p, o, p);
    }
    if q :| p < q < p + Pow(o) && a.buddy[q] {
      assert InBlock(p, o, q);
    }
  }

  lemma InHandHalf(z: Zone, hs: Blocks, p: nat, o: nat)
    requires InHand(z, hs, p, o + 1)
    ensures p + Pow(o) < z.end && o < z.maxOrder
  {
  }

  lemma InHandGood(z: Zone, hs: Blocks, p: nat, o: nat)
    requires InHand(z, hs, p, o)
    ensures Good(z, hs) && Fits(z, p, o)
  {
  }

  lemma OrdersBelow(a: Areas, z: Zone, hs: Blocks)
    requires Holds(a, z, hs)
    ensures forall p :: p in hs ==> hs[p] < z.maxOrder
  {
  }

  lemma FirstOfList(a: Areas, z: Zone, hs: Blocks, o: nat)
    requires Holds(a, z, hs) && Good(z, hs) && o < z.maxOrder && a.free[o] != []
    ensures a.free[o][0] in hs && hs[a.free[o][0]] == o && Fits(z, a.free[o][0], o)
  {
    assert ListHolds(a.free[o], hs, o);
    assert a.free[o][0] in a.free[o];
  }

  lemma AllEmpty(a: Areas, z: Zone, hs: Blocks, order: nat)
    requires Holds(a, z, hs) && forall o :: order <= o < z.maxOrder ==> a.free[o] == []
    ensures forall p :: p in hs ==> hs[p] < order
  {
    forall p | p in hs ensures hs[p] < order {
      assert ListHolds(a.free[hs[p]], hs, hs[p]);
    }
  }

  ghost predicate FreeUpTo(hs: Blocks, start: nat, pfn: nat) {
    forall x: nat :: IsFree(hs, x) <==> start <= x < pfn
  }

  lemma NoneFree(hs: Blocks, pfn: nat)
    requires hs == map[]
    ensures FreeUpTo(hs, pfn, pfn)
  {
  }

  lemma NextTaken(z: Zone, hs: Blocks, pfn: nat, o: nat)
    requires FreeUpTo(hs, z.start, pfn) && z.start <= pfn && pfn + Pow(o) <= z.end && o < z.maxOrder && Aligned(pfn, o)
    ensures Fits(z, pfn, o) && Taken(hs, pfn, o) && !HeadInside(hs, pfn, o)
  {
    forall q | q in hs ensures !InBlock(pfn, o, q) {
      assert InBlock(q, hs[q], q);
      assert IsFree(hs, q);
    }
  }

  lemma FreeFurther(was: Blocks, hs: Blocks, start: nat, pfn: nat, o: nat)
    requires FreeUpTo(was, start, pfn) && Frees(was, pfn, o, hs) && start <= pfn
    ensures FreeUpTo(hs, start, pfn + Pow(o))
  {
    hide IsFree;
  }

  class FpgaZone {
    const z: Zone
    var a: Areas
    ghost var blocks: Blocks

    ghost predicate Valid()
      reads this
    {
      z.Ok() && Holds(a, z, blocks) && Good(z, blocks)
    }

    /** All managed pages are free at first. */
    constructor (z: Zone)
      requires z.Ok()
      ensures this.z == z && Valid() && forall x: nat :: IsFree(blocks, x) <==> z.start <= x < z.end
    {
      this.z := z;
      a := Areas(seq(z.maxOrder, _ => []), seq(z.maxOrder, _ => 0), seq(z.end, _ => false), seq(z.end, _ => 0));
      blocks := map[];
      new;
      InitialFreePages();
    }

    method InitialFreePages()
      requires Valid() && blocks == map[]
      modifies this
      ensures Valid() && forall x: nat :: IsFree(blocks, x) <==> z.start <= x < z.end
    {
      hide Good, Holds, Taken, HeadInside, Aligned, InBlock;
      var pfn := z.start;
      NoneFree(blocks, pfn);
      while pfn < z.end
        invariant Valid() && z.start <= pfn <= z.end && FreeUpTo(blocks, z.start, pfn)
      {
        var order: nat := if z.maxOrder - 1 < Ffs(pfn) then z.maxOrder - 1 else Ffs(pfn);
        AlignedDown(pfn, Ffs(pfn), order);
        while pfn + Pow(order) > z.end
          invariant order < z.maxOrder && Aligned(pfn, order) && Valid() && FreeUpTo(blocks, z.start, pfn)
        {
          AlignedDown(pfn, order, order - 1);
          order := order - 1;
        }
        NextTaken(z, blocks, pfn, order);
        ghost var was := blocks;
        var ok := FreePages(pfn, order);
        FreeFurther(was, blocks, z.start, pfn, order);
        pfn := pfn + Pow(order);
      }
    }

    /** Returns a block, merging it with its buddy as long as that is free too. A block
        inside a larger free block ends up on a list a second time. */
    method FreeOnePage(pfn: nat, order: nat)
      requires Valid() && Fits(z, pfn, order) && (InHand(z, blocks, pfn, order) || Buried(blocks, pfn, order))
      modifies this
      ensures !Buried(old(blocks), pfn, order) ==> Valid() && Frees(old(blocks), pfn, order, blocks)
      ensures Holds(a, z, blocks)
      ensures Buried(old(blocks), pfn, order) ==> blocks == old(blocks)[pfn := order] && !Good(z, blocks)
    {
      hide Holds, InHand, Good, SamePages, Frees, Low, Flip, BitAnd, Buried, Fits;
      ghost var was, buried := blocks, Buried(blocks, pfn, order);
      var page, idx, o := pfn, Low(pfn, z.maxOrder), order;
      FitsBound(z, pfn, order);
      if buried {
        BuriedNotTaken(z, was, pfn, order);
      } else {
        SameStart(z, was, pfn, order);
      }
      while o < z.maxOrder - 1
        invariant Holds(a, z, blocks) && Fits(z, page, o) && idx == Low(page, z.maxOrder) && o < z.maxOrder
        invariant buried ==> page == pfn && o == order && blocks == was
        invariant !buried ==> InHand(z, blocks, page, o) && SamePages(was, pfn, order, blocks, page, o)
        decreases z.maxOrder - o
      {
        BuddyAt(a, z, blocks, page, o);
        if buried {
          BuriedNoBuddy(z, was, pfn, order);
        }
        var buddyIdx := Flip(idx, o);
        var buddy: nat := page + buddyIdx - idx;
        if !(a.buddy[buddy] && a.order[buddy] == o) {
          break;
        }
        MergeBuddy(z, blocks, page, o);
        DelHolds(a, z, blocks, buddy);
        SameTrans(was, pfn, order, blocks, page, o, blocks - {buddy}, Lower(page, o), o + 1);
        a, blocks := Del(a, buddy, o), blocks - {buddy};
        var combined := BitAnd(buddyIdx, idx);
        page, idx, o := page + combined - idx, combined, o + 1;
        InHandGood(z, blocks, page, o);
      }
      FitsBound(z, page, o);
      HoldsSized(a, z, blocks);
      if !buried {
        PutBack(z, blocks, page, o);
        SameThenFrees(was, pfn, order, blocks, page, o, blocks[page := o]);
      }
      AddHolds(a, z, blocks, page, o);
      a, blocks := Add(a, page, o), blocks[page := o];
    }

    /** Whether a page of the block carries the mark of a free block's first page. */
    method FreePagesPrepare(pfn: nat, order: nat) returns (bad: bool)
      requires Valid() && Fits(z, pfn, order)
      ensures bad <==> HeadInside(blocks, pfn, order)
    {
      hide Good, ListHolds;
      var n := 0;
      for i := 1 to Pow(order)
        invariant n >= 0 && (n > 0 <==> exists q :: pfn < q < pfn + i && a.buddy[q])
      {
        if a.buddy[pfn + i] {
          n := n + 1;
        }
      }
      if a.buddy[pfn] {
        n := n + 1;
      }
      HeadFlagged(a, z, blocks, pfn, order);
      bad := n > 0;
    }

    /** Frees a block, unless a page in it starts a free block. The allocator stays
        valid exactly when that check sees every free of a free page. */
    method FreePages(pfn: nat, order: nat) returns (ok: bool)
      requires Valid() && Fits(z, pfn, order)
      modifies this
      ensures ok == !HeadInside(old(blocks), pfn, order)
      ensures !ok ==> a == old(a) && blocks == old(blocks)
      ensures Taken(old(blocks), pfn, order) ==> ok && Frees(old(blocks), pfn, order, blocks)
      ensures Holds(a, z, blocks)
      ensures Valid() <==> Taken(old(blocks), pfn, order) || HeadInside(old(blocks), pfn, order)
      ensures ok && !Taken(old(blocks), pfn, order) ==> blocks == old(blocks)[pfn := order]
    {
      hide Good, Holds, Frees, Taken, HeadInside, InHand, Fits, Buried;
      var bad := FreePagesPrepare(pfn, order);
      SeenOrBuried(z, blocks, pfn, order);
      if bad {
        return false;
      }
      TakenIsApart(z, blocks, pfn, order);
      FreeOnePage(pfn, order);
      ok := true;
    }

    /** Halves a block in hand until it has order low; the upper halves become free. */
    method Expand(page: nat, low: nat, high: nat)
      requires z.Ok() && Holds(a, z, blocks) && InHand(z, blocks, page, high) && low <= high
      modifies this
      ensures Holds(a, z, blocks) && InHand(z, blocks, page, low)
        && SamePages(old(blocks), page, high, blocks, page, low)
    {
      hide Holds, InHand, Good, SamePages;
      ghost var was := blocks;
      var h, size := high, Pow(high);
      SameStart(z, was, page, high);
      while h > low
        invariant low <= h <= high && size == Pow(h)
        invariant Holds(a, z, blocks) && InHand(z, blocks, page, h) && SamePages(was, page, high, blocks, page, h)
      {
        h := h - 1;
        size := size / 2;
        InHandHalf(z, blocks, page, h);
        SplitBlock(z, blocks, page, h);
        HoldsSized(a, z, blocks);
        AddHolds(a, z, blocks, page + size, h);
        SameTrans(was, page, high, blocks, page, h + 1, blocks[page + size := h], page, h);
        a, blocks := Add(a, page + size, h), blocks[page + size := h];
      }
    }

    /** Hands out a block of the given order, from the smallest free block that is
        large enough. */
    method AllocPage(order: nat) returns (r: Option<nat>)
      requires Valid()
      modifies this
      ensures Valid()
      ensures r.None? ==> a == old(a) && blocks == old(blocks)
      ensures r.None? <==> forall p :: p in old(blocks) ==> old(blocks)[p] < order
      ensures r.Some? ==> Fits(z, r.value, order) && Takes(old(blocks), r.value, order, blocks)
    {
      hide Good, ListHolds, InHand, Takes, SamePages;
      if order >= z.maxOrder {
        OrdersBelow(a, z, blocks);
        return None;
      }
      ghost var was := blocks;
      var cur := order;
      while cur < z.maxOrder
        invariant order <= cur <= z.maxOrder && a == old(a) && blocks == was
        invariant forall o :: order <= o < cur ==> a.free[o] == []
      {
        if a.free[cur] != [] {
          var page := a.free[cur][0];
          FirstOfList(a, z, blocks, cur);
          TakeBlock(z, blocks, page);
          DelHolds(a, z, blocks, page);
          a, blocks := Del(a, page, cur), blocks - {page};
          Expand(page, order, cur);
          TakeThenSame(z, was, page, cur, was - {page}, order, blocks);
          InHandGood(z, blocks, page, order);
          return Some(page);
        }
        cur := cur + 1;
      }
      AllEmpty(a, z, blocks, order);
      r := None;
    }

    /** The same as a page number; 0, which no managed page has, tells of failure. */
    method AllocPfn(order: nat) returns (pfn: nat)
      requires Valid()
      modifies this
      ensures Valid() && (pfn == 0 ==> blocks == old(blocks))
      ensures pfn == 0 <==> forall p :: p in old(blocks) ==> old(blocks)[p] < order
      ensures pfn != 0 ==> Fits(z, pfn, order) && Takes(old(blocks), pfn, order, blocks)
    {
      hide Good, Holds, Takes;
      var r := AllocPage(order);
      pfn := if r.Some? then r.value else 0;
    }
  }
}
