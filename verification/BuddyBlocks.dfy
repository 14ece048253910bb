/** Free blocks of a buddy allocator: pages, alignment and merging. */
module BuddyBlocks {
  import opened Pow2

  /** First page of each free block, with the block's order. */
  type Blocks = map<nat, nat>

  /** The managed range and the number of orders. */
  datatype Zone = Zone(maxOrder: nat, start: nat, end: nat) {
    ghost predicate Ok() {
      && maxOrder >= 1 && 0 < start <= end
      && Aligned(start, maxOrder - 1) && Aligned(end, maxOrder - 1)
    }
  }

  predicate InBlock(p: nat, o: nat, x: nat) { p <= x < p + Pow(o) }

  /** Page x is in some free block. */
  ghost predicate IsFree(hs: Blocks, x: nat) {
    exists p :: p in hs && InBlock(p, hs[p], x)
  }

  /** No page of the block is free. */
  ghost predicate Taken(hs: Blocks, p: nat, o: nat) {
    forall x :: InBlock(p, o, x) ==> !IsFree(hs, x)
  }

  /** A block that can exist at all. */
  ghost predicate Fits(z: Zone, p: nat, o: nat) {
    o < z.maxOrder && Aligned(p, o) && z.start <= p && p + Pow(o) <= z.end
  }

  ghost predicate Apart(p: nat, o: nat, q: nat, k: nat) { p + Pow(o) <= q || q + Pow(k) <= p }

  /** Free blocks are aligned, in range and disjoint, and none lies beside a free
      buddy of its order that it could be merged with. */
  ghost predicate Good(z: Zone, hs: Blocks) {
    && (forall p :: p in hs ==> Fits(z, p, hs[p]))
    && (forall p, q :: p in hs && q in hs && p != q ==> Apart(p, hs[p], q, hs[q]))
    && (forall p :: p in hs && hs[p] + 1 < z.maxOrder ==> NoBuddy(hs, p, hs[p]))
  }

  ghost predicate NoBuddy(hs: Blocks, p: nat, o: nat) {
    !(Flip(p, o) in hs && hs[Flip(p, o)] == o)
  }

  /** A block outside the free ones, about to be returned or handed out. */
  ghost predicate InHand(z: Zone, hs: Blocks, p: nat, o: nat) {
    Good(z, hs) && Fits(z, p, o) && forall q :: q in hs ==> Apart(p, o, q, hs[q])
  }

  /** Free pages and the block in hand together are the same pages on both sides. */
  ghost predicate SamePages(hs: Blocks, p: nat, o: nat, hs': Blocks, p': nat, o': nat) {
    forall x :: IsFree(hs, x) || InBlock(p, o, x) <==> IsFree(hs', x) || InBlock(p', o', x)
  }

  /** Exactly the pages of a block became free. */
  ghost predicate Frees(hs: Blocks, p: nat, o: nat, hs': Blocks) {
    forall x :: IsFree(hs', x) <==> IsFree(hs, x) || InBlock(p, o, x)
  }

  /** Exactly the pages of a block, all free before, are free no longer. */
  ghost predicate Takes(hs: Blocks, p: nat, o: nat, hs': Blocks) {
    && (forall x :: InBlock(p, o, x) ==> IsFree(hs, x))
    && (forall x :: IsFree(hs', x) <==> IsFree(hs, x) && !InBlock(p, o, x))
  }

  lemma TakenIsApart(z: Zone, hs: Blocks, p: nat, o: nat)
    requires Good(z, hs) && Fits(z, p, o)
    ensures Taken(hs, p, o) <==> InHand(z, hs, p, o)
  {
    if Taken(hs, p, o) {
      forall q | q in hs ensures Apart(p, o, q, hs[q]) {
        var x := if p < q then q else p;
        assert InBlock(q, hs[q], x) ==> IsFree(hs, x);
        assert InBlock(p, o, x) ==> !IsFree(hs, x);
      }
    }
  }

  lemma HeadsElsewhere(z: Zone, hs: Blocks, p: nat, o: nat)
    requires InHand(z, hs, p, o)
    ensures p !in hs
  {
    forall q | q in hs ensures q != p {
      assert Apart(p, o, q, hs[q]);
    }
  }

  /** Returning a block whose buddy is not free. */
  lemma PutBack(z: Zone, hs: Blocks, p: nat, o: nat)
    requires InHand(z, hs, p, o) && (o + 1 < z.maxOrder ==> NoBuddy(hs, p, o))
    ensures p !in hs && Good(z, hs[p := o]) && Frees(hs, p, o, hs[p := o])
  {
    var hs' := hs[p := o];
    HeadsElsewhere(z, hs, p, o);
    forall q | q in hs' && hs'[q] + 1 < z.maxOrder ensures NoBuddy(hs', q, hs'[q]) {
      BuddyFacts(q, hs'[q]);
    }
    forall x ensures IsFree(hs', x) <==> IsFree(hs, x) || InBlock(p, o, x) {
      if IsFree(hs, x) {
        var q :| q in hs && InBlock(q, hs[q], x);
        assert q in hs' && InBlock(q, hs'[q], x);
      }
      if InBlock(p, o, x) {
        assert p in hs' && InBlock(p, hs'[p], x);
      }
    }
  }

  /** Taking a free block in hand. */
  lemma TakeBlock(z: Zone, hs: Blocks, p: nat)
    requires Good(z, hs) && p in hs
    ensures InHand(z, hs - {p}, p, hs[p]) && Takes(hs, p, hs[p], hs - {p})
  {
    var hs' := hs - {p};
    forall x ensures IsFree(hs', x) <==> IsFree(hs, x) && !InBlock(p, hs[p], x) {
      if IsFree(hs, x) && !InBlock(p, hs[p], x) {
        var q :| q in hs && InBlock(q, hs[q], x);
        assert q in hs' && InBlock(q, hs'[q], x);
      }
      if IsFree(hs', x) {
        var q :| q in hs' && InBlock(q, hs'[q], x);
        assert Apart(p, hs[p], q, hs[q]);
      }
    }
  }

  /** A free buddy joins the block in hand. */
  lemma MergeBuddy(z: Zone, hs: Blocks, p: nat, o: nat)
    requires z.Ok() && InHand(z, hs, p, o) && o + 1 < z.maxOrder && !NoBuddy(hs, p, o)
    ensures InHand(z, hs - {Flip(p, o)}, Lower(p, o), o + 1)
    ensures SamePages(hs, p, o, hs - {Flip(p, o)}, Lower(p, o), o + 1)
  {
    BuddyFacts(p, o);
    TakeBlock(z, hs, Flip(p, o));
  }

  /** The buddy of a block that can be merged is in the zone. */
  lemma BuddyInZone(z: Zone, p: nat, o: nat)
    requires z.Ok() && Fits(z, p, o) && o + 1 < z.maxOrder
    ensures z.start <= Flip(p, o) < z.end && Fits(z, Lower(p, o), o + 1)
  {
    BuddyFacts(p, o);
    AlignedDown(z.start, z.maxOrder - 1, o + 1);
    AlignedDown(z.end, z.maxOrder - 1, o + 1);
    if Lower(p, o) < z.start {
      AlignedBound(Lower(p, o), z.start, o + 1);
    }
    AlignedBound(Lower(p, o), z.end, o + 1);
  }

  /** Keeping the lower half of a block in hand and freeing the upper. */
  lemma SplitBlock(z: Zone, hs: Blocks, p: nat, o: nat)
    requires InHand(z, hs, p, o + 1)
    ensures p + Pow(o) !in hs && InHand(z, hs[p + Pow(o) := o], p, o)
    ensures SamePages(hs, p, o + 1, hs[p + Pow(o) := o], p, o)
  {
    UpperHalf(p, o);
    HeadsElsewhere(z, hs, p, o + 1);
    PutBack(z, hs, p + Pow(o), o);
  }

  lemma SameThenFrees(hs: Blocks, p: nat, o: nat, hs': Blocks, p': nat, o': nat, ts: Blocks)
    requires SamePages(hs, p, o, hs', p', o') && Frees(hs', p', o', ts)
    ensures Frees(hs, p, o, ts)
  {
    hide IsFree, InBlock;
  }

  lemma SameTrans(hs: Blocks, p: nat, o: nat, hs': Blocks, p': nat, o': nat, ts: Blocks, q: nat, k: nat)
    requires SamePages(hs, p, o, hs', p', o') && SamePages(hs', p', o', ts, q, k)
    ensures SamePages(hs, p, o, ts, q, k)
  {
    hide IsFree, InBlock;
  }

  /** Handing out a block that was cut from a free one. */
  lemma TakeThenSame(z: Zone, hs: Blocks, p: nat, k: nat, hs': Blocks, o: nat, ts: Blocks)
    requires Takes(hs, p, k, hs') && SamePages(hs', p, k, ts, p, o) && InHand(z, ts, p, o) && Fits(z, p, k) && o <= k
    ensures Takes(hs, p, o, ts)
  {
    TakenIsApart(z, ts, p, o);
    PowAligned(k, o);
    forall x ensures InBlock(p, o, x) ==> InBlock(p, k, x) {
    }
  }

  /** Pages of a block other than its first can be freed a second time unnoticed,
      and only those. */
  ghost predicate HeadInside(hs: Blocks, p: nat, o: nat) {
    exists q :: q in hs && InBlock(p, o, q)
  }

  /** The block lies in a larger free block, behind its first page. */
  ghost predicate Buried(hs: Blocks, p: nat, o: nat) {
    exists q :: q in hs && q < p && p + Pow(o) <= q + Pow(hs[q])
  }

  lemma DoubleFreeSeen(z: Zone, hs: Blocks, p: nat, o: nat)
    requires Good(z, hs) && Fits(z, p, o) && !Taken(hs, p, o)
    ensures HeadInside(hs, p, o) <==> !Buried(hs, p, o)
  {
    var x :| InBlock(p, o, x) && IsFree(hs, x);
    var q :| q in hs && InBlock(q, hs[q], x);
    if hs[q] <= o {
      Nested(p, o, q, hs[q]);
      assert InBlock(p, o, q);
    } else {
      Nested(q, hs[q], p, o);
    }
    if HeadInside(hs, p, o) {
      var h :| h in hs && InBlock(p, o, h);
      forall r | r in hs && r < p ensures !(p + Pow(o) <= r + Pow(hs[r])) {
        assert Apart(h, hs[h], r, hs[r]);
      }
    }
  }

  lemma BuriedNotTaken(z: Zone, hs: Blocks, p: nat, o: nat)
    requires Good(z, hs) && Fits(z, p, o) && Buried(hs, p, o)
    ensures !Taken(hs, p, o) && p !in hs && !Good(z, hs[p := o])
  {
    var q :| q in hs && q < p && p + Pow(o) <= q + Pow(hs[q]);
    assert InBlock(q, hs[q], p) && InBlock(p, o, p);
    if p in hs {
      HeadOfBlock(z, hs, q, p);
    }
    var ts := hs[p := o];
    assert p in ts && q in ts && ts[p] == o && ts[q] == hs[q] && p != q && !Apart(p, ts[p], q, ts[q]);
  }

  /** Inside a larger free block there is no buddy to merge with. */
  lemma BuriedNoBuddy(z: Zone, hs: Blocks, p: nat, o: nat)
    requires Good(z, hs) && Fits(z, p, o) && Buried(hs, p, o) && o + 1 < z.maxOrder
    ensures NoBuddy(hs, p, o)
  {
    hide Flip;
    var q :| q in hs && q < p && p + Pow(o) <= q + Pow(hs[q]);
    var b := Flip(p, o);
    BuddyFacts(p, o);
    LargerBlock(z, p, o, q, hs[q]);
    Nested(q, hs[q], Lower(p, o), o + 1);
    if b in hs && b != q {
      HeadOfBlock(z, hs, q, b);
    }
  }

  lemma HeadOfBlock(z: Zone, hs: Blocks, q: nat, b: nat)
    requires Good(z, hs) && q in hs && b in hs && b != q
    ensures !InBlock(q, hs[q], b)
  {
    assert Apart(b, hs[b], q, hs[q]);
  }

  lemma LargerBlock(z: Zone, p: nat, o: nat, q: nat, k: nat)
    requires Aligned(p, o) && Aligned(q, k) && q < p && p + Pow(o) <= q + Pow(k)
    ensures o < k && Lower(p, o) < q + Pow(k) && q < Lower(p, o) + Pow(o + 1)
  {
    if k <= o {
      AlignedDown(p, o, k);
      AlignedBound(q, p, k);
    }
    BuddyFacts(p, o);
  }

  /** With blocks of a single page every free of a free page is noticed. */
  lemma SinglePagesSeen(z: Zone, hs: Blocks, p: nat, o: nat)
    requires Good(z, hs) && Fits(z, p, o) && z.maxOrder == 1
    ensures Taken(hs, p, o) <==> !HeadInside(hs, p, o)
  {
    forall q | q in hs ensures hs[q] == 0 {
      assert Fits(z, q, hs[q]);
    }
    if !Taken(hs, p, o) {
      DoubleFreeSeen(z, hs, p, o);
    }
    if q :| q in hs && InBlock(p, o, q) {
      assert InBlock(q, hs[q], q);
    }
  }

  /** With two orders it need not be: page 3 freed while 2 and 3 are one free block. */
  lemma UnseenDoubleFree()
    ensures var z, hs := Zone(2, 2, 4), map[2 := 1];
            z.Ok() && Good(z, hs) && Fits(z, 3, 0) && !Taken(hs, 3, 0) && !HeadInside(hs, 3, 0)
  {
    var hs: Blocks := map[2 := 1];
    assert Pow(1) == 2 && Pow(0) == 1;
    assert Aligned(2, 1) && Aligned(4, 1) && Aligned(3, 0);
    assert InBlock(2, hs[2], 3) && InBlock(3, 0, 3);
  }

  // ---- what merging is for

  /** Every aligned run of free pages lies in one free block. */
  lemma {:induction false} RunInBlock(z: Zone, hs: Blocks, x: nat, o: nat) returns (p: nat)
    requires Good(z, hs) && o < z.maxOrder && Aligned(x, o) && forall y :: InBlock(x, o, y) ==> IsFree(hs, y)
    ensures p in hs && hs[p] >= o && InBlock(p, hs[p], x)
    decreases o
  {
    if o == 0 {
      assert InBlock(x, 0, x);
      p :| p in hs && InBlock(p, hs[p], x);
    } else {
      UpperHalf(x, o - 1);
      p := RunInBlock(z, hs, x, o - 1);
      var q := RunInBlock(z, hs, x + Pow(o - 1), o - 1);
      if hs[p] < o {
        Nested(x, o - 1, p, o - 1);
        if hs[q] >= o {
          AlignedDown(q, hs[q], o);
          Nested(q, hs[q], x, o);
          p := q;
        } else {
          assert false;
        }
      }
    }
  }

  /** All pages of an aligned run are free. */
  ghost predicate FreeRun(hs: Blocks, x: nat, o: nat) {
    Aligned(x, o) && forall y :: InBlock(x, o, y) ==> IsFree(hs, y)
  }

  /** So a block of an order is free just when an aligned run of that many pages is. */
  lemma FreeBlockIffRun(z: Zone, hs: Blocks, o: nat)
    requires Good(z, hs) && o < z.maxOrder
    ensures (exists p :: p in hs && hs[p] >= o) <==> exists x :: FreeRun(hs, x, o)
  {
    if p :| p in hs && hs[p] >= o {
      AlignedDown(p, hs[p], o);
      PowAligned(hs[p], o);
      forall y | InBlock(p, o, y) ensures IsFree(hs, y) {
        assert InBlock(p, hs[p], y);
      }
      assert FreeRun(hs, p, o);
    }
    if x :| FreeRun(hs, x, o) {
      var p := RunInBlock(z, hs, x, o);
    }
  }
}
