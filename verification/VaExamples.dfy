/** Inputs on which allocating and freeing virtual pages does not do what it should. */
module VaExamples {
  import opened PageTypes
  import opened PageTable
  import opened PageTableOps
  import opened VmaList
  import opened VmaSpec
  import opened GapSearch
  import opened VRegions
  import opened VaSpec
  import opened VaFlags
  import opened VaMarks
  import opened VaAlloc
  import opened VaFree

  /** The second vRegion. */
  const LO: nat := VREGION_SIZE
  const HI: nat := 2 * VREGION_SIZE

  // ---- a mark that became more than a mark

  /** The last n pages are marked. */
  function TopMarked(n: nat): seq<Area>
    requires n * PAGE_SIZE <= HI
  {
    [Area(HI - n * PAGE_SIZE, HI, CONFLICT)]
  }

  /** In an empty vRegion whose last page has no slot, a page allocated directly below
      the mark becomes part of it. */
  lemma MarkedNeighbour(flags: nat)
    requires flags != CONFLICT
    ensures Canonical(TopMarked(1), LO, HI) && TopMarked(1) == Added([], 0, HI - PAGE_SIZE, HI, CONFLICT)
    ensures Added(TopMarked(1), 0, HI - 2 * PAGE_SIZE, HI - PAGE_SIZE, flags) == TopMarked(2)
    ensures !KeepsFlags(TopMarked(1), TopMarked(2), HI - 2 * PAGE_SIZE, HI - PAGE_SIZE, flags)
  {
    MergeKeepsFlags(TopMarked(1), LO, HI, 0, HI - 2 * PAGE_SIZE, HI - PAGE_SIZE, flags);
  }

  /** Tables in which k slots of the bucket of page va are taken by processes 2, 3 and so on. */
  lemma {:induction false} CrowdedBucket(va: nat, k: nat) returns (t: Tables)
    requires PageAddr(va) && k <= NR_SLOTS
    ensures TablesOk(t) && t.nrFree[BucketIndex(va)] == NR_SLOTS - k
    ensures forall i :: 0 <= i < NR_PTES && t.shadow[i].used ==>
              BucketIndex(va) * NR_SLOTS <= i < BucketIndex(va) * NR_SLOTS + k
    ensures forall g :: HasTag(t.shadow, g) ==> OthersTag(va, k, g)
  {
    var b := BucketIndex(va);
    if k == 0 {
      t := EmptyTables();
      EmptyOk();
    } else {
      var t0 := CrowdedBucket(va, k - 1);
      var i, tag := b * NR_SLOTS + k - 1, GenerateTag(k + 1, va);
      NewTag(va, k, t0.shadow);
      TagParts(k + 1, va);
      InBucket(b, i);
      FillOk(t0, i, tag, false, 0);
      t := Fill(t0, i, tag, false, 0);
      forall g | HasTag(t.shadow, g) ensures OthersTag(va, k, g) {
        assert OthersTag(va, k - 1, g) ==> OthersTag(va, k, g);
        assert tag == GenerateTag(k + 1, va);
      }
    }
  }

  ghost predicate OthersTag(va: nat, k: nat, g: nat) { exists p :: 2 <= p < 2 + k && g == GenerateTag(p, va) }

  lemma NewTag(va: nat, k: nat, s: seq<Pte>)
    requires PageAddr(va) && 0 < k <= NR_SLOTS && forall g :: HasTag(s, g) ==> OthersTag(va, k - 1, g)
    ensures !HasTag(s, GenerateTag(k + 1, va))
  {
    hide HasTag, GenerateTag;
    if HasTag(s, GenerateTag(k + 1, va)) {
      var p :| 2 <= p < 2 + (k - 1) && GenerateTag(k + 1, va) == GenerateTag(p, va);
      TagInjective(k + 1, va, p, va);
    }
  }

  lemma NotOthers(va: nat, k: nat, y: nat)
    requires PageAddr(va) && PageAddr(y) && k <= NR_SLOTS
    ensures !OthersTag(va, k, GenerateTag(1, y))
  {
    hide GenerateTag;
    if p :| 2 <= p < 2 + k && GenerateTag(1, y) == GenerateTag(p, va) {
      TagInjective(1, y, p, va);
    }
  }

  /** The last page's slots are taken by 16 other processes, so process 1 has it on the
      conflict list and marked. The page below is mapped and part of the mark; its entry
      outlives it. */
  lemma MarkedEntry() returns (t: Tables)
    ensures TablesOk(t) && t.nrFree[BucketIndex(HI - PAGE_SIZE)] == 0
    ensures Conflict(1, HI - PAGE_SIZE) in t.conflicts[BucketIndex(HI - PAGE_SIZE)]
    ensures IsMapped(t, 1, HI - 2 * PAGE_SIZE) && NoStray(t, 1, TopMarked(2), LO, HI)
    ensures !MarksClean(t, 1, TopMarked(2), HI - 2 * PAGE_SIZE, HI - PAGE_SIZE, LO, HI)
  {
    var top, va := HI - PAGE_SIZE, HI - 2 * PAGE_SIZE;
    var b, c := BucketIndex(top), BucketIndex(va);
    var t0 := CrowdedBucket(top, NR_SLOTS);
    forall y: nat | PageAddr(y) ensures !IsMapped(t0, 1, y) {
      NotOthers(top, NR_SLOTS, y);
    }
    PutConflictOk(t0, b, Conflict(1, top));
    var t1 := PutConflict(t0, b, Conflict(1, top));
    var i, tag := c * NR_SLOTS, GenerateTag(1, va);
    TagParts(1, va);
    InBucket(c, i);
    FillOk(t1, i, tag, false, 0);
    t := Fill(t1, i, tag, false, 0);
    assert TopMarked(2)[0].start <= va < TopMarked(2)[0].end;
    assert Flagged(TopMarked(2), va, CONFLICT);
    hide TablesOk, HasTag, GenerateTag;
    forall y: nat | LO <= y < HI && PageAddr(y) && !Covers(TopMarked(2), y) ensures !IsMapped(t, 1, y) {
      OtherTag(y, va);
    }
  }

  lemma OtherTag(y: nat, va: nat)
    requires PageAddr(va) && PageAddr(y) && va != y
    ensures GenerateTag(1, y) != GenerateTag(1, va)
  {
    hide GenerateTag;
    if GenerateTag(1, y) == GenerateTag(1, va) {
      TagInjective(1, y, 1, va);
    }
  }

  // ---- a page between two areas

  /** Areas with flags 2 but for the last page but one. */
  const OneHole: seq<Area> := [Area(LO, HI - 2 * PAGE_SIZE, 2), Area(HI - PAGE_SIZE, HI, 2)]

  /** The hole, allocated or marked, joins the areas: neither freeing it nor taking the
      mark off is accepted any more. */
  lemma JoinedInside(flags: nat)
    ensures Canonical(OneHole, LO, HI) && FreeRange(OneHole, HI - 2 * PAGE_SIZE, PAGE_SIZE)
    ensures Covers(OneHole, HI - 2 * PAGE_SIZE - 1) && HI - PAGE_SIZE < HI
    ensures Added(OneHole, 1, HI - 2 * PAGE_SIZE, HI - PAGE_SIZE, flags) == [Area(LO, HI, 2)]
    ensures Inside([Area(LO, HI, 2)], HI - 2 * PAGE_SIZE, HI - PAGE_SIZE)
  {
    var a := Area(LO, HI, 2);
    assert OneHole[0].start <= HI - 2 * PAGE_SIZE - 1 < OneHole[0].end;
    assert [a][0].start < HI - 2 * PAGE_SIZE && HI - PAGE_SIZE < [a][0].end;
  }

  // ---- marks that take an area over

  /** No bucket has a slot. */
  const AllFull: seq<nat> := seq(NR_BUCKETS, _ => 0)

  lemma NoneSuitable(rs: seq<Area>, q: Request)
    requires q.length > 0
    ensures Limit(rs, AllFull, q, q.low - q.length)
  {
    forall x ensures !Suits(rs, AllFull, x, q) {
      assert x >= 0 ==> FullPage(AllFull, PageOf(x));
    }
  }

  /** An area with flags 2 between which and a mark one page is free. */
  const MarkBelow: seq<Area> := [Area(HI - 3 * PAGE_SIZE, HI - 2 * PAGE_SIZE, CONFLICT), Area(HI - PAGE_SIZE, HI, 2)]

  /** A request of one page that finds no slot marks the page, and the area is a mark. */
  lemma MarkTakesArea()
    ensures Canonical(MarkBelow, LO, HI)
    ensures Added(MarkBelow, 1, HI - 2 * PAGE_SIZE, HI - PAGE_SIZE, CONFLICT) == TopMarked(3)
    ensures Flagged(MarkBelow, HI - 1, 2) && !Flagged(TopMarked(3), HI - 1, 2)
    ensures Limit(MarkBelow, AllFull, Request(PAGE_SIZE, LO, HI), LO - PAGE_SIZE)
    ensures !AllKeep(MarkBelow, AllFull, Request(PAGE_SIZE, LO, HI), LO - PAGE_SIZE)
  {
    var q, a := Request(PAGE_SIZE, LO, HI), LO - PAGE_SIZE;
    NoneSuitable(MarkBelow, q);
    assert MarkBelow[1].start <= HI - 1 < MarkBelow[1].end;
    forall y | MarkBelow[0].end <= y < MarkBelow[1].start ensures FullPage(AllFull, PageOf(y)) {
    }
    assert Closes(MarkBelow, AllFull, q, a, 1);
    assert !AreaKeeps(MarkBelow, AllFull, q, a, 1);
  }

  /** An area with flags 2 and nothing else. */
  const TopArea: seq<Area> := [Area(HI - PAGE_SIZE, HI, 2)]

  /** A request of two pages marks both pages below the area, and the area is a mark. */
  lemma PairTakesArea()
    ensures Canonical(TopArea, LO, HI)
    ensures Added(Added(TopArea, 0, HI - 3 * PAGE_SIZE, HI - 2 * PAGE_SIZE, CONFLICT),
                  1, HI - 2 * PAGE_SIZE, HI - PAGE_SIZE, CONFLICT) == TopMarked(3)
    ensures Flagged(TopArea, HI - 1, 2) && !Flagged(TopMarked(3), HI - 1, 2)
    ensures Limit(TopArea, AllFull, Request(2 * PAGE_SIZE, LO, HI), LO - 2 * PAGE_SIZE)
    ensures !AllKeep(TopArea, AllFull, Request(2 * PAGE_SIZE, LO, HI), LO - 2 * PAGE_SIZE)
  {
    var q, a := Request(2 * PAGE_SIZE, LO, HI), LO - 2 * PAGE_SIZE;
    NoneSuitable(TopArea, q);
    var m := Area(HI - 3 * PAGE_SIZE, HI - 2 * PAGE_SIZE, CONFLICT);
    assert Added(TopArea, 0, m.start, m.end, CONFLICT) == [m] + TopArea;
    assert TopArea[0].start <= HI - 1 < TopArea[0].end;
    assert FullPage(AllFull, HI - 2 * PAGE_SIZE) && FullPage(AllFull, HI - 3 * PAGE_SIZE);
    assert Feasible(TopArea, TopArea[0].start - q.length, q);
    assert TopFull(TopArea, AllFull, q, a, 0);
    assert !AreaKeeps(TopArea, AllFull, q, a, 0);
  }
}
