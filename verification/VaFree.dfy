/** Freeing virtual pages, what it leaves behind, and what it undoes. */
module VaFree {
  import opened Options
  import Buddy
  import opened BuddyBlocks
  import opened PageTypes
  import opened PageTable
  import opened PageTableOps
  import opened VmaList
  import VmaIndex
  import opened VmaSpec
  import opened GapSearch
  import opened VRegions
  import opened VaSpec
  import opened VaFlags
  import opened VaMarks
  import opened VaAlloc

  /** No page of [start, end) in the region lies under a conflict mark and owns an entry. */
  ghost predicate MarksClean(t: Tables, pid: nat, rs: seq<Area>, start: nat, end: nat, lo: nat, hi: nat) {
    forall y: nat {:trigger Flagged(rs, y, CONFLICT)} ::
      start <= y < end && lo <= y < hi && PageAddr(y) && Flagged(rs, y, CONFLICT) ==> !IsMapped(t, pid, y)
  }

  /** y is allocated, not just marked. */
  ghost predicate IsReal(rs: seq<Area>, y: int) {
    exists f :: f != CONFLICT && Flagged(rs, y, f)
  }

  /** Allocated pages of [start, end) are no longer mapped, and nothing else changed. */
  ghost predicate UnmapsReal(t0: Tables, t: Tables, pid: nat, rs: seq<Area>, start: nat, end: nat) {
    forall q: nat, y: nat :: Key(q, y) ==>
      (IsMapped(t, q, y) <==> IsMapped(t0, q, y) && !(q == pid && start <= y < end && IsReal(rs, y)))
  }

  /** Pages of the areas ps are no longer mapped, and nothing else changed. */
  ghost predicate UnmapsAreas(t0: Tables, t: Tables, pid: nat, ps: seq<Area>) {
    forall q: nat, y: nat :: Key(q, y) ==> (IsMapped(t, q, y) <==> IsMapped(t0, q, y) && !(q == pid && Covers(ps, y)))
  }

  lemma UnmapsNone(t: Tables, pid: nat)
    requires TablesSized(t)
    ensures UnmapsAreas(t, t, pid, []) && Drained(t, t, pid, [])
  {
    DrainedSame(t, pid);
  }

  lemma UnmapsNext(t0: Tables, t: Tables, t': Tables, pid: nat, ps: seq<Area>, k: nat)
    requires k < |ps| && UnmapsAreas(t0, t, pid, ps[..k]) && UnmapsRange(t, t', pid, ps[k].start, ps[k].end)
    ensures UnmapsAreas(t0, t', pid, ps[..k + 1])
  {
    hide IsMapped;
    forall q: nat, y: nat | Key(q, y)
      ensures IsMapped(t', q, y) <==> IsMapped(t0, q, y) && !(q == pid && Covers(ps[..k + 1], y))
    {
      CoversNext(ps, k, y);
    }
  }

  lemma CoversNext(ps: seq<Area>, k: nat, y: int)
    requires k < |ps|
    ensures Covers(ps[..k + 1], y) <==> Covers(ps[..k], y) || ps[k].start <= y < ps[k].end
  {
    var qs, rs := ps[..k], ps[..k + 1];
    if i :| 0 <= i < |rs| && rs[i].start <= y < rs[i].end {
      assert i < k ==> qs[i] == rs[i];
    }
    if i :| 0 <= i < |qs| && qs[i].start <= y < qs[i].end {
      assert rs[i] == qs[i];
    }
    if ps[k].start <= y < ps[k].end {
      assert rs[k] == ps[k];
    }
  }

  /** The released areas are the allocated addresses of the range. */
  lemma ReleasedIsReal(rs: seq<Area>, ps: seq<Area>, start: int, end: int, y: int)
    requires Release(rs, ps, start, end)
    ensures Covers(ps, y) <==> start <= y < end && IsReal(rs, y)
  {
    if i :| 0 <= i < |ps| && ps[i].start <= y < ps[i].end {
      assert Flagged(ps, y, ps[i].flags);
    }
    if f :| f != CONFLICT && Flagged(rs, y, f) {
      assert Flagged(ps, y, f) ==> Covers(ps, y);
    }
  }

  lemma FreedReal(t0: Tables, t: Tables, pid: nat, rs: seq<Area>, ps: seq<Area>, start: nat, end: nat)
    requires Release(rs, ps, start, end) && UnmapsAreas(t0, t, pid, ps)
    ensures UnmapsReal(t0, t, pid, rs, start, end)
  {
    hide IsMapped, Covers, IsReal, Release;
    forall q: nat, y: nat | Key(q, y)
      ensures IsMapped(t, q, y) <==> IsMapped(t0, q, y) && !(q == pid && start <= y < end && IsReal(rs, y))
    {
      ReleasedIsReal(rs, ps, start, end, y);
    }
  }

  /** Every covered address is either allocated or marked. */
  lemma RealOrMarked(rs: seq<Area>, lo: nat, hi: nat, y: int)
    requires Sorted(rs, lo, hi)
    ensures Covers(rs, y) <==> IsReal(rs, y) || Flagged(rs, y, CONFLICT)
    ensures !(IsReal(rs, y) && Flagged(rs, y, CONFLICT))
  {
    if i :| 0 <= i < |rs| && rs[i].start <= y < rs[i].end {
      assert Flagged(rs, y, rs[i].flags);
    }
  }

  /** Freeing leaves no entry behind exactly if none of the freed pages lay under a mark. */
  lemma FreedNoStray(t0: Tables, t: Tables, pid: nat, rs: seq<Area>, qs: seq<Area>, start: nat, end: nat, lo: nat,
      hi: nat)
    requires Sorted(rs, lo, hi) && Without(rs, qs, start, end) && UnmapsReal(t0, t, pid, rs, start, end)
      && pid < NR_PIDS
    requires NoStray(t0, pid, rs, lo, hi)
    ensures NoStray(t, pid, qs, lo, hi) <==> MarksClean(t0, pid, rs, start, end, lo, hi)
  {
    hide IsMapped, IsReal, Flagged, Covers, Sorted, Without;
    forall y: nat ensures Covers(qs, y) <==> Covers(rs, y) && !(start <= y < end) {
      WithoutCovers(rs, qs, start, end, y);
    }
    forall y: nat
      ensures Covers(rs, y) <==> IsReal(rs, y) || Flagged(rs, y, CONFLICT)
      ensures !(IsReal(rs, y) && Flagged(rs, y, CONFLICT))
    {
      RealOrMarked(rs, lo, hi, y);
    }
  }

  /** Outcome of freeing [start, end): refused without effect, or done. */
  ghost predicate FreeOutcome(t0: Tables, rs: seq<Area>, t: Tables, qs: seq<Area>, pid: nat, start: nat, end: nat,
      err: int) {
    && (err != 0 <==> start == end || Inside(rs, start, end))
    && (err != 0 ==> t == t0 && qs == rs)
    && (err == 0 ==> Without(rs, qs, start, end) && UnmapsReal(t0, t, pid, rs, start, end))
  }

  lemma OnlyUnmaps(t0: Tables, t: Tables, pid: nat, ps: seq<Area>)
    requires UnmapsAreas(t0, t, pid, ps)
    ensures forall q, y :: Key(q, y) && IsMapped(t, q, y) ==> IsMapped(t0, q, y)
  {
  }

  /** Frees a range of pages: the areas first, then the entries of every real area
      among them. unmarked are the pages on the conflict lists of buckets that got
      room again; none of them is mapped. */
  method FreeVaPages(pt: PageTables, vi: VRegion, pid: nat, start: nat, len: nat)
      returns (err: int, unmarked: seq<Conflict>)
    requires pt.Valid() && vi.Valid() && pid < NR_PIDS && start % PAGE_SIZE == 0 && len % PAGE_SIZE == 0
    requires RegionOk(vi.Areas(), vi.lo, vi.hi)
    modifies pt, pt.buddy, vi, vi.tree
    ensures pt.Valid() && vi.Valid() && RegionOk(vi.Areas(), vi.lo, vi.hi)
    ensures Conserved(old(pt.t.fpga), old(pt.buddy.blocks), pt.t.fpga, pt.buddy.blocks)
    ensures TablesSized(old(pt.t)) && TablesSized(pt.t) && Drained(old(pt.t), pt.t, pid, unmarked)
    ensures forall c :: c in unmarked ==> Key(c.pid, c.start) && !IsMapped(pt.t, c.pid, c.start)
    ensures DropsFrames(old(pt.t), pt.t)
    ensures FreeOutcome(old(pt.t), old(vi.Areas()), pt.t, vi.Areas(), pid, start, start + len, err)
    ensures err == 0 && NoStray(old(pt.t), pid, old(vi.Areas()), vi.lo, vi.hi) ==>
      (NoStray(pt.t, pid, vi.Areas(), vi.lo, vi.hi)
       <==> MarksClean(old(pt.t), pid, old(vi.Areas()), start, start + len, vi.lo, vi.hi))
  {
    hide TablesOk, FramesOk, Buddy.FpgaZone.Valid, ListOk, Within, VmaIndex.Indexed, VmaIndex.Shaped, Sorted,
      Canonical, View,
      UnmapsReal, NoStray, MarksClean, Conserved, Drained, UnmapsAreas, Without, Release, KeepsMultiples, Inside,
        UnmapsRange,
      Multiples, PageWise, IsMapped, DropsFrames, MoreTags;
    ghost var t0, hs0, rs := pt.t, pt.buddy.blocks, vi.Areas();
    DropsNone(pt.t);
    SameTagged(pt.t);
    SizedOk(pt.t, 0);
    SameConserved(pt.t.fpga, pt.buddy.blocks);
    UnmapsNone(pt.t, pid);
    UnmarkedUnmapped(t0, t0, pid, []);
    unmarked := [];
    var released;
    err, released := vi.FreeVa(start, len);
    if err != 0 {
      return;
    }
    ghost var qs := vi.Areas();
    PageWiseIsMultiples(rs, vi.lo, vi.hi);
    PageWiseIsMultiples(qs, vi.lo, vi.hi);
    PageMultiples(rs, qs, released, start, start + len);
    var k := 0;
    while k < |released|
      invariant 0 <= k <= |released| && pt.Valid() && TablesSized(pt.t) && vi.Valid() && vi.Areas() == qs
      invariant UnmapsAreas(t0, pt.t, pid, released[..k]) && Drained(t0, pt.t, pid, unmarked)
      invariant Conserved(t0.fpga, hs0, pt.t.fpga, pt.buddy.blocks) && DropsFrames(t0, pt.t) && MoreTags(pt.t, t0)
      modifies pt, pt.buddy
    {
      ghost var t1, hs1 := pt.t, pt.buddy.blocks;
      ReleasedPage(released, vi.lo, vi.hi, k);
      var more := pt.FreePteRange(pid, released[k].start, released[k].end);
      UnmapsNext(t0, t1, pt.t, pid, released, k);
      DrainedTrans(t0, t1, pt.t, pid, unmarked, more);
      ConservedTrans(t0.fpga, hs0, t1.fpga, hs1, pt.t.fpga, pt.buddy.blocks);
      DropsTrans(t0, t1, pt.t);
      MoreTrans(pt.t, t1, t0);
      unmarked := unmarked + more;
      k := k + 1;
    }
    assert released[..k] == released;
    OnlyUnmaps(t0, pt.t, pid, released);
    UnmarkedUnmapped(t0, pt.t, pid, unmarked);
    FreedReal(t0, pt.t, pid, rs, released, start, start + len);
    CanonicalIsApart(rs, vi.lo, vi.hi);
    if NoStray(t0, pid, rs, vi.lo, vi.hi) {
      FreedNoStray(t0, pt.t, pid, rs, qs, start, start + len, vi.lo, vi.hi);
    }
  }

  lemma SameTagged(t: Tables)
    ensures MoreTags(t, t)
  {
  }

  lemma MoreTrans(t0: Tables, t1: Tables, t2: Tables)
    requires MoreTags(t0, t1) && MoreTags(t1, t2)
    ensures MoreTags(t0, t2)
  {
  }

  lemma PageMultiples(rs: seq<Area>, qs: seq<Area>, ps: seq<Area>, start: nat, end: nat)
    requires KeepsMultiples(rs, qs, ps, start, end) && Multiples(rs, PAGE_SIZE) && start % PAGE_SIZE == 0
      && end % PAGE_SIZE == 0
    ensures Multiples(qs, PAGE_SIZE) && Multiples(ps, PAGE_SIZE)
  {
  }

  lemma ReleasedPage(ps: seq<Area>, lo: nat, hi: nat, k: nat)
    requires Multiples(ps, PAGE_SIZE) && Sorted(ps, lo, hi) && k < |ps| && hi <= VA_LIMIT
    ensures PageAddr(ps[k].start) && ps[k].start <= ps[k].end <= VA_LIMIT && (ps[k].end - ps[k].start) % PAGE_SIZE == 0
  {
  }

  // ---- freeing what was allocated

  /** The range became part of a conflict mark. */
  ghost predicate MarkTouched(rs: seq<Area>, q: Request, a: nat, flags: nat) { RangeTakes(rs, q, a, flags, CONFLICT) }

  lemma InsideCovers(us: seq<Area>, lo: nat, hi: nat, start: int, end: int)
    requires Canonical(us, lo, hi) && start < end && forall y :: start <= y < end ==> Covers(us, y)
    ensures Inside(us, start, end) <==> Covers(us, start - 1) && Covers(us, end)
  {
    if i :| 0 <= i < |us| && us[i].start < start && end < us[i].end {
      assert us[i].start <= start - 1 < us[i].end && us[i].start <= end < us[i].end;
    }
    if Covers(us, start - 1) && Covers(us, end) {
      var i := OneArea(us, lo, hi, start - 1, end);
    }
  }

  /** No page of the range has an entry. */
  ghost predicate Gone(t: Tables, pid: nat, start: nat, end: nat) {
    forall y :: InRange(start, end, y) ==> !IsMapped(t, pid, y)
  }

  /** The entries of the range go with it exactly if it did not become part of a mark. */
  lemma GoneIff(t0: Tables, rs: seq<Area>, t1: Tables, us: seq<Area>, t2: Tables, pid: nat, a: nat, q: Request,
      hi: nat, marked: bool)
    requires Allocated(t0, rs, t1, us, pid, a, q) && UnmapsReal(t1, t2, pid, us, a, a + q.length)
      && Canonical(us, q.low, hi)
    requires pid < NR_PIDS && q.length > 0 && a % PAGE_SIZE == 0 && a + q.length <= VA_LIMIT
    requires forall y :: a <= y < a + q.length ==> (Flagged(us, y, CONFLICT) <==> marked)
    ensures Gone(t2, pid, a, a + q.length) <==> !marked
  {
    hide Suits, Covers, IsMapped, Flagged, FullPage, IsReal, Canonical;
    CanonicalIsApart(us, q.low, hi);
    forall y | a <= y < a + q.length ensures IsReal(us, y) <==> !marked {
      RealOrMarked(us, q.low, hi, y);
    }
    assert InRange(a, a + q.length, a);
    assert Key(pid, a) && IsMapped(t1, pid, a);
  }

  /** Allocating and then freeing a range. Freeing is refused exactly when the range
      joined two areas; the entries are gone exactly when it is not refused and the
      range had not become part of a conflict mark; and then all is as before, the
      marks aside. */
  lemma RoundTrip(t0: Tables, rs: seq<Area>, t1: Tables, ms: seq<Area>, us: seq<Area>, t2: Tables, vs: seq<Area>,
                  pid: nat, a: nat, q: Request, flags: nat, err: int)
    requires Allocated(t0, rs, t1, us, pid, a, q) && AllocatedFlags(rs, ms, us, t0.nrFree, a, q, flags)
    requires FreeOutcome(t1, us, t2, vs, pid, a, a + q.length, err) && Canonical(us, q.low, q.high)
    requires NoStray(t0, pid, rs, q.low, q.high) && pid < NR_PIDS && q.length > 0 && a % PAGE_SIZE == 0
    requires a + q.length <= q.high <= VA_LIMIT
    ensures err != 0 <==> Covers(rs, a - 1) && a + q.length < q.high
    ensures Gone(t2, pid, a, a + q.length) <==> err == 0 && !MarkTouched(rs, q, a, flags)
    ensures Gone(t2, pid, a, a + q.length) ==> forall p, y :: Key(p, y) ==> (IsMapped(t2, p, y) <==> IsMapped(t0, p, y))
    ensures err == 0 ==> (forall y :: Covers(vs, y) <==> Covers(ms, y)) && Marked(rs, vs, t0.nrFree)
  {
    hide Covers, IsMapped, Flagged, FullPage, IsReal, Canonical, TakesFlags, RangeTakes, Inside, Without, MarksFlagged,
      FlagsBelow, AddsFlags, Kept, AllKeep;
    var end := a + q.length;
    BelowCovers(rs, ms, end, a - 1);
    InsideCovers(us, q.low, q.high, a, end);
    assert InRange(a, end, a) && IsMapped(t1, pid, a);
    if err == 0 {
      GoneIff(t0, rs, t1, us, t2, pid, a, q, q.high, MarkTouched(rs, q, a, flags));
      forall y ensures Covers(vs, y) <==> Covers(ms, y) {
        WithoutCovers(us, vs, a, end, y);
        RangeWasFree(rs, ms, t0.nrFree, a, q, y);
      }
      if Gone(t2, pid, a, end) {
        SameAgain(t0, rs, t1, us, t2, pid, a, q);
      }
    }
  }

  lemma RangeWasFree(rs: seq<Area>, ms: seq<Area>, nrFree: seq<nat>, a: nat, q: Request, y: int)
    requires Suits(rs, nrFree, a, q) && FlagsBelow(rs, ms, a + q.length)
    ensures a <= y < a + q.length ==> !Covers(ms, y)
  {
    if a <= y < a + q.length {
      BelowCovers(rs, ms, a + q.length, y);
    }
  }

  lemma SameAgain(t0: Tables, rs: seq<Area>, t1: Tables, us: seq<Area>, t2: Tables, pid: nat, a: nat, q: Request)
    requires Allocated(t0, rs, t1, us, pid, a, q) && UnmapsReal(t1, t2, pid, us, a, a + q.length)
    requires NoStray(t0, pid, rs, q.low, q.high) && Gone(t2, pid, a, a + q.length) && pid < NR_PIDS
    ensures forall p, y :: Key(p, y) ==> (IsMapped(t2, p, y) <==> IsMapped(t0, p, y))
  {
    hide IsMapped, IsReal, Covers, FullPage;
    forall y: nat | InRange(a, a + q.length, y) ensures !IsMapped(t0, pid, y) {
      assert !Covers(rs, y);
    }
  }

  /** Every page of any process holds the frame it held. */
  ghost predicate SameHolders(t: Tables, t': Tables) {
    forall g, x :: TagFrame(t'.fpga, g, x) <==> TagFrame(t.fpga, g, x)
  }

  /** Once the range is gone, every page holds what it held before the allocation. */
  lemma FramesBack(t0: Tables, t1: Tables, t2: Tables)
    requires TablesOk(t0) && TablesOk(t2) && KeepsFrames(t0, t1) && DropsFrames(t1, t2)
    requires forall p, y :: Key(p, y) ==> (IsMapped(t2, p, y) <==> IsMapped(t0, p, y))
    ensures SameHolders(t0, t2)
  {
    hide TablesOk, TagFrame, HasTag, GenerateTag;
    forall g, x ensures TagFrame(t2.fpga, g, x) <==> TagFrame(t0.fpga, g, x) {
      if TagFrame(t0.fpga, g, x) {
        FramesHaveTags(t0, g, x);
      }
      TagBack(t0, t2, g);
    }
  }

  lemma TagBack(t0: Tables, t2: Tables, g: nat)
    requires TablesOk(t0) && TablesOk(t2)
    requires forall p, y :: Key(p, y) ==> (IsMapped(t2, p, y) <==> IsMapped(t0, p, y))
    ensures HasTag(t2.shadow, g) <==> HasTag(t0.shadow, g)
  {
    hide HasTag, GenerateTag;
    SizedOk(t0, 0);
    SizedOk(t2, 0);
    hide TablesOk;
    var p, y := g / TAG_PID, TagVa(g);
    if HasTag(t0.shadow, g) {
      TagIsKey(t0, g);
      assert IsMapped(t0, p, y) && Key(p, y);
    }
    if HasTag(t2.shadow, g) {
      TagIsKey(t2, g);
      assert IsMapped(t2, p, y) && Key(p, y);
    }
  }

  /** And then exactly the frames are free that were free. */
  lemma FreeBack(t0: Tables, hs0: Blocks, t: Tables, hs: Blocks, z: Zone)
    requires FramesOk(t0.fpga, z, hs0) && FramesOk(t.fpga, z, hs) && Conserved(t0.fpga, hs0, t.fpga, hs)
    requires SameHolders(t0, t)
    ensures forall x: nat :: IsFree(hs, x) <==> IsFree(hs0, x)
  {
    hide IsFree;
    forall x: nat ensures IsFree(hs, x) <==> IsFree(hs0, x) {
      HeldBack(t0, t, x);
      HeldBack(t, t0, x);
      HeldNotFree(t0.fpga, z, hs0, x);
      HeldNotFree(t.fpga, z, hs, x);
      assert Accounted(t.fpga, hs, x) <==> Accounted(t0.fpga, hs0, x);
    }
  }

  lemma HeldNotFree(f: seq<Pte>, z: Zone, hs: Blocks, x: nat)
    requires FramesOk(f, z, hs)
    ensures Held(f, x) ==> !IsFree(hs, x)
  {
  }

  lemma HeldBack(t0: Tables, t: Tables, x: nat)
    requires SameHolders(t0, t)
    ensures Held(t0.fpga, x) ==> Held(t.fpga, x)
  {
    if i :| 0 <= i < |t0.fpga| && t0.fpga[i].valid && FrameOf(t0.fpga[i]) == x {
      assert TagFrame(t0.fpga, t0.fpga[i].tag, x);
      assert TagFrame(t.fpga, t0.fpga[i].tag, x);
    }
  }

  /** An allocation freed right away. */
  method AllocThenFree(pt: PageTables, vi: VRegion, pid: nat, len0: nat, flags: nat)
    returns (r: Option<nat>, err: int, unmarked: seq<Conflict>)
    requires pt.Valid() && vi.Valid() && vi.topdown && pid < NR_PIDS && 0 < len0 <= VREGION_SIZE
    requires RegionOk(vi.Areas(), vi.lo, vi.hi) && NoStray(pt.t, pid, vi.Areas(), vi.lo, vi.hi)
    modifies pt, pt.buddy, vi, vi.tree
    ensures pt.Valid() && vi.Valid() && RegionOk(vi.Areas(), vi.lo, vi.hi)
    ensures r.Some? ==> var q := Request(PageAlign(len0), vi.lo, vi.hi);
      && (err != 0 <==> Covers(old(vi.Areas()), r.value - 1) && r.value + q.length < vi.hi)
      && (Gone(pt.t, pid, r.value, r.value + q.length) <==>
          err == 0 && !MarkTouched(old(vi.Areas()), q, r.value, flags))
      && (err == 0 ==> Marked(old(vi.Areas()), vi.Areas(), old(pt.t).nrFree))
      && (Gone(pt.t, pid, r.value, r.value + q.length) ==>
          && SameHolders(old(pt.t), pt.t)
          && forall x: nat :: IsFree(pt.buddy.blocks, x) <==> old(IsFree(pt.buddy.blocks, x)))
  {
    hide TablesOk, FramesOk, Buddy.FpgaZone.Valid, ListOk, Within, VmaIndex.Indexed, VmaIndex.Shaped, Sorted,
      Canonical, View,
      NoStray, Conserved, Drained, Allocated, AllocatedFlags, FreeOutcome, MarksClean, Gone, MarkTouched, PageWise,
        PageAlign, Covers,
      Trying, Suits, IsMapped, Key, Marked, MarkedFlags, Populated, KeepsFrames, DropsFrames, SameHolders, IsFree;
    ghost var t0, hs0, rs := pt.t, pt.buddy.blocks, vi.Areas();
    var len := PageAlign(len0);
    ghost var q := Request(len, vi.lo, vi.hi);
    err, unmarked := 0, [];
    ghost var ms, f;
    r, ms, f := AllocVa(pt, vi, pid, len0, flags);
    if r.Some? {
      ghost var t1, hs1, us := pt.t, pt.buddy.blocks, vi.Areas();
      AllocatedFits(t0, rs, t1, us, pid, r.value, q);
      LengthOk(len0);
      err, unmarked := FreeVaPages(pt, vi, pid, r.value, len);
      RoundTrip(t0, rs, t1, ms, us, pt.t, vi.Areas(), pid, r.value, q, flags, err);
      if Gone(pt.t, pid, r.value, r.value + len) {
        PopulatedKeeps(t0, hs0, t1, hs1, pid, r.value, r.value + len, f, flags);
        FramesBack(t0, t1, pt.t);
        ConservedTrans(t0.fpga, hs0, t1.fpga, hs1, pt.t.fpga, pt.buddy.blocks);
        FreeBack(t0, hs0, pt.t, pt.buddy.blocks, pt.buddy.z);
      }
    }
  }

  lemma PopulatedKeeps(t0: Tables, hs0: Blocks, t: Tables, hs: Blocks, pid: nat, a: nat, end: nat, f: nat, flags: nat)
    requires Populated(t0, hs0, t, hs, pid, a, end, f, flags)
    ensures KeepsFrames(t0, t)
  {
  }

  lemma AllocatedFits(t0: Tables, rs: seq<Area>, t: Tables, us: seq<Area>, pid: nat, a: nat, q: Request)
    requires Allocated(t0, rs, t, us, pid, a, q)
    ensures a % PAGE_SIZE == 0 && q.low <= a && a + q.length <= q.high
  {
  }

  // ---- pages that find a slot again

  /** Takes the mark off a page that was on a conflict list, by freeing the page. Refused
      exactly when the mark has become the inside of an area: then the page stays
      covered with nothing in it. No entry is lost or exposed. */
  method UnmarkConflict(pt: PageTables, vi: VRegion, c: Conflict) returns (err: int)
    requires pt.Valid() && vi.Valid() && RegionOk(vi.Areas(), vi.lo, vi.hi) && Key(c.pid, c.start)
      && !IsMapped(pt.t, c.pid, c.start)
    modifies pt, pt.buddy, vi, vi.tree
    ensures pt.Valid() && vi.Valid() && RegionOk(vi.Areas(), vi.lo, vi.hi)
    ensures err != 0 <==> Inside(old(vi.Areas()), c.start, c.start + PAGE_SIZE)
    ensures err != 0 ==> vi.Areas() == old(vi.Areas())
    ensures err == 0 ==> Without(old(vi.Areas()), vi.Areas(), c.start, c.start + PAGE_SIZE)
    ensures TablesSized(old(pt.t)) && TablesSized(pt.t) && SameEntries(old(pt.t), pt.t)
    ensures NoStray(old(pt.t), c.pid, old(vi.Areas()), vi.lo, vi.hi)
      <==> NoStray(pt.t, c.pid, vi.Areas(), vi.lo, vi.hi)
    ensures Conserved(old(pt.t.fpga), old(pt.buddy.blocks), pt.t.fpga, pt.buddy.blocks)
  {
    hide TablesOk, FramesOk, Buddy.FpgaZone.Valid, ListOk, Within, VmaIndex.Indexed, VmaIndex.Shaped, Sorted,
      Canonical, View,
      Without, Inside, NoStray, MarksClean, Conserved, Drained, IsMapped, PageWise, UnmapsReal, SameEntries,
        BucketIndex;
    ghost var t0, rs := pt.t, vi.Areas();
    var more;
    err, more := FreeVaPages(pt, vi, c.pid, c.start, PAGE_SIZE);
    if err == 0 {
      NothingUnmapped(t0, rs, pt.t, c.pid, c.start, more);
      OnePageClean(t0, c.pid, rs, c.start, vi.lo, vi.hi);
      StrayBefore(t0, rs, pt.t, vi.Areas(), c.pid, c.start, vi.lo, vi.hi);
    } else {
      SameIsSame(t0);
    }
  }

  /** What uncovered pages do not own now, they did not own before one was uncovered. */
  lemma StrayBefore(t0: Tables, rs: seq<Area>, t: Tables, qs: seq<Area>, pid: nat, start: nat, lo: nat, hi: nat)
    requires TablesSized(t0) && TablesSized(t) && SameEntries(t0, t) && Without(rs, qs, start, start + PAGE_SIZE)
    requires pid < NR_PIDS && hi <= VA_LIMIT
    ensures NoStray(t, pid, qs, lo, hi) ==> NoStray(t0, pid, rs, lo, hi)
  {
    hide IsMapped, Covers, Without;
    if NoStray(t, pid, qs, lo, hi) {
      forall y | lo <= y < hi && PageAddr(y) && !Covers(rs, y) ensures !IsMapped(t0, pid, y) {
        WithoutCovers(rs, qs, start, start + PAGE_SIZE, y);
        assert Key(pid, y);
      }
    }
  }

  /** One turn: the page of c is taken off the areas, unless it lies inside one. */
  ghost predicate UnmarkTurn(rs: seq<Area>, qs: seq<Area>, c: Conflict) {
    if Inside(rs, c.start, c.start + PAGE_SIZE) then qs == rs else Without(rs, qs, c.start, c.start + PAGE_SIZE)
  }

  /** The areas from turn to turn. */
  ghost predicate Turns(turns: seq<seq<Area>>, u: seq<Conflict>) {
    |turns| == |u| + 1 && forall i :: 0 <= i < |u| ==> UnmarkTurn(turns[i], turns[i + 1], u[i])
  }

  lemma NextTurn(turns: seq<seq<Area>>, u: seq<Conflict>, qs: seq<Area>, c: Conflict)
    requires Turns(turns, u) && UnmarkTurn(turns[|u|], qs, c)
    ensures Turns(turns + [qs], u + [c])
  {
    hide UnmarkTurn;
  }

  /** Nothing is covered again later, and flags do not change. */
  lemma {:induction false} TurnsShrink(turns: seq<seq<Area>>, u: seq<Conflict>, i: nat, j: nat)
    requires Turns(turns, u) && i <= j <= |u|
    ensures forall y, g :: Flagged(turns[j], y, g) ==> Flagged(turns[i], y, g)
    ensures forall y, g :: Flagged(turns[i], y, g) && !Flagged(turns[j], y, g) ==> OnSomePage(u, y)
    decreases j
  {
    hide Flagged, Inside;
    if i < j {
      TurnsShrink(turns, u, i, j - 1);
      var k, c := j - 1, u[j - 1];
      assert UnmarkTurn(turns[k], turns[k + 1], c);
      assert c in u;
    }
  }

  ghost predicate OnSomePage(u: seq<Conflict>, y: int) { exists c :: c in u && OnPage(c, y) }

  predicate OnPage(c: Conflict, y: int) { c.start <= y < c.start + PAGE_SIZE }

  /** No address of the page is covered in us, unless the page lies inside an area of rs. */
  ghost predicate PageUncovered(rs: seq<Area>, us: seq<Area>, c: Conflict) {
    !Inside(rs, c.start, c.start + PAGE_SIZE) ==> forall y :: OnPage(c, y) ==> !Covers(us, y)
  }

  /** A page whose turn it was is uncovered for good, unless it lay inside an area then. */
  lemma TurnUncovers(turns: seq<seq<Area>>, u: seq<Conflict>, i: nat)
    requires Turns(turns, u) && i < |u|
    ensures PageUncovered(turns[i], turns[|u|], u[i])
  {
    hide Inside;
    TurnsShrink(turns, u, i + 1, |u|);
    assert UnmarkTurn(turns[i], turns[i + 1], u[i]);
    if !Inside(turns[i], u[i].start, u[i].start + PAGE_SIZE) {
      forall y | OnPage(u[i], y) ensures !Covers(turns[|u|], y) {
        if k :| 0 <= k < |turns[|u|]| && turns[|u|][k].start <= y < turns[|u|][k].end {
          assert Flagged(turns[|u|], y, turns[|u|][k].flags);
        }
      }
    }
  }

  /** The page belongs to the vRegion. */
  predicate Here(c: Conflict, pid: nat, lo: nat, hi: nat) { c.pid == pid && lo <= c.start < hi }

  /** u, parted into the pages of this vRegion and all others. */
  ghost predicate Parted(u: seq<Conflict>, mine: seq<Conflict>, others: seq<Conflict>, pid: nat, lo: nat, hi: nat) {
    && multiset(u) == multiset(mine) + multiset(others)
    && (forall c :: c in mine ==> Here(c, pid, lo, hi)) && (forall c :: c in others ==> !Here(c, pid, lo, hi))
  }

  lemma PartedNext(u: seq<Conflict>, k: nat, mine: seq<Conflict>, others: seq<Conflict>, pid: nat, lo: nat, hi: nat)
    requires k < |u| && Parted(u[..k], mine, others, pid, lo, hi)
    ensures Here(u[k], pid, lo, hi) ==> Parted(u[..k + 1], mine + [u[k]], others, pid, lo, hi)
    ensures !Here(u[k], pid, lo, hi) ==> Parted(u[..k + 1], mine, others + [u[k]], pid, lo, hi)
  {
    hide Here;
    assert u[..k + 1] == u[..k] + [u[k]];
  }

  /** Takes the marks off those pages that are in this vRegion, one after the other. */
  method UnmarkAll(pt: PageTables, vi: VRegion, pid: nat, unmarked: seq<Conflict>)
    returns (others: seq<Conflict>, ghost mine: seq<Conflict>, ghost turns: seq<seq<Area>>)
    requires pt.Valid() && vi.Valid() && RegionOk(vi.Areas(), vi.lo, vi.hi) && pid < NR_PIDS
    requires forall c :: c in unmarked ==> Key(c.pid, c.start) && !IsMapped(pt.t, c.pid, c.start)
    modifies pt, pt.buddy, vi, vi.tree
    ensures pt.Valid() && vi.Valid() && RegionOk(vi.Areas(), vi.lo, vi.hi)
    ensures |turns| == |mine| + 1 && Turns(turns, mine) && turns[0] == old(vi.Areas()) && turns[|mine|] == vi.Areas()
    ensures Parted(unmarked, mine, others, pid, vi.lo, vi.hi)
    ensures TablesSized(old(pt.t)) && TablesSized(pt.t) && SameEntries(old(pt.t), pt.t)
    ensures NoStray(old(pt.t), pid, old(vi.Areas()), vi.lo, vi.hi) <==> NoStray(pt.t, pid, vi.Areas(), vi.lo, vi.hi)
    ensures Conserved(old(pt.t.fpga), old(pt.buddy.blocks), pt.t.fpga, pt.buddy.blocks)
  {
    hide TablesOk, FramesOk, Buddy.FpgaZone.Valid, ListOk, Within, VmaIndex.Indexed, VmaIndex.Shaped, Sorted,
      Canonical, View, Without, Inside, NoStray, Conserved, IsMapped, PageWise, SameEntries, BucketIndex, Turns,
      Parted;
    ghost var t0, hs0, rs := pt.t, pt.buddy.blocks, vi.Areas();
    SizedOk(t0, 0);
    SameIsSame(t0);
    SameConserved(t0.fpga, hs0);
    others, mine, turns := [], [], [rs];
    TurnsNone(rs);
    PartedNone(unmarked, pid, vi.lo, vi.hi);
    var k := 0;
    while k < |unmarked|
      invariant 0 <= k <= |unmarked| && pt.Valid() && vi.Valid() && RegionOk(vi.Areas(), vi.lo, vi.hi)
      invariant |turns| == |mine| + 1 && Turns(turns, mine) && turns[0] == rs && turns[|mine|] == vi.Areas()
      invariant Parted(unmarked[..k], mine, others, pid, vi.lo, vi.hi)
      invariant TablesSized(t0) && TablesSized(pt.t) && SameEntries(t0, pt.t)
      invariant NoStray(t0, pid, rs, vi.lo, vi.hi) <==> NoStray(pt.t, pid, vi.Areas(), vi.lo, vi.hi)
      invariant Conserved(t0.fpga, hs0, pt.t.fpga, pt.buddy.blocks)
    {
      var c := unmarked[k];
      PartedNext(unmarked, k, mine, others, pid, vi.lo, vi.hi);
      if Here(c, pid, vi.lo, vi.hi) {
        ghost var t1, hs1, qs := pt.t, pt.buddy.blocks, vi.Areas();
        SameUnmapped(t0, t1, c);
        var err := UnmarkConflict(pt, vi, c);
        NextTurn(turns, mine, vi.Areas(), c);
        ConservedTrans(t0.fpga, hs0, t1.fpga, hs1, pt.t.fpga, pt.buddy.blocks);
        SameTrans(t0, t1, pt.t);
        mine, turns := mine + [c], turns + [vi.Areas()];
      } else {
        others := others + [c];
      }
      k := k + 1;
    }
    assert unmarked[..k] == unmarked;
  }

  lemma TurnsNone(rs: seq<Area>)
    ensures Turns([rs], [])
  {
  }

  lemma PartedNone(u: seq<Conflict>, pid: nat, lo: nat, hi: nat)
    ensures Parted(u[..0], [], [], pid, lo, hi)
  {
  }

  lemma SameUnmapped(t0: Tables, t: Tables, c: Conflict)
    requires TablesSized(t0) && TablesSized(t) && SameEntries(t0, t) && Key(c.pid, c.start)
    ensures IsMapped(t, c.pid, c.start) <==> IsMapped(t0, c.pid, c.start)
  {
  }

  lemma SameTrans(t0: Tables, t1: Tables, t: Tables)
    requires TablesSized(t0) && TablesSized(t1) && TablesSized(t) && SameEntries(t0, t1) && SameEntries(t1, t)
    ensures SameEntries(t0, t)
  {
    hide IsMapped;
  }

  /** Frees a range of pages and unmarks the pages of this vRegion that were waiting for
      its slots. mine are those pages and others those of other vRegions; together they
      are what was on the conflict lists of the buckets that got a slot back. turns are
      the areas after the freeing and after each unmarking. */
  method FreeVaUnmark(pt: PageTables, vi: VRegion, pid: nat, start: nat, len: nat)
    returns (err: int, others: seq<Conflict>, ghost mine: seq<Conflict>, ghost turns: seq<seq<Area>>)
    requires pt.Valid() && vi.Valid() && pid < NR_PIDS && start % PAGE_SIZE == 0 && len % PAGE_SIZE == 0
    requires RegionOk(vi.Areas(), vi.lo, vi.hi)
    modifies pt, pt.buddy, vi, vi.tree
    ensures pt.Valid() && vi.Valid() && RegionOk(vi.Areas(), vi.lo, vi.hi)
    ensures Conserved(old(pt.t.fpga), old(pt.buddy.blocks), pt.t.fpga, pt.buddy.blocks)
    ensures err != 0 <==> len == 0 || Inside(old(vi.Areas()), start, start + len)
    ensures err != 0 ==> pt.t == old(pt.t) && turns == [old(vi.Areas())] && mine == [] && others == []
    ensures |turns| == |mine| + 1 && Turns(turns, mine) && turns[|mine|] == vi.Areas()
    ensures err == 0 ==> Without(old(vi.Areas()), turns[0], start, start + len)
    ensures err == 0 ==> UnmapsReal(old(pt.t), pt.t, pid, old(vi.Areas()), start, start + len)
    ensures TablesSized(old(pt.t)) && TablesSized(pt.t) && Drained(old(pt.t), pt.t, pid, mine + others)
    ensures forall c :: c in mine ==> Here(c, pid, vi.lo, vi.hi)
    ensures forall c :: c in others ==> !Here(c, pid, vi.lo, vi.hi)
    ensures forall i :: 0 <= i < |mine| ==> PageUncovered(turns[i], vi.Areas(), mine[i])
    ensures err == 0 && NoStray(old(pt.t), pid, old(vi.Areas()), vi.lo, vi.hi) ==>
      (NoStray(pt.t, pid, vi.Areas(), vi.lo, vi.hi)
       <==> MarksClean(old(pt.t), pid, old(vi.Areas()), start, start + len, vi.lo, vi.hi))
  {
    hide TablesOk, FramesOk, Buddy.FpgaZone.Valid, ListOk, Within, VmaIndex.Indexed, VmaIndex.Shaped, Sorted,
      Canonical, View, Without, Inside, NoStray, MarksClean, Conserved, Drained, IsMapped, PageWise, UnmapsReal,
      SameEntries, BucketIndex, Turns, Here, PageUncovered;
    ghost var t0, hs0, rs := pt.t, pt.buddy.blocks, vi.Areas();
    var unmarked;
    err, unmarked := FreeVaPages(pt, vi, pid, start, len);
    ghost var t1, hs1 := pt.t, pt.buddy.blocks;
    if err != 0 {
      others, mine, turns := [], [], [rs];
      TurnsNone(rs);
      DrainedSame(t0, pid);
      assert mine + others == [];
      return;
    }
    others, mine, turns := UnmarkAll(pt, vi, pid, unmarked);
    ConservedTrans(t0.fpga, hs0, t1.fpga, hs1, pt.t.fpga, pt.buddy.blocks);
    DrainedAll(t0, t1, pt.t, pid, unmarked, mine, others, vi.lo, vi.hi);
    StillUnmapped(t0, t1, pt.t, pid, rs, start, start + len);
    forall i | 0 <= i < |mine| ensures PageUncovered(turns[i], vi.Areas(), mine[i]) {
      TurnUncovers(turns, mine, i);
    }
  }

  lemma DrainedAll(t0: Tables, t1: Tables, t: Tables, pid: nat, u: seq<Conflict>, mine: seq<Conflict>,
      others: seq<Conflict>, lo: nat, hi: nat)
    requires TablesSized(t0) && TablesSized(t1) && TablesSized(t) && Drained(t0, t1, pid, u) && SameEntries(t1, t)
    requires Parted(u, mine, others, pid, lo, hi)
    ensures Drained(t0, t, pid, mine + others)
  {
    hide IsMapped, BucketIndex, Here;
    forall b: nat ensures Lost(t0, t, pid, b) <==> Lost(t0, t1, pid, b) {
    }
    forall c ensures c in mine + others <==> c in u {
      assert c in u <==> c in multiset(mine) + multiset(others);
    }
  }

  lemma StillUnmapped(t0: Tables, t1: Tables, t: Tables, pid: nat, rs: seq<Area>, start: nat, end: nat)
    requires TablesSized(t1) && TablesSized(t) && SameEntries(t1, t)
    ensures UnmapsReal(t0, t1, pid, rs, start, end) ==> UnmapsReal(t0, t, pid, rs, start, end)
  {
    hide IsMapped, IsReal;
  }

  /** Same pages mapped, same conflict lists. */
  ghost predicate SameEntries(t0: Tables, t: Tables)
    requires TablesSized(t0) && TablesSized(t)
  {
    (forall q, y :: Key(q, y) ==> (IsMapped(t, q, y) <==> IsMapped(t0, q, y))) && t.conflicts == t0.conflicts
  }

  lemma SameIsSame(t: Tables)
    requires TablesSized(t)
    ensures SameEntries(t, t)
  {
  }

  lemma NothingUnmapped(t0: Tables, rs: seq<Area>, t: Tables, pid: nat, start: nat, u: seq<Conflict>)
    requires TablesSized(t0) && TablesSized(t) && Key(pid, start) && !IsMapped(t0, pid, start)
    requires UnmapsReal(t0, t, pid, rs, start, start + PAGE_SIZE) && Drained(t0, t, pid, u)
    ensures SameEntries(t0, t)
  {
    hide IsMapped, IsReal, BucketIndex;
    forall y: nat | Key(pid, y) && start <= y < start + PAGE_SIZE ensures y == start {
      OnlyPage(start, y);
    }
    assert forall b: nat :: b < NR_BUCKETS ==> t.conflicts[b] == t0.conflicts[b];
  }

  lemma OnlyPage(start: nat, y: nat)
    requires PageAddr(start) && PageAddr(y) && start <= y < start + PAGE_SIZE
    ensures y == start
  {
  }

  lemma OnePageClean(t0: Tables, pid: nat, rs: seq<Area>, start: nat, lo: nat, hi: nat)
    requires PageAddr(start) && !IsMapped(t0, pid, start)
    ensures MarksClean(t0, pid, rs, start, start + PAGE_SIZE, lo, hi)
  {
    hide IsMapped, Flagged;
    forall y: nat | start <= y < start + PAGE_SIZE && PageAddr(y) ensures !IsMapped(t0, pid, y) {
      OnlyPage(start, y);
    }
  }
}
