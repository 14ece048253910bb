/** Allocating virtual pages: areas, conflict marks and page table entries together. */
module VaAlloc {
  import opened Options
  import Buddy
  import opened BuddyBlocks
  import opened PageTypes
  import opened PageTable
  import opened PageTableOps
  import opened VmaList
  import VmaIndex
  import opened VmaSpec
  import opened GapSearch
  import opened VRegions
  import opened VaSpec
  import opened VaFlags
  import opened VaMarks

  /** Pages of the vRegion that are not allocated own no entry. */
  ghost predicate NoStray(t: Tables, pid: nat, rs: seq<Area>, lo: nat, hi: nat) {
    forall y {:trigger Covers(rs, y)} :: lo <= y < hi && PageAddr(y) && !Covers(rs, y) ==> !IsMapped(t, pid, y)
  }

  /** The vRegion's bounds, in whole pages at the top, and its areas'. */
  ghost predicate RegionOk(rs: seq<Area>, lo: nat, hi: nat) {
    && lo <= hi <= lo + VREGION_SIZE && hi <= VA_LIMIT && hi % PAGE_SIZE == 0 && PageWise(rs)
  }

  /** The tables with c put on bucket b's conflict list. */
  function PutConflict(t: Tables, b: nat, c: Conflict): Tables
    requires b < |t.conflicts| == |t.nrConflicts|
  {
    t.(conflicts := t.conflicts[b := [c] + t.conflicts[b]], nrConflicts := t.nrConflicts[b := t.nrConflicts[b] + 1])
  }

  lemma PutConflictOk(t: Tables, b: nat, c: Conflict)
    requires TablesOk(t) && b < NR_BUCKETS && t.nrFree[b] == 0 && ConflictOk(t, b, c)
    ensures TablesOk(PutConflict(t, b, c))
  {
    var t' := PutConflict(t, b, c);
    forall k | 0 <= k < NR_BUCKETS ensures BucketOk(t', k) && ConflictsOk(t', k) {
      assert BucketOk(t, k) && ConflictsOk(t, k);
      forall d | d in t'.conflicts[k] ensures ConflictOk(t', k, d) {
        assert ConflictOk(t, k, d);
      }
    }
  }

  /** Each page of [addr, cur) whose bucket is full is on that bucket's conflict list, and nothing else is new there. */
  ghost predicate Recorded(t0: Tables, t: Tables, pid: nat, addr: nat, cur: nat)
    requires TablesSized(t0) && TablesSized(t)
  {
    forall b: nat :: b < NR_BUCKETS ==> RecordedIn(t0, t, pid, addr, cur, b)
  }

  ghost predicate RecordedIn(t0: Tables, t: Tables, pid: nat, addr: nat, cur: nat, b: nat)
    requires TablesSized(t0) && TablesSized(t) && b < NR_BUCKETS
  {
    forall c :: c in t.conflicts[b] <==>
      c in t0.conflicts[b] || (t0.nrFree[b] == 0 && c.pid == pid && ConflictIn(c.start, addr, cur, b))
  }

  predicate ConflictIn(start: nat, addr: nat, cur: nat, b: nat) {
    addr <= start < cur && start % PAGE_SIZE == 0 && BucketIndex(start) == b
  }

  lemma RecordNone(t: Tables, pid: nat, addr: nat)
    requires TablesSized(t)
    ensures Recorded(t, t, pid, addr, addr)
  {
  }

  lemma RecordStep(t0: Tables, t: Tables, t': Tables, pid: nat, addr: nat, cur: nat)
    requires TablesSized(t0) && TablesSized(t) && t.nrFree == t0.nrFree && Recorded(t0, t, pid, addr, cur)
    requires addr <= cur && cur % PAGE_SIZE == 0
    requires t' == if t.nrFree[BucketIndex(cur)] == 0 then PutConflict(t, BucketIndex(cur), Conflict(pid, cur)) else t
    ensures TablesSized(t') && Recorded(t0, t', pid, addr, cur + PAGE_SIZE)
    ensures t' == t.(conflicts := t'.conflicts, nrConflicts := t'.nrConflicts)
  {
    hide ConflictIn, BucketIndex;
    var next := cur + PAGE_SIZE;
    forall b: nat | b < NR_BUCKETS ensures RecordedIn(t0, t', pid, addr, next, b) {
      assert RecordedIn(t0, t, pid, addr, cur, b);
      forall c: Conflict
        ensures c in t'.conflicts[b] <==>
          c in t0.conflicts[b] || (t0.nrFree[b] == 0 && c.pid == pid && ConflictIn(c.start, addr, next, b))
      {
        NewConflict(c.start, addr, cur, b);
      }
    }
  }

  lemma NewConflict(start: nat, addr: nat, cur: nat, b: nat)
    requires addr <= cur && cur % PAGE_SIZE == 0
    ensures ConflictIn(start, addr, cur + PAGE_SIZE, b) <==>
            ConflictIn(start, addr, cur, b) || (start == cur && BucketIndex(cur) == b)
  {
    hide BucketIndex;
  }

  /** A page of a free range is free until it is marked itself. */
  lemma PageFree(rs: seq<Area>, qs: seq<Area>, nrFree: seq<nat>, addr: int, cur: int, len: int)
    requires MarkedUpTo(rs, qs, nrFree, addr, cur) && FreeRange(rs, addr, len) && addr <= cur
      && cur + PAGE_SIZE <= addr + len
    ensures FreeRange(qs, cur, PAGE_SIZE)
  {
    forall x | cur <= x < cur + PAGE_SIZE ensures !Covers(qs, x) {
      assert !Covers(rs, x);
    }
  }

  lemma MarkNone(rs: seq<Area>, nrFree: seq<nat>, addr: int)
    ensures MarkedUpTo(rs, rs, nrFree, addr, addr)
  {
  }

  lemma NoneFullYet(nrFree: seq<nat>, addr: int)
    ensures !SomeFull(nrFree, addr, addr)
  {
  }

  /** Flags changed only behind the first full page from addr on. */
  ghost predicate KeptLow(nrFree: seq<nat>, rs: seq<Area>, qs: seq<Area>, addr: int) {
    forall z {:trigger FlagsBelow(rs, qs, z)} :: !SomeFull(nrFree, addr, z) ==> FlagsBelow(rs, qs, z)
  }

  lemma KeptSame(nrFree: seq<nat>, rs: seq<Area>, addr: int)
    ensures KeptLow(nrFree, rs, rs, addr)
  {
  }

  lemma KeptStep(nrFree: seq<nat>, rs: seq<Area>, qs: seq<Area>, ts: seq<Area>, addr: int, cur: int)
    requires KeptLow(nrFree, rs, qs, addr) && AddsFlags(qs, ts, cur, cur + PAGE_SIZE, CONFLICT) && addr <= cur
      && cur % PAGE_SIZE == 0 && FullPage(nrFree, cur)
    ensures KeptLow(nrFree, rs, ts, addr)
  {
    hide Flagged, FullPage, FlagsAbove, TakesFlags, KeepsFlags, NextAgree;
    forall z | !SomeFull(nrFree, addr, z) ensures FlagsBelow(rs, ts, z) {
      assert PageOf(cur) == cur;
      assert z <= cur;
      assert FlagsBelow(rs, qs, z);
    }
  }

  lemma AtStart(rs: seq<Area>, qs: seq<Area>, nrFree: seq<nat>, q: Request, x: int)
    ensures TryAt(rs, qs, nrFree, q, x) ==> MarksFlagged(rs, qs, nrFree, q)
  {
  }

  lemma MarkNext(rs0: seq<Area>, rs: seq<Area>, qs: seq<Area>, ts: seq<Area>, nrFree: seq<nat>, q: Request, x: int,
      p: int)
    requires TryAt(rs0, rs, nrFree, q, x) && MarkedUpTo(rs, qs, nrFree, x, p) && FreeRange(rs, x, q.length)
    requires x % PAGE_SIZE == 0 && q.length % PAGE_SIZE == 0 && p % PAGE_SIZE == 0 && x <= p < x + q.length
    requires FullPage(nrFree, p) && MarksFlagged(rs0, qs, nrFree, q)
    requires Adds(qs, ts, p, p + PAGE_SIZE) && AddsFlags(qs, ts, p, p + PAGE_SIZE, CONFLICT)
    ensures MarksFlagged(rs0, ts, nrFree, q)
  {
    hide TryAt, MarkedUpTo, FreeRange, FullPage, MarksFlagged, Adds, AddsFlags, Marking;
    NextMark(rs0, rs, qs, nrFree, q, x, p);
    MarkOne(rs0, qs, ts, nrFree, q, x, p);
  }

  /** Records that the page at start, which is free and not mapped, found no slot. */
  method MarkConflict(pt: PageTables, vi: VRegion, pid: nat, start: nat)
    requires pt.Valid() && vi.Valid() && TablesSized(pt.t) && pt.t.nrFree[BucketIndex(start)] == 0
    requires Key(pid, start) && !IsMapped(pt.t, pid, start)
    requires vi.lo <= start && start + PAGE_SIZE <= vi.hi && FreeRange(vi.Areas(), start, PAGE_SIZE)
    modifies pt, vi, vi.tree
    ensures pt.Valid() && vi.Valid() && TablesSized(old(pt.t))
    ensures pt.t == PutConflict(old(pt.t), BucketIndex(start), Conflict(pid, start))
    ensures Adds(old(vi.Areas()), vi.Areas(), start, start + PAGE_SIZE)
    ensures AddsFlags(old(vi.Areas()), vi.Areas(), start, start + PAGE_SIZE, CONFLICT)
  {
    hide TablesOk, FramesOk, Buddy.FpgaZone.Valid, ListOk, Within, VmaIndex.Indexed, VmaIndex.Shaped, Sorted,
      Canonical, View,
      Inside, Adds, AddsFlags, BucketIndex, FreeRange, Overlapped, Added, EndBy, StartFrom, IsMapped;
    var b := BucketIndex(start);
    FreeApart(vi.Areas(), vi.lo, vi.hi, start, PAGE_SIZE);
    PutConflictOk(pt.t, b, Conflict(pid, start));
    pt.t := pt.t.(conflicts := pt.t.conflicts[b := [Conflict(pid, start)] + pt.t.conflicts[b]],
                  nrConflicts := pt.t.nrConflicts[b := pt.t.nrConflicts[b] + 1]);
    var r, released;
    ghost var ms, i;
    r, released, ms, i := vi.VmaTreeNew(start, PAGE_SIZE, CONFLICT);
    AddedFlags(ms, vi.lo, vi.hi, i, start, start + PAGE_SIZE, CONFLICT);
  }

  /** Every page of [addr, addr + len) whose bucket is full is put on the bucket's
      conflict list and marked as an area. Whatever areas rs0 the marks so far were made
      from for a request q of this length, the flags of all areas stay accounted for. */
  method CheckAndInsertConflicts(pt: PageTables, vi: VRegion, pid: nat, addr: nat, len: nat,
                                 ghost rs0: seq<Area>, ghost q: Request) returns (conflict: bool)
    requires pt.Valid() && vi.Valid() && pid < NR_PIDS && addr % PAGE_SIZE == 0 && len % PAGE_SIZE == 0
    requires vi.lo <= addr && addr + len <= vi.hi <= VA_LIMIT && FreeRange(vi.Areas(), addr, len)
    requires forall y :: InRange(addr, addr + len, y) ==> !IsMapped(pt.t, pid, y)
    modifies pt, vi, vi.tree
    ensures pt.Valid() && vi.Valid() && TablesSized(pt.t)
    ensures pt.t == old(pt.t).(conflicts := pt.t.conflicts, nrConflicts := pt.t.nrConflicts)
    ensures MarkedUpTo(old(vi.Areas()), vi.Areas(), old(pt.t).nrFree, addr, addr + len)
    ensures TablesSized(old(pt.t)) && Recorded(old(pt.t), pt.t, pid, addr, addr + len)
    ensures KeptLow(old(pt.t).nrFree, old(vi.Areas()), vi.Areas(), addr)
    ensures q.length == len && TryAt(rs0, old(vi.Areas()), old(pt.t).nrFree, q, addr) ==>
              MarksFlagged(rs0, vi.Areas(), old(pt.t).nrFree, q)
    ensures conflict <==> SomeFull(old(pt.t).nrFree, addr, addr + len)
    ensures !conflict ==> pt.t == old(pt.t) && vi.Areas() == old(vi.Areas())
  {
    hide Recorded, PutConflict, TablesOk, FramesOk, Buddy.FpgaZone.Valid, ListOk, Within, VmaIndex.Indexed,
      VmaIndex.Shaped, Sorted,
      Canonical, View, MarkedUpTo, FreeRange, FullPage, Inside, Adds, AddsFlags, SomeFull, KeptLow, IsMapped, TryAt,
      MarksFlagged;
    ghost var t0, rs := pt.t, vi.Areas();
    ghost var at := q.length == len && TryAt(rs0, rs, t0.nrFree, q, addr);
    AtStart(rs0, rs, t0.nrFree, q, addr);
    MarkNone(rs, t0.nrFree, addr);
    SizedOk(pt.t, 0);
    NoneFullYet(t0.nrFree, addr);
    RecordNone(t0, pid, addr);
    KeptSame(t0.nrFree, rs, addr);
    conflict := false;
    var start := addr;
    while start < addr + len
      invariant addr <= start <= addr + len && start % PAGE_SIZE == 0
      invariant pt.Valid() && vi.Valid() && pt.t == t0.(conflicts := pt.t.conflicts, nrConflicts := pt.t.nrConflicts)
      invariant MarkedUpTo(rs, vi.Areas(), t0.nrFree, addr, start) && KeptLow(t0.nrFree, rs, vi.Areas(), addr)
      invariant TablesSized(t0) && TablesSized(pt.t) && Recorded(t0, pt.t, pid, addr, start)
      invariant at ==> MarksFlagged(rs0, vi.Areas(), t0.nrFree, q)
      invariant conflict <==> SomeFull(t0.nrFree, addr, start)
      invariant !conflict ==> pt.t == t0 && vi.Areas() == rs
      decreases addr + len - start
    {
      var b := BucketIndex(start);
      SizedOk(pt.t, b);
      ghost var t, qs := pt.t, vi.Areas();
      FullIff(pt.t.nrFree, start);
      SomeFullNext(t0.nrFree, addr, start);
      NextStart(addr, len, start);
      if pt.t.nrFree[b] == 0 {
        PageFree(rs, qs, t0.nrFree, addr, start, len);
        SameMappings(t0, t);
        assert InRange(addr, addr + len, start);
        MarkConflict(pt, vi, pid, start);
        KeptStep(t0.nrFree, rs, qs, vi.Areas(), addr, start);
        if at {
          MarkNext(rs0, rs, qs, vi.Areas(), t0.nrFree, q, addr, start);
        }
        conflict := true;
      }
      RecordStep(t0, t, pt.t, pid, addr, start);
      MarkStep(rs, qs, vi.Areas(), t0.nrFree, addr, start, FullPage(t0.nrFree, start));
      start := start + PAGE_SIZE;
    }
    SizedOk(pt.t, 0);
  }

  ghost predicate SomeFull(nrFree: seq<nat>, addr: int, cur: int) {
    exists a :: addr <= a < cur && FullPage(nrFree, PageOf(a))
  }

  lemma FullIff(nrFree: seq<nat>, y: nat)
    requires |nrFree| == NR_BUCKETS
    ensures FullPage(nrFree, y) <==> nrFree[BucketIndex(y)] == 0
  {
  }

  lemma SomeFullNext(nrFree: seq<nat>, addr: int, cur: int)
    requires addr <= cur && cur % PAGE_SIZE == 0
    ensures SomeFull(nrFree, addr, cur + PAGE_SIZE) <==> SomeFull(nrFree, addr, cur) || FullPage(nrFree, cur)
  {
    hide FullPage;
    if a :| addr <= a < cur + PAGE_SIZE && FullPage(nrFree, PageOf(a)) {
      assert a >= cur ==> PageOf(a) == cur;
    }
    assert PageOf(cur) == cur;
  }

  lemma NextStart(addr: nat, len: nat, start: nat)
    requires addr % PAGE_SIZE == 0 && len % PAGE_SIZE == 0 && start % PAGE_SIZE == 0 && addr <= start < addr + len
    ensures start + PAGE_SIZE <= addr + len && (start + PAGE_SIZE) % PAGE_SIZE == 0
  {
  }

  /** State of an allocation between two tries: pages were marked, nothing else. */
  ghost predicate Trying(t0: Tables, rs: seq<Area>, t: Tables, qs: seq<Area>, lo: nat, hi: nat) {
    && t == t0.(conflicts := t.conflicts, nrConflicts := t.nrConflicts)
    && Marked(rs, qs, t0.nrFree) && RegionOk(qs, lo, hi)
  }

  lemma TryStart(t: Tables, rs: seq<Area>, lo: nat, hi: nat)
    requires RegionOk(rs, lo, hi)
    ensures Trying(t, rs, t, rs, lo, hi)
  {
  }

  /** After a try found the range [a, a + len) and its pages were checked. */
  lemma TryStep(t0: Tables, rs: seq<Area>, t: Tables, qs: seq<Area>, t': Tables, ts: seq<Area>, lo: nat, hi: nat,
      a: nat, len: nat)
    requires Trying(t0, rs, t, qs, lo, hi) && t' == t.(conflicts := t'.conflicts, nrConflicts := t'.nrConflicts)
    requires MarkedUpTo(qs, ts, t.nrFree, a, a + len) && a % PAGE_SIZE == 0 && len % PAGE_SIZE == 0
    requires FreeRange(qs, a, len) && a + len <= hi
    ensures Trying(t0, rs, t', ts, lo, hi)
    ensures SomeFull(t.nrFree, a, a + len) ==> Uncovered(ts, hi) < Uncovered(qs, hi)
  {
    hide FullPage, Covers;
    MarkedUpToMarks(qs, ts, t.nrFree, a, a + len);
    MarkedTrans(rs, qs, ts, t0.nrFree);
    MarkedPageWise(qs, ts, t.nrFree, a, a + len);
    if x :| a <= x < a + len && FullPage(t.nrFree, PageOf(x)) {
      assert !Covers(qs, x) && Covers(ts, x);
      FewerUncovered(qs, ts, t.nrFree, hi, x);
    }
  }

  /** Below the end of each suitable range flags are as they were. */
  ghost predicate LowSame(nrFree: seq<nat>, rs: seq<Area>, qs: seq<Area>, q: Request) {
    forall x :: Suits(rs, nrFree, x, q) ==> FlagsBelow(rs, qs, x + q.length)
  }

  lemma LowStart(nrFree: seq<nat>, rs: seq<Area>, q: Request)
    ensures LowSame(nrFree, rs, rs, q)
  {
  }

  /** A try marks no page below the end of a suitable range: no suitable address is
      above the one found, and the pages of a suitable range are not full. */
  lemma LowStep(t0: Tables, rs: seq<Area>, t: Tables, qs: seq<Area>, ts: seq<Area>, a: int, q: Request)
    requires Trying(t0, rs, t, qs, q.low, q.high) && LowSame(t0.nrFree, rs, qs, q) && Greatest(qs, a, q)
    requires KeptLow(t0.nrFree, qs, ts, a)
    ensures LowSame(t0.nrFree, rs, ts, q)
  {
    hide FlagsBelow, FullPage, RegionOk, FreeRange;
    forall x | Suits(rs, t0.nrFree, x, q) ensures FlagsBelow(rs, ts, x + q.length) {
      MarkedSuits(rs, qs, t0.nrFree, x, q);
      var z := x + q.length;
      assert !SomeFull(t0.nrFree, a, z);
      BelowTrans(rs, qs, ts, z);
    }
  }

  /** What a try that met no conflict gives. */
  lemma TryFound(t0: Tables, rs: seq<Area>, t: Tables, qs: seq<Area>, lo: nat, hi: nat, a: nat, q: Request)
    requires Trying(t0, rs, t, qs, lo, hi) && Greatest(qs, a, q) && a % PAGE_SIZE == 0
    requires !SomeFull(t.nrFree, a, a + q.length) && q.length > 0
    ensures Suits(rs, t0.nrFree, a, q) && forall x :: Suits(rs, t0.nrFree, x, q) ==> x <= a
    ensures FreeRange(qs, a, q.length) && q.low <= a && a + q.length <= q.high
  {
    hide FullPage;
    FoundIsGreatest(rs, qs, t0.nrFree, a, q);
  }

  /** The greatest range ends at the top or at an area. */
  lemma TopTouched(qs: seq<Area>, lo: nat, a: int, q: Request)
    requires Sorted(qs, lo, q.high) && Greatest(qs, a, q) && PageWise(qs) && q.length > 0
    requires a % PAGE_SIZE == 0 && q.length % PAGE_SIZE == 0 && q.high % PAGE_SIZE == 0
    ensures Covers(qs, a + q.length) <==> a + q.length < q.high
  {
    NextFeasible(qs, a, q);
  }

  lemma NextFeasible(qs: seq<Area>, a: int, q: Request)
    requires Feasible(qs, a, q) && PageWise(qs) && a % PAGE_SIZE == 0 && q.length % PAGE_SIZE == 0
      && q.high % PAGE_SIZE == 0
    ensures a + q.length < q.high && !Covers(qs, a + q.length) ==> Feasible(qs, a + PAGE_SIZE, q)
  {
    if a + q.length < q.high && !Covers(qs, a + q.length) {
      NextFits(a, q.length, q.high);
      forall x | a + PAGE_SIZE <= x < a + PAGE_SIZE + q.length ensures !Covers(qs, x) {
        if x >= a + q.length {
          LastPage(a, q.length, x);
          assert SameAsPage(qs, x);
        }
      }
    }
  }

  lemma NextFits(a: int, len: int, high: int)
    requires a % PAGE_SIZE == 0 && len % PAGE_SIZE == 0 && high % PAGE_SIZE == 0 && a + len < high
    ensures a + len + PAGE_SIZE <= high
  {
  }

  lemma LastPage(a: int, len: int, x: int)
    requires a % PAGE_SIZE == 0 && len % PAGE_SIZE == 0 && a + len <= x < a + len + PAGE_SIZE
    ensures PageOf(x) == a + len
  {
    assert (a + len) % PAGE_SIZE == 0;
  }

  /** Outcome of a successful allocation of the pages of q at a. */
  ghost predicate Allocated(t0: Tables, rs: seq<Area>, t: Tables, us: seq<Area>, pid: nat, a: nat, q: Request) {
    && Suits(rs, t0.nrFree, a, q) && (forall x :: Suits(rs, t0.nrFree, x, q) ==> x <= a)
    && (forall p, y :: Key(p, y) ==>
          (IsMapped(t, p, y) <==> IsMapped(t0, p, y) || (p == pid && InRange(a, a + q.length, y))))
    && (forall x :: a <= x < a + q.length ==> Covers(us, x))
    && (forall x :: Covers(rs, x) ==> Covers(us, x))
    && (forall x :: Covers(us, x) && !Covers(rs, x) ==> a <= x < a + q.length || FullPage(t0.nrFree, PageOf(x)))
  }

  /** Flags after an allocation at a with the flags asked for. The areas were ms when
      the range was added; below the end of the range they had not changed, and the
      range touches what is above it unless it ends at the top. */
  ghost predicate AllocatedFlags(rs: seq<Area>, ms: seq<Area>, us: seq<Area>, nrFree: seq<nat>, a: nat, q: Request,
      flags: nat) {
    && Marked(rs, ms, nrFree) && FlagsBelow(rs, ms, a + q.length) && MarksFlagged(rs, ms, nrFree, q)
    && (Covers(ms, a + q.length) <==> a + q.length < q.high)
    && Adds(ms, us, a, a + q.length) && AddsFlags(ms, us, a, a + q.length, flags)
    && (forall y, g :: a <= y < a + q.length ==> (Flagged(us, y, g) <==> RangeTakes(rs, q, a, flags, g)))
    && (Kept(rs, us) <==> AllKeep(rs, nrFree, q, a))
  }

  /** Flags when nothing was allocated: only marks were made. */
  ghost predicate MarkedFlags(rs: seq<Area>, ms: seq<Area>, nrFree: seq<nat>, q: Request) {
    MarksFlagged(rs, ms, nrFree, q) && (Kept(rs, ms) <==> AllKeep(rs, nrFree, q, q.low - q.length))
  }

  /** What the tries keep about flags; a is where they lead to. */
  ghost predicate Tracked(rs: seq<Area>, qs: seq<Area>, nrFree: seq<nat>, q: Request, a: int) {
    && MarksFlagged(rs, qs, nrFree, q) && TriesOk(rs, qs, nrFree, q, a) && Limit(rs, nrFree, q, a)
    && LowSame(nrFree, rs, qs, q)
  }

  lemma TrackStart(rs: seq<Area>, nrFree: seq<nat>, q: Request) returns (a: int)
    requires q.length > 0
    ensures Tracked(rs, rs, nrFree, q, a)
  {
    a := LimitExists(rs, nrFree, q, q.high);
    NoMarksYet(rs, nrFree, q);
    NoTriesYet(rs, nrFree, q, a);
    LowStart(nrFree, rs, q);
  }

  lemma TrackAt(t0: Tables, rs: seq<Area>, t: Tables, qs: seq<Area>, q: Request, a: int, x: int)
    requires Tracked(rs, qs, t0.nrFree, q, a) && Trying(t0, rs, t, qs, q.low, q.high) && Greatest(qs, x, q)
    requires Canonical(rs, q.low, q.high) && Canonical(qs, q.low, q.high) && q.length > 0 && q.length % PAGE_SIZE == 0
      && x % PAGE_SIZE == 0
    ensures TryAt(rs, qs, t0.nrFree, q, x)
  {
    hide MarksFlagged, TriesOk, Limit, LowSame, Greatest;
    WithinBounds(rs, q.low, q.high);
    CanonicalIsApart(qs, q.low, q.high);
    hide Covers, Canonical, Sorted;
    TopTouched(qs, q.low, x, q);
    GreatestFits(qs, x, q);
  }

  lemma GreatestFits(qs: seq<Area>, x: int, q: Request)
    requires Greatest(qs, x, q)
    ensures q.low <= x && x + q.length <= q.high
  {
  }

  lemma TrackStep(t0: Tables, rs: seq<Area>, t: Tables, qs: seq<Area>, ts: seq<Area>, q: Request, a: int, x: int)
    requires Tracked(rs, qs, t0.nrFree, q, a) && Trying(t0, rs, t, qs, q.low, q.high) && Greatest(qs, x, q)
    requires Canonical(rs, q.low, q.high) && q.length > 0 && KeptLow(t0.nrFree, qs, ts, x)
    requires MarkedUpTo(qs, ts, t0.nrFree, x, x + q.length) && MarksFlagged(rs, ts, t0.nrFree, q)
    ensures Tracked(rs, ts, t0.nrFree, q, a)
  {
    hide MarksFlagged, TriesOk, Limit, LowSame, Greatest, MarkedUpTo, KeptLow;
    WithinBounds(rs, q.low, q.high);
    hide Covers, Canonical, Marked, RegionOk;
    TriesStep(rs, qs, ts, t0.nrFree, q, a, x);
    LowStep(t0, rs, t, qs, ts, x, q);
  }

  /** The address found is where the tries lead to. */
  lemma TrackFound(rs: seq<Area>, qs: seq<Area>, nrFree: seq<nat>, q: Request, a: int, x: int)
    requires Tracked(rs, qs, nrFree, q, a) && q.length > 0
    requires Suits(rs, nrFree, x, q) && forall y :: Suits(rs, nrFree, y, q) ==> y <= x
    ensures x == a
  {
  }

  lemma TrackNone(rs: seq<Area>, qs: seq<Area>, nrFree: seq<nat>, q: Request, a: int)
    requires Tracked(rs, qs, nrFree, q, a) && forall x :: !Suits(rs, nrFree, x, q)
    ensures a == q.low - q.length
  {
  }

  lemma TrackSettled(t0: Tables, rs: seq<Area>, t: Tables, ms: seq<Area>, q: Request, a: int)
    requires Tracked(rs, ms, t0.nrFree, q, a) && Trying(t0, rs, t, ms, q.low, q.high) && PageWise(rs)
    requires Canonical(rs, q.low, q.high) && Canonical(ms, q.low, q.high) && q.length > 0 && q.length % PAGE_SIZE == 0
    requires forall x :: Feasible(ms, x, q) ==> x <= a
    ensures Settled(rs, ms, t0.nrFree, q, a)
  {
    hide MarksFlagged, TriesOk, Suits, FlagsBelow, PageWise, Feasible;
    WithinBounds(rs, q.low, q.high);
    WithinBounds(ms, q.low, q.high);
    hide Covers, Canonical;
    forall y | y < a + q.length ensures Covers(ms, y) <==> Covers(rs, y) {
      if Suits(rs, t0.nrFree, a, q) {
        BelowCovers(rs, ms, a + q.length, y);
      }
    }
  }

  lemma AllocFlagsDone(t0: Tables, rs: seq<Area>, t: Tables, ms: seq<Area>, us: seq<Area>, a: nat, q: Request,
      flags: nat)
    requires Trying(t0, rs, t, ms, q.low, q.high) && Greatest(ms, a, q) && Tracked(rs, ms, t0.nrFree, q, a)
    requires Canonical(rs, q.low, q.high) && Canonical(ms, q.low, q.high) && Canonical(us, q.low, q.high)
      && PageWise(rs)
    requires Suits(rs, t0.nrFree, a, q) && a % PAGE_SIZE == 0 && q.length % PAGE_SIZE == 0 && q.length > 0
    requires Adds(ms, us, a, a + q.length) && AddsFlags(ms, us, a, a + q.length, flags)
    ensures AllocatedFlags(rs, ms, us, t0.nrFree, a, q, flags)
  {
    hide FlagsBelow, FlagsAbove, Sorted, Suits, Covers, Marked, MarksFlagged, TriesOk, Limit, Canonical, PageWise,
      FreeRange, RangeTakes, TakesFlags, Kept, AllKeep, KeepsFlags, NextAgree, Settled, Flagged;
    CanonicalIsApart(ms, q.low, q.high);
    TopTouched(ms, q.low, a, q);
    TrackSettled(t0, rs, t, ms, q, a);
    KeptIff(rs, ms, us, t0.nrFree, q, a, flags);
    forall g ensures TakesFlags(ms, a, a + q.length, flags, g) <==> RangeTakes(rs, q, a, flags, g) {
      RangeTakesIff(rs, ms, t0.nrFree, q, a, flags, g);
    }
  }

  lemma NoneFlagsDone(t0: Tables, rs: seq<Area>, t: Tables, ms: seq<Area>, a: int, q: Request)
    requires Trying(t0, rs, t, ms, q.low, q.high) && Infeasible(ms, q) && Tracked(rs, ms, t0.nrFree, q, a)
    requires Canonical(rs, q.low, q.high) && Canonical(ms, q.low, q.high) && PageWise(rs)
    requires q.length % PAGE_SIZE == 0 && q.length > 0
    ensures MarkedFlags(rs, ms, t0.nrFree, q)
  {
    hide Covers, Marked, MarksFlagged, TriesOk, Canonical, PageWise, Kept, AllKeep, Settled, LowSame, Feasible,
      AddsFlags, Adds;
    TryNone(t0, rs, t, ms, q.low, q.high, q);
    TrackNone(rs, ms, t0.nrFree, q, a);
    TrackSettled(t0, rs, t, ms, q, a);
    KeptIff(rs, ms, ms, t0.nrFree, q, a, 0);
  }

  /** The flags ask for frames. */
  predicate Populates(flags: nat) { flags / POPULATE % 2 == 1 }

  /** Frames after an allocation of [a, end): no page of any process has one that had none,
      but the caller's pages from a up to f; nobody's frame has changed. Without being
      asked for frames none are given and the free ones are the same; asked for, some
      page stays without only if none is free any more. */
  ghost predicate Populated(t0: Tables, hs0: Blocks, t: Tables, hs: Blocks, pid: nat, a: nat, end: nat, f: nat,
      flags: nat) {
    && a <= f <= end && KeepsFrames(t0, t)
    && (forall q, y :: Key(q, y) ==> (IsFilled(t, q, y) <==> IsFilled(t0, q, y) || (q == pid && InRange(a, f, y))))
    && (Populates(flags) && f < end ==> hs == map[])
    && (!Populates(flags) ==> f == a && hs == hs0)
  }

  lemma PopulateDone(t0: Tables, rs: seq<Area>, t: Tables, ms: seq<Area>, hs: Blocks, t': Tables, hs': Blocks, pid: nat,
      a: nat, q: Request, f: nat, flags: nat)
    requires Trying(t0, rs, t, ms, q.low, q.high) && TablesSized(t) && Suits(rs, t0.nrFree, a, q)
    requires a <= f <= a + q.length && FillsRange(t, t', pid, a, f) && KeepsFrames(t, t')
    requires Populates(flags) && f < a + q.length ==> hs' == map[]
    requires !Populates(flags) ==> f == a && hs' == hs
    ensures Populated(t0, hs, t', hs', pid, a, a + q.length, f, flags)
  {
    hide TagFilled, TagFrame, HasTag, Covers, GenerateTag, Marked, Populates;
    forall y: nat | InRange(a, f, y) ensures t.nrFree[BucketIndex(y)] > 0 {
      assert PageOf(y) == y;
      assert !FullPage(t0.nrFree, PageOf(y));
    }
  }

  lemma AllocDone(t0: Tables, rs: seq<Area>, t: Tables, ts: seq<Area>, t': Tables, us: seq<Area>, pid: nat, a: nat,
      q: Request)
    requires TablesSized(t0) && TablesSized(t) && Trying(t0, rs, t, ts, q.low, q.high) && pid < NR_PIDS
    requires Adds(ts, us, a, a + q.length) && MapsRange(t, t', pid, a, a + q.length)
    requires a % PAGE_SIZE == 0 && q.length % PAGE_SIZE == 0
    requires Suits(rs, t0.nrFree, a, q) && forall x :: Suits(rs, t0.nrFree, x, q) ==> x <= a
    requires NoStray(t0, pid, rs, q.low, q.high)
    ensures Allocated(t0, rs, t', us, pid, a, q) && RegionOk(us, q.low, q.high) && NoStray(t', pid, us, q.low, q.high)
  {
    hide Covers, IsMapped;
    AddsPageWise(ts, us, a, a + q.length);
    SameMappings(t0, t);
    forall y: nat | InRange(a, a + q.length, y) ensures t.nrFree[BucketIndex(y)] > 0 {
      assert PageOf(y) == y;
      assert !FullPage(t0.nrFree, PageOf(y));
    }
    forall y: nat | q.low <= y < q.high && PageAddr(y) && !Covers(us, y) ensures !IsMapped(t', pid, y) {
      assert !Covers(rs, y);
      assert !IsMapped(t, pid, y);
    }
  }

  lemma SameMappings(t0: Tables, t: Tables)
    requires t == t0.(conflicts := t.conflicts, nrConflicts := t.nrConflicts)
    ensures forall q, y :: IsMapped(t, q, y) <==> IsMapped(t0, q, y)
  {
  }

  lemma StrayMarked(t0: Tables, rs: seq<Area>, t: Tables, ts: seq<Area>, pid: nat, lo: nat, hi: nat)
    requires Trying(t0, rs, t, ts, lo, hi) && NoStray(t0, pid, rs, lo, hi)
    ensures NoStray(t, pid, ts, lo, hi)
  {
    SameMappings(t0, t);
  }

  lemma RangeUnmapped(t: Tables, pid: nat, ts: seq<Area>, lo: nat, hi: nat, a: nat, len: nat)
    requires NoStray(t, pid, ts, lo, hi) && FreeRange(ts, a, len) && lo <= a && a + len <= hi
    ensures forall y :: InRange(a, a + len, y) ==> !IsMapped(t, pid, y)
  {
    forall y: nat | InRange(a, a + len, y) ensures !IsMapped(t, pid, y) {
      assert !Covers(ts, y);
    }
  }

  lemma TrySame(t0: Tables, rs: seq<Area>, t: Tables, qs: seq<Area>, lo: nat, hi: nat)
    requires Trying(t0, rs, t, qs, lo, hi)
    ensures t.fpga == t0.fpga && t.shadow == t0.shadow && t.nrFree == t0.nrFree && RegionOk(qs, lo, hi)
  {
  }

  lemma TryNone(t0: Tables, rs: seq<Area>, t: Tables, qs: seq<Area>, lo: nat, hi: nat, q: Request)
    requires Trying(t0, rs, t, qs, lo, hi) && Infeasible(qs, q)
    ensures forall x :: !Suits(rs, t0.nrFree, x, q)
  {
    NoneSuits(rs, qs, t0.nrFree, q);
  }

  /** The range a try found is one of whole pages. */
  lemma TryAddr(t0: Tables, rs: seq<Area>, t: Tables, qs: seq<Area>, lo: nat, hi: nat, a: nat, q: Request)
    requires Trying(t0, rs, t, qs, lo, hi) && Greatest(qs, a, q) && q.low == lo && q.high == hi
    requires q.length > 0 && q.length % PAGE_SIZE == 0
    ensures a % PAGE_SIZE == 0 && FreeRange(qs, a, q.length) && lo <= a && a + q.length <= hi
  {
    GreatestIsPage(qs, a, q);
  }

  /** Makes the range an area and sets its page table entries up. */
  method Commit(pt: PageTables, vi: VRegion, pid: nat, addr: nat, len: nat, flags: nat,
                ghost t0: Tables, ghost rs: seq<Area>, ghost q: Request) returns (ghost f: nat)
    requires pt.Valid() && vi.Valid() && pid < NR_PIDS && q == Request(len, vi.lo, vi.hi) && len > 0
    requires TablesSized(t0) && Trying(t0, rs, pt.t, vi.Areas(), vi.lo, vi.hi) && NoStray(t0, pid, rs, vi.lo, vi.hi)
    requires addr % PAGE_SIZE == 0 && len % PAGE_SIZE == 0 && vi.lo <= addr && addr + len <= vi.hi
    requires FreeRange(vi.Areas(), addr, len) && Greatest(vi.Areas(), addr, q)
    requires Tracked(rs, vi.Areas(), t0.nrFree, q, addr) && Canonical(rs, vi.lo, vi.hi) && PageWise(rs)
    requires Suits(rs, t0.nrFree, addr, q) && forall x :: Suits(rs, t0.nrFree, x, q) ==> x <= addr
    modifies pt, pt.buddy, vi, vi.tree
    ensures pt.Valid() && vi.Valid() && Allocated(t0, rs, pt.t, vi.Areas(), pid, addr, q)
    ensures AllocatedFlags(rs, old(vi.Areas()), vi.Areas(), t0.nrFree, addr, q, flags)
    ensures Populated(t0, old(pt.buddy.blocks), pt.t, pt.buddy.blocks, pid, addr, addr + len, f, flags)
    ensures RegionOk(vi.Areas(), vi.lo, vi.hi) && NoStray(pt.t, pid, vi.Areas(), vi.lo, vi.hi)
    ensures Conserved(old(pt.t.fpga), old(pt.buddy.blocks), pt.t.fpga, pt.buddy.blocks)
  {
    hide TablesOk, FramesOk, Buddy.FpgaZone.Valid, ListOk, Within, VmaIndex.Indexed, VmaIndex.Shaped, Sorted,
      Canonical, View,
      FreeRange, Inside, Overlapped, Adds, AddsFlags, AllocatedFlags, Trying, NoStray, Suits, Conserved, Allocated,
        MapsRange, IsMapped,
      InRange, Greatest, Tracked, PageWise, Added, EndBy, StartFrom, FillsRange, KeepsFrames, Populated;
    ghost var t, ts, hs := pt.t, vi.Areas(), pt.buddy.blocks;
    SizedOk(t, 0);
    TrySame(t0, rs, t, ts, vi.lo, vi.hi);
    StrayMarked(t0, rs, t, ts, pid, vi.lo, vi.hi);
    RangeUnmapped(t, pid, ts, vi.lo, vi.hi, addr, len);
    FreeApart(ts, vi.lo, vi.hi, addr, len);
    var r, released;
    ghost var ms, i;
    r, released, ms, i := vi.VmaTreeNew(addr, len, flags);
    AddedFlags(ms, vi.lo, vi.hi, i, addr, addr + len, flags);
    AllocFlagsDone(t0, rs, t, ts, vi.Areas(), addr, q, flags);
    f := pt.AllocPteRange(pid, addr, addr + len, Populates(flags));
    PopulateDone(t0, rs, t, ts, hs, pt.t, pt.buddy.blocks, pid, addr, q, f, flags);
    AllocDone(t0, rs, t, ts, pt.t, vi.Areas(), pid, addr, q);
  }

  lemma LengthOk(len: nat)
    requires len > 0
    ensures PageAlign(len) > 0 && PageAlign(len) % PAGE_SIZE == 0
  {
  }

  /** Finds the greatest suitable range, retrying as long as pages of the range found
      have no slot, and sets it up. Each retry covers pages, so there is an end to it.
      ms are the areas just before the range was added, and the pages from the address up
      to f have frames. */
  method AllocVa(pt: PageTables, vi: VRegion, pid: nat, len0: nat, flags: nat)
      returns (r: Option<nat>, ghost ms: seq<Area>, ghost f: nat)
    requires pt.Valid() && vi.Valid() && vi.topdown && pid < NR_PIDS && 0 < len0 <= VREGION_SIZE
    requires RegionOk(vi.Areas(), vi.lo, vi.hi) && NoStray(pt.t, pid, vi.Areas(), vi.lo, vi.hi)
    modifies pt, pt.buddy, vi, vi.tree
    ensures pt.Valid() && vi.Valid()
    ensures RegionOk(vi.Areas(), vi.lo, vi.hi) && NoStray(pt.t, pid, vi.Areas(), vi.lo, vi.hi)
    ensures Conserved(old(pt.t.fpga), old(pt.buddy.blocks), pt.t.fpga, pt.buddy.blocks)
    ensures r.None? ==> Trying(old(pt.t), old(vi.Areas()), pt.t, vi.Areas(), vi.lo, vi.hi)
    ensures r.None? ==> pt.buddy.blocks == old(pt.buddy.blocks)
    ensures r.Some? ==>
      Populated(old(pt.t), old(pt.buddy.blocks), pt.t, pt.buddy.blocks, pid, r.value, r.value + PageAlign(len0), f,
        flags)
    ensures r.None? ==>
      MarkedFlags(old(vi.Areas()), vi.Areas(), old(pt.t).nrFree, Request(PageAlign(len0), vi.lo, vi.hi))
    ensures r.None? ==> forall x :: !Suits(old(vi.Areas()), old(pt.t).nrFree, x, Request(PageAlign(len0), vi.lo, vi.hi))
    ensures r.Some? ==>
      Allocated(old(pt.t), old(vi.Areas()), pt.t, vi.Areas(), pid, r.value, Request(PageAlign(len0), vi.lo, vi.hi))
    ensures r.Some? ==>
      AllocatedFlags(old(vi.Areas()), ms, vi.Areas(), old(pt.t).nrFree, r.value,
        Request(PageAlign(len0), vi.lo, vi.hi), flags)
  {
    hide TablesOk, FramesOk, Buddy.FpgaZone.Valid, ListOk, Within, VmaIndex.Indexed, VmaIndex.Shaped, Sorted,
      Canonical, View,
      MarkedUpTo, FreeRange, FullPage, Inside, Adds, SomeFull, Greatest, Infeasible, Trying, NoStray, Suits, Conserved,
        Allocated,
      AllocatedFlags, MarkedFlags, Populated, Tracked, TryAt, MarksFlagged, KeptLow, PageWise, MapsRange, Uncovered,
        PageAlign, IsMapped, InRange, Recorded;
    ghost var t0, rs := pt.t, vi.Areas();
    var len := PageAlign(len0);
    ghost var q := Request(len, vi.lo, vi.hi);
    SizedOk(pt.t, 0);
    SameConserved(pt.t.fpga, pt.buddy.blocks);
    TryStart(t0, rs, vi.lo, vi.hi);
    LengthOk(len0);
    ghost var a := TrackStart(rs, t0.nrFree, q);
    while true
      invariant pt.Valid() && vi.Valid() && Trying(t0, rs, pt.t, vi.Areas(), vi.lo, vi.hi)
        && Tracked(rs, vi.Areas(), t0.nrFree, q, a)
      invariant pt.buddy.blocks == old(pt.buddy.blocks)
      decreases Uncovered(vi.Areas(), vi.hi)
    {
      ghost var t, qs := pt.t, vi.Areas();
      ms := qs;
      var found := vi.FindVaRange(len);
      StrayMarked(t0, rs, t, qs, pid, vi.lo, vi.hi);
      TrySame(t0, rs, t, qs, vi.lo, vi.hi);
      if found.None? {
        TryNone(t0, rs, t, qs, vi.lo, vi.hi, q);
        NoneFlagsDone(t0, rs, t, qs, a, q);
        return None, ms, 0;
      }
      var addr := found.value;
      TryAddr(t0, rs, t, qs, vi.lo, vi.hi, addr, q);
      RangeUnmapped(t, pid, qs, vi.lo, vi.hi, addr, len);
      TrackAt(t0, rs, t, qs, q, a, addr);
      var conflict := CheckAndInsertConflicts(pt, vi, pid, addr, len, rs, q);
      TryStep(t0, rs, t, qs, pt.t, vi.Areas(), vi.lo, vi.hi, addr, len);
      TrackStep(t0, rs, t, qs, vi.Areas(), q, a, addr);
      if !conflict {
        TryFound(t0, rs, t, qs, vi.lo, vi.hi, addr, q);
        TrackFound(rs, qs, t0.nrFree, q, a, addr);
        f := Commit(pt, vi, pid, addr, len, flags, t0, rs, q);
        return Some(addr), ms, f;
      }
    }
  }

  // ---- requests of no bytes

  lemma EmptyAtTop(rs: seq<Area>, lo: nat, hi: nat, a: int, i: nat)
    requires Sorted(rs, lo, hi) && lo <= hi && i <= |rs| && StartFrom(rs, i, hi) && Greatest(rs, a, Request(0, lo, hi))
    ensures a == hi && i == |rs| && !Inside(rs, hi, hi) && FreeRange(rs, hi, 0)
  {
    assert Feasible(rs, hi, Request(0, lo, hi));
    if i < |rs| {
      StartsBelow(rs, lo, hi, i);
    }
  }

  lemma StartsBelow(rs: seq<Area>, lo: nat, hi: nat, i: nat)
    requires Sorted(rs, lo, hi) && i < |rs|
    ensures !StartFrom(rs, i, hi)
  {
    assert rs[i].start < hi;
  }

  /** The same steps for a request of no bytes: it is granted the end of the vRegion,
      and the vRegion stays valid exactly if an area ends there already. */
  method AllocVaEmpty(pt: PageTables, vi: VRegion, pid: nat, flags: nat) returns (r: Option<nat>)
    requires pt.Valid() && vi.Valid() && vi.topdown && pid < NR_PIDS && RegionOk(vi.Areas(), vi.lo, vi.hi)
    modifies pt, pt.buddy, vi, vi.tree
    ensures pt.Valid() && r == Some(vi.hi) && TablesSized(old(pt.t)) && MapsRange(old(pt.t), pt.t, pid, vi.hi, vi.hi)
    ensures vi.Structured() && vi.Areas() == Added(old(vi.Areas()), |old(vi.Areas())|, vi.hi, vi.hi, flags)
    ensures vi.Valid() <==> TouchesPrev(old(vi.Areas()), |old(vi.Areas())|, vi.hi)
  {
    hide TablesOk, FramesOk, Buddy.FpgaZone.Valid, ListOk, Within, VmaIndex.Indexed, VmaIndex.Shaped, Sorted,
      Canonical, View,
      Inside, Adds, Greatest, Infeasible, Conserved, MapsRange, IsMapped, Recorded, MarkedUpTo, KeptLow, StartFrom,
        EndBy, Added,
      FreeRange, SomeFull, Without, Release, Overlapped, FillsRange, PageWise, FullPage, TouchesPrev, TouchesNext,
        RoomKept, Conserved;
    ghost var rs := vi.Areas();
    SizedOk(pt.t, 0);
    var found := vi.FindVaRange(0);
    NoneBehind(rs, vi.lo, vi.hi);
    assert found.Some?;
    EmptyAtTop(rs, vi.lo, vi.hi, found.value, |rs|);
    NoneFullYet(pt.t.nrFree, vi.hi);
    var conflict := CheckAndInsertConflicts(pt, vi, pid, found.value, 0, rs, Request(0, vi.lo, vi.hi));
    assert !conflict;
    EmptyInside(rs, vi.hi);
    var released;
    ghost var ms, i;
    r, released, ms, i := vi.VmaTreeNew(found.value, 0, flags);
    EmptyAtTop(rs, vi.lo, vi.hi, found.value, i);
    NoneTouched(rs, |rs|, vi.hi);
    ghost var us := vi.Areas();
    assert ms == rs && i == |rs| && us == Added(rs, |rs|, vi.hi, vi.hi, flags);
    ghost var filled := pt.AllocPteRange(pid, vi.hi, vi.hi, Populates(flags));
  }

  /** In an empty vRegion it leaves an area without addresses. */
  lemma EmptyArea(lo: nat, hi: nat, flags: nat)
    requires lo <= hi
    ensures Canonical([], lo, hi) && Added([], 0, hi, hi, flags) == [Area(hi, hi, flags)]
    ensures !Canonical(Added([], 0, hi, hi, flags), lo, hi)
  {
    AddedCanonicalIff([], lo, hi, 0, hi, hi, flags);
  }

  lemma NoneTouched(rs: seq<Area>, i: nat, end: nat)
    requires |rs| <= i
    ensures !TouchesNext(rs, i, end)
  {
  }

  lemma NoneBehind(rs: seq<Area>, lo: nat, hi: nat)
    requires lo <= hi
    ensures StartFrom(rs, |rs|, hi) && !Infeasible(rs, Request(0, lo, hi))
  {
    assert Feasible(rs, hi, Request(0, lo, hi));
  }
}
