/** Sequences of areas as sets of addresses. */
module VmaSpec {
  import opened VmaList

  ghost predicate Covers(rs: seq<Area>, a: int) {
    exists i :: 0 <= i < |rs| && rs[i].start <= a < rs[i].end
  }

  /** Address a belongs to an area with flags f. */
  ghost predicate Flagged(rs: seq<Area>, a: int, f: nat) {
    exists i :: 0 <= i < |rs| && rs[i].start <= a < rs[i].end && rs[i].flags == f
  }

  /** Areas are non-empty, inside [lo, hi), in order and do not overlap. */
  ghost predicate Sorted(rs: seq<Area>, lo: nat, hi: nat) {
    && (forall i :: 0 <= i < |rs| ==> lo <= rs[i].start < rs[i].end <= hi)
    && (forall i, j :: 0 <= i < j < |rs| ==> rs[i].end <= rs[j].start)
  }

  /** No two areas touch either: each is a maximal run of covered addresses. */
  ghost predicate Canonical(rs: seq<Area>, lo: nat, hi: nat) {
    && (forall i :: 0 <= i < |rs| ==> lo <= rs[i].start < rs[i].end <= hi)
    && (forall i, j :: 0 <= i < j < |rs| ==> rs[i].end < rs[j].start)
  }

  function HighestEnd(rs: seq<Area>): nat { if rs == [] then 0 else rs[|rs| - 1].end }

  /** Only one canonical sequence covers a given set of addresses. */
  lemma {:induction false} CanonicalUnique(rs: seq<Area>, qs: seq<Area>, lo: nat, hi: nat)
    requires Canonical(rs, lo, hi) && Canonical(qs, lo, hi)
    requires forall a :: Covers(rs, a) <==> Covers(qs, a)
    ensures |rs| == |qs|
    ensures forall i :: 0 <= i < |rs| ==> rs[i].start == qs[i].start && rs[i].end == qs[i].end
    decreases |rs|
  {
    if rs == [] {
      assert forall i :: 0 <= i < |qs| ==> Covers(qs, qs[i].start);
    } else {
      assert Covers(rs, rs[0].start);
      CanonicalHead(rs, qs, lo, hi);
      forall a ensures Covers(rs[1..], a) <==> Covers(qs[1..], a) {
        CoversRest(rs, lo, hi, a);
        CoversRest(qs, lo, hi, a);
      }
      CanonicalUnique(rs[1..], qs[1..], lo, hi);
    }
  }

  lemma CanonicalHead(rs: seq<Area>, qs: seq<Area>, lo: nat, hi: nat)
    requires Canonical(rs, lo, hi) && Canonical(qs, lo, hi) && rs != []
    requires forall a :: Covers(rs, a) <==> Covers(qs, a)
    ensures qs != [] && rs[0].start == qs[0].start && rs[0].end == qs[0].end
  {
    assert Covers(rs, rs[0].start);
    assert Covers(qs, qs[0].start);
    assert Covers(rs, rs[0].end - 1);
    assert Covers(qs, qs[0].end - 1);
    assert Covers(qs, rs[0].end) <==> Covers(rs, rs[0].end);
    assert Covers(qs, qs[0].end) <==> Covers(rs, qs[0].end);
  }

  lemma CoversRest(rs: seq<Area>, lo: nat, hi: nat, a: int)
    requires Canonical(rs, lo, hi) && rs != []
    ensures Covers(rs[1..], a) <==> Covers(rs, a) && a >= rs[0].end
  {
    if Covers(rs[1..], a) {
      var i :| 0 <= i < |rs[1..]| && rs[1..][i].start <= a < rs[1..][i].end;
      assert rs[1..][i] == rs[i + 1];
    }
    if Covers(rs, a) && a >= rs[0].end {
      var i :| 0 <= i < |rs| && rs[i].start <= a < rs[i].end;
      assert rs[1..][i - 1] == rs[i];
    }
  }

  // ---- free ranges

  ghost predicate FreeRange(rs: seq<Area>, a: int, len: int) {
    forall x :: a <= x < a + len ==> !Covers(rs, x)
  }

  /** A free range lies in the gap before some area or behind the last. */
  lemma FreeInGap(rs: seq<Area>, lo: nat, hi: nat, a: int, len: int) returns (i: nat)
    requires Sorted(rs, lo, hi) && FreeRange(rs, a, len) && len > 0
    ensures i <= |rs| && (i > 0 ==> rs[i - 1].end <= a) && (i < |rs| ==> a + len <= rs[i].start)
  {
    i := 0;
    while i < |rs| && rs[i].end <= a
      invariant i <= |rs| && (i > 0 ==> rs[i - 1].end <= a)
    {
      i := i + 1;
    }
    if i < |rs| && a + len > rs[i].start {
      var x := if rs[i].start <= a then a else rs[i].start;
      assert Covers(rs, x);
      assert false;
    }
  }

  /** And a range in a gap is free. */
  lemma GapIsFree(rs: seq<Area>, lo: nat, hi: nat, i: nat, a: int, len: int)
    requires Sorted(rs, lo, hi) && i <= |rs| && (i > 0 ==> rs[i - 1].end <= a) && (i < |rs| ==> a + len <= rs[i].start)
    ensures FreeRange(rs, a, len)
  {
  }

  // ---- places in the order

  /** The first i areas end at addr or before. */
  ghost predicate EndBy(rs: seq<Area>, i: int, addr: int) {
    forall j :: 0 <= j < i && j < |rs| ==> rs[j].end <= addr
  }

  /** The areas from i on start at end or behind. */
  ghost predicate StartFrom(rs: seq<Area>, i: int, end: int) {
    forall j :: i <= j < |rs| && 0 <= j ==> end <= rs[j].start
  }

  ghost predicate Overlapped(rs: seq<Area>, addr: int, end: int) {
    exists j :: 0 <= j < |rs| && addr < rs[j].end && rs[j].start < end
  }

  lemma EndByNone(rs: seq<Area>, addr: int)
    ensures EndBy(rs, 0, addr)
  {
  }

  lemma EndByNext(rs: seq<Area>, lo: nat, hi: nat, k: nat, addr: int)
    requires Sorted(rs, lo, hi) && k < |rs| && rs[k].end <= addr
    ensures EndBy(rs, k + 1, addr)
  {
  }

  lemma EndByStart(rs: seq<Area>, lo: nat, hi: nat, k: nat, addr: int)
    requires Sorted(rs, lo, hi) && k < |rs| && rs[k].start <= addr
    ensures EndBy(rs, k, addr)
  {
  }

  lemma StartFromNone(rs: seq<Area>, end: int)
    ensures StartFrom(rs, |rs|, end)
  {
  }

  lemma StartFromNext(rs: seq<Area>, lo: nat, hi: nat, k: nat, end: int)
    requires Sorted(rs, lo, hi) && k < |rs| && end <= rs[k].start
    ensures StartFrom(rs, k, end)
  {
  }

  lemma OverlapFound(rs: seq<Area>, k: nat, addr: int, end: int)
    requires k < |rs| && addr < rs[k].end && rs[k].start < end
    ensures Overlapped(rs, addr, end)
  {
  }

  lemma NoOverlap(rs: seq<Area>, i: nat, addr: int, end: int)
    requires EndBy(rs, i, addr) && StartFrom(rs, i, end)
    ensures !Overlapped(rs, addr, end)
  {
  }

  /** Overlapping an area is the same as containing one of its addresses. */
  lemma OverlappedIsCovered(rs: seq<Area>, lo: nat, hi: nat, addr: int, end: int)
    requires Sorted(rs, lo, hi) && addr < end
    ensures Overlapped(rs, addr, end) <==> !FreeRange(rs, addr, end - addr)
  {
    if Overlapped(rs, addr, end) {
      var j :| 0 <= j < |rs| && addr < rs[j].end && rs[j].start < end;
      assert Covers(rs, if rs[j].start <= addr then addr else rs[j].start);
    }
  }

  /** An area that fits between others overlaps none. */
  lemma FitsBetween(rs: seq<Area>, lo: nat, hi: nat, i: nat, r: Area)
    requires i <= |rs| && Sorted(Inserted(rs, i, r), lo, hi)
    ensures EndBy(rs, i, r.start) && StartFrom(rs, i, r.end) && !Overlapped(rs, r.start, r.end) && r.start < r.end
  {
    var qs := Inserted(rs, i, r);
    assert qs[i] == r;
    forall j | 0 <= j < |rs| ensures if j < i then rs[j].end <= r.start else r.end <= rs[j].start {
      assert qs[if j < i then j else j + 1] == rs[j];
    }
  }

  /** There is one place for it. */
  lemma PlaceUnique(rs: seq<Area>, lo: nat, hi: nat, i: nat, j: nat, addr: int, end: int)
    requires Sorted(rs, lo, hi) && i <= |rs| && j <= |rs| && addr < end
    requires EndBy(rs, i, addr) && StartFrom(rs, i, end) && EndBy(rs, j, addr) && StartFrom(rs, j, end)
    ensures i == j
  {
    assert i < |rs| ==> rs[i].start < rs[i].end;
    assert j < |rs| ==> rs[j].start < rs[j].end;
  }

  // ---- splitting

  function SplitAt(rs: seq<Area>, i: nat, addr: nat): seq<Area>
    requires i < |rs|
  {
    rs[..i] + [rs[i].(end := addr), rs[i].(start := addr)] + rs[i + 1..]
  }

  lemma SplitIndex(rs: seq<Area>, i: nat, addr: nat, k: nat)
    requires i < |rs| && k <= |rs|
    ensures |SplitAt(rs, i, addr)| == |rs| + 1
    ensures SplitAt(rs, i, addr)[k] == if k < i then rs[k] else if k == i then rs[i].(end := addr)
                                       else if k == i + 1 then rs[i].(start := addr) else rs[k - 1]
  {
  }

  lemma SplitSorted(rs: seq<Area>, lo: nat, hi: nat, i: nat, addr: nat)
    requires Sorted(rs, lo, hi) && i < |rs| && rs[i].start < addr < rs[i].end
    ensures Sorted(SplitAt(rs, i, addr), lo, hi)
    ensures Sorted(rs[i := rs[i].(end := addr)], lo, hi) && Sorted(rs[i := rs[i].(start := addr)], lo, hi)
  {
    hide SplitAt;
    var qs := SplitAt(rs, i, addr);
    SplitIndex(rs, i, addr, 0);
    forall k | 0 <= k < |qs| ensures lo <= qs[k].start < qs[k].end <= hi {
      SplitIndex(rs, i, addr, k);
    }
    forall j, k | 0 <= j < k < |qs| ensures qs[j].end <= qs[k].start {
      SplitIndex(rs, i, addr, j);
      SplitIndex(rs, i, addr, k);
    }
  }

  lemma SplitParts(rs: seq<Area>, i: nat, addr: nat)
    requires i < |rs|
    ensures Inserted(rs[i := rs[i].(end := addr)], i + 1, rs[i].(start := addr)) == SplitAt(rs, i, addr)
    ensures Inserted(rs[i := rs[i].(start := addr)], i, rs[i].(end := addr)) == SplitAt(rs, i, addr)
  {
  }

  /** A split moves no address to another area's flags. */
  lemma SplitFlags(rs: seq<Area>, i: nat, addr: nat, a: int, f: nat)
    requires i < |rs| && rs[i].start < addr < rs[i].end
    ensures Flagged(SplitAt(rs, i, addr), a, f) <==> Flagged(rs, a, f)
  {
    hide SplitAt;
    var qs := SplitAt(rs, i, addr);
    SplitIndex(rs, i, addr, 0);
    if Flagged(rs, a, f) {
      var j :| 0 <= j < |rs| && rs[j].start <= a < rs[j].end && rs[j].flags == f;
      var k := if j < i || (j == i && a < addr) then j else j + 1;
      SplitIndex(rs, i, addr, k);
      assert qs[k].start <= a < qs[k].end && qs[k].flags == f;
    }
    if Flagged(qs, a, f) {
      var k :| 0 <= k < |qs| && qs[k].start <= a < qs[k].end && qs[k].flags == f;
      SplitIndex(rs, i, addr, k);
      var j := if k <= i then k else k - 1;
      assert rs[j].start <= a < rs[j].end && rs[j].flags == f;
    }
  }

  // ---- merging

  /** Areas i and i + 1 and what is between them as one. */
  function Joined(rs: seq<Area>, i: nat): seq<Area>
    requires i + 1 < |rs|
  {
    rs[..i] + [rs[i].(end := rs[i + 1].end)] + rs[i + 2..]
  }

  lemma JoinedParts(rs: seq<Area>, lo: nat, hi: nat, i: nat)
    requires Sorted(rs, lo, hi) && i + 1 < |rs|
    ensures rs[i].end < rs[i + 1].end
    ensures Removed(rs[i := rs[i].(end := rs[i + 1].end)], i + 1, i + 2) == Joined(rs, i)
    ensures HighestEnd(Joined(rs, i)) == HighestEnd(rs)
  {
  }

  lemma JoinedIndex(rs: seq<Area>, i: nat, k: nat)
    requires i + 1 < |rs| && k + 1 < |rs|
    ensures |Joined(rs, i)| == |rs| - 1
    ensures Joined(rs, i)[k] == if k < i then rs[k] else if k == i then rs[i].(end := rs[i + 1].end) else rs[k + 1]
  {
  }

  lemma JoinedSorted(rs: seq<Area>, lo: nat, hi: nat, i: nat)
    requires Sorted(rs, lo, hi) && i + 1 < |rs|
    ensures Sorted(Joined(rs, i), lo, hi)
  {
    hide Joined;
    var qs := Joined(rs, i);
    JoinedIndex(rs, i, 0);
    forall k | 0 <= k < |qs| ensures lo <= qs[k].start < qs[k].end <= hi {
      JoinedIndex(rs, i, k);
    }
    forall j, k | 0 <= j < k < |qs| ensures qs[j].end <= qs[k].start {
      JoinedIndex(rs, i, j);
      JoinedIndex(rs, i, k);
    }
  }

  /** Area i may become [start, end): one bound moves outwards into free space, or
      the end moves to that of the next area, which is then swallowed. */
  ghost predicate Adjustable(rs: seq<Area>, lo: nat, hi: nat, i: nat, start: nat, end: nat) {
    && i < |rs| && end >= rs[i].end
    && if i + 1 < |rs| && end == rs[i + 1].end then start == rs[i].start
       else (start == rs[i].start || end == rs[i].end) && Sorted(rs[i := Area(start, end, rs[i].flags)], lo, hi)
  }

  function Adjusted(rs: seq<Area>, i: nat, start: nat, end: nat): seq<Area>
    requires i < |rs|
  {
    if i + 1 < |rs| && end == rs[i + 1].end then Joined(rs, i) else rs[i := Area(start, end, rs[i].flags)]
  }

  /** Swallowing, the mprotect cases aside, is decided by one comparison. */
  lemma AdjustCases(rs: seq<Area>, lo: nat, hi: nat, i: nat, start: nat, end: nat)
    requires Sorted(rs, lo, hi) && Adjustable(rs, lo, hi, i, start, end)
    ensures i + 1 < |rs| ==> (end >= rs[i + 1].end <==> end == rs[i + 1].end)
    ensures i + 1 < |rs| && end != rs[i + 1].end ==> end <= rs[i + 1].start
  {
    if i + 1 < |rs| && end != rs[i + 1].end {
      var qs := rs[i := Area(start, end, rs[i].flags)];
      assert qs[i].end <= qs[i + 1].start;
    }
  }

  /** The areas after [addr, end) was merged with the neighbours it touches, if any. */
  function Merged(rs: seq<Area>, i: nat, addr: nat, end: nat): seq<Area>
    requires i <= |rs|
  {
    if TouchesPrev(rs, i, addr) then
      if TouchesNext(rs, i, end) then Joined(rs, i - 1) else rs[i - 1 := rs[i - 1].(end := end)]
    else if TouchesNext(rs, i, end) then rs[i := rs[i].(start := addr)]
    else rs
  }

  predicate TouchesPrev(rs: seq<Area>, i: nat, addr: nat) { 0 < i <= |rs| && rs[i - 1].end == addr }

  predicate TouchesNext(rs: seq<Area>, i: nat, end: nat) { i < |rs| && rs[i].start == end }

  /** Each merge is a permitted adjustment. */
  lemma MergeAdjusts(rs: seq<Area>, lo: nat, hi: nat, i: nat, addr: nat, end: nat)
    requires Sorted(rs, lo, hi) && i <= |rs| && EndBy(rs, i, addr) && StartFrom(rs, i, end) && lo <= addr <= end <= hi
    ensures TouchesPrev(rs, i, addr) ==>
              var e := if TouchesNext(rs, i, end) then rs[i].end else end;
              && Adjustable(rs, lo, hi, i - 1, rs[i - 1].start, e)
              && Adjusted(rs, i - 1, rs[i - 1].start, e) == Merged(rs, i, addr, end)
    ensures !TouchesPrev(rs, i, addr) && TouchesNext(rs, i, end) ==>
              && Adjustable(rs, lo, hi, i, addr, rs[i].end)
              && Adjusted(rs, i, addr, rs[i].end) == Merged(rs, i, addr, end)
    ensures i < |rs| ==> rs[i].end != end
    ensures i > 0 ==> addr >= rs[i - 1].end
  {
    hide Joined;
    assert i > 0 ==> rs[i - 1].end <= addr;
    assert i < |rs| ==> end <= rs[i].start;
  }

  // ---- removing

  lemma RemovedAreas(rs: seq<Area>, lo: nat, hi: nat, i: nat, j: nat)
    requires Sorted(rs, lo, hi) && i <= j <= |rs|
    ensures Sorted(Removed(rs, i, j), lo, hi)
    ensures HighestEnd(Removed(rs, i, j)) == if j < |rs| then HighestEnd(rs) else if i > 0 then rs[i - 1].end else 0
  {
  }

  // ---- unmapping [start, end)

  const CONFLICT: nat := 8

  /** Areas backed by page table entries. */
  function Real(rs: seq<Area>): seq<Area> {
    if rs == [] then []
    else Real(rs[..|rs| - 1]) + if rs[|rs| - 1].flags != CONFLICT then [rs[|rs| - 1]] else []
  }

  ghost predicate SameFlags(rs: seq<Area>, qs: seq<Area>) {
    forall a, f :: Flagged(rs, a, f) <==> Flagged(qs, a, f)
  }

  /** qs is rs without the addresses from start up to end. */
  ghost predicate Without(rs: seq<Area>, qs: seq<Area>, start: int, end: int) {
    forall a, f :: Flagged(qs, a, f) <==> Flagged(rs, a, f) && !(start <= a < end)
  }

  /** ps is what rs has of the addresses from start up to end, conflict marks aside. */
  ghost predicate Release(rs: seq<Area>, ps: seq<Area>, start: int, end: int) {
    forall a, f :: Flagged(ps, a, f) <==> Flagged(rs, a, f) && start <= a < end && f != CONFLICT
  }

  /** The range lies strictly inside one area. */
  ghost predicate Inside(rs: seq<Area>, start: int, end: int) {
    exists i :: 0 <= i < |rs| && rs[i].start < start && end < rs[i].end
  }

  /** No two of the areas from i up to j touch. */
  ghost predicate ApartIn(rs: seq<Area>, i: int, j: int) {
    forall k, l :: 0 <= i <= k < l < j <= |rs| ==> rs[k].end < rs[l].start
  }

  lemma CanonicalIsApart(rs: seq<Area>, lo: nat, hi: nat)
    ensures Canonical(rs, lo, hi) <==> Sorted(rs, lo, hi) && ApartIn(rs, 0, |rs|)
  {
  }

  lemma SplitApart(rs: seq<Area>, i: nat, addr: nat, a: nat, b: nat)
    requires i < |rs| && rs[i].start < addr < rs[i].end && a <= b <= |rs| && ApartIn(rs, a, b)
    ensures a <= i ==> ApartIn(SplitAt(rs, i, addr), a, if i < b then i + 1 else b)
    ensures i < b ==> ApartIn(SplitAt(rs, i, addr), if a <= i then i + 1 else a + 1, b + 1)
  {
    hide SplitAt;
    var qs := SplitAt(rs, i, addr);
    SplitIndex(rs, i, addr, 0);
    forall k, l | 0 <= k < l < |qs| && (l <= i || i < k) && a <= (if k <= i then k else k - 1)
      && (if l <= i then l else l - 1) < b
      ensures qs[k].end < qs[l].start
    {
      SplitIndex(rs, i, addr, k);
      SplitIndex(rs, i, addr, l);
      assert rs[if k <= i then k else k - 1].end < rs[if l <= i then l else l - 1].start;
    }
  }

  /** Nothing overlaps, so nothing changes. */
  lemma NothingToFree(rs: seq<Area>, lo: nat, hi: nat, i: nat, start: int, end: int)
    requires Sorted(rs, lo, hi) && EndBy(rs, i, start) && StartFrom(rs, i, end) && start < end
    ensures Without(rs, rs, start, end) && Release(rs, [], start, end) && !Inside(rs, start, end)
  {
  }

  /** Areas i up to j are what lies between start and end. */
  ghost predicate Between(rs: seq<Area>, i: nat, j: nat, start: int, end: int) {
    && i < j <= |rs| && EndBy(rs, i, start) && StartFrom(rs, i, start) && EndBy(rs, j, end) && StartFrom(rs, j, end)
  }

  lemma TakeOutBetween(rs: seq<Area>, i: nat, j: nat, start: int, end: int)
    requires Between(rs, i, j, start, end)
    ensures Without(rs, Removed(rs, i, j), start, end) && Release(rs, Real(rs[i..j]), start, end)
  {
    forall a, f ensures Flagged(Removed(rs, i, j), a, f) <==> Flagged(rs, a, f) && !(start <= a < end) {
      RemovedFlags(rs, i, j, start, end, a, f);
    }
    forall a, f ensures Flagged(Real(rs[i..j]), a, f) <==> Flagged(rs, a, f) && start <= a < end && f != CONFLICT {
      RealFlags(rs[i..j], a, f);
      BetweenFlags(rs, i, j, start, end, a, f);
    }
  }

  lemma RemovedFlags(rs: seq<Area>, i: nat, j: nat, start: int, end: int, a: int, f: nat)
    requires Between(rs, i, j, start, end)
    ensures Flagged(Removed(rs, i, j), a, f) <==> Flagged(rs, a, f) && !(start <= a < end)
  {
    var qs := Removed(rs, i, j);
    if Flagged(qs, a, f) {
      var k :| 0 <= k < |qs| && qs[k].start <= a < qs[k].end && qs[k].flags == f;
      assert qs[k] == rs[if k < i then k else k + j - i];
    }
    if Flagged(rs, a, f) && !(start <= a < end) {
      var k :| 0 <= k < |rs| && rs[k].start <= a < rs[k].end && rs[k].flags == f;
      assert qs[if k < i then k else k - (j - i)] == rs[k];
    }
  }

  lemma BetweenFlags(rs: seq<Area>, i: nat, j: nat, start: int, end: int, a: int, f: nat)
    requires Between(rs, i, j, start, end)
    ensures Flagged(rs[i..j], a, f) <==> Flagged(rs, a, f) && start <= a < end
  {
    var qs := rs[i..j];
    if Flagged(qs, a, f) {
      var k :| 0 <= k < |qs| && qs[k].start <= a < qs[k].end && qs[k].flags == f;
      assert qs[k] == rs[k + i];
    }
    if Flagged(rs, a, f) && start <= a < end {
      var k :| 0 <= k < |rs| && rs[k].start <= a < rs[k].end && rs[k].flags == f;
      assert qs[k - i] == rs[k];
    }
  }

  lemma {:induction false} RealFlags(rs: seq<Area>, a: int, f: nat)
    ensures Flagged(Real(rs), a, f) <==> Flagged(rs, a, f) && f != CONFLICT
    decreases |rs|
  {
    if rs != [] {
      var n := |rs| - 1;
      RealFlags(rs[..n], a, f);
      assert rs == rs[..n] + [rs[n]];
      FlaggedJoin(rs[..n], [rs[n]], a, f);
      FlaggedJoin(Real(rs[..n]), if rs[n].flags != CONFLICT then [rs[n]] else [], a, f);
      assert Flagged([rs[n]], a, f) <==> [rs[n]][0].start <= a < [rs[n]][0].end && [rs[n]][0].flags == f;
    }
  }

  lemma FlaggedJoin(rs: seq<Area>, qs: seq<Area>, a: int, f: nat)
    ensures Flagged(rs + qs, a, f) <==> Flagged(rs, a, f) || Flagged(qs, a, f)
  {
    if Flagged(rs, a, f) {
      var k :| 0 <= k < |rs| && rs[k].start <= a < rs[k].end && rs[k].flags == f;
      assert (rs + qs)[k] == rs[k];
    }
    if Flagged(qs, a, f) {
      var k :| 0 <= k < |qs| && qs[k].start <= a < qs[k].end && qs[k].flags == f;
      assert (rs + qs)[|rs| + k] == qs[k];
    }
  }

  /** What stays is apart if both sides of the run were. */
  lemma RemovedApart(rs: seq<Area>, lo: nat, hi: nat, i: nat, j: nat, start: int, end: int)
    requires Between(rs, i, j, start, end) && Sorted(rs, lo, hi) && start < end && ApartIn(rs, 0, i)
      && ApartIn(rs, j, |rs|)
    ensures Canonical(Removed(rs, i, j), lo, hi)
  {
    var qs := Removed(rs, i, j);
    assert forall k :: 0 <= k < |qs| ==> qs[k] == rs[if k < i then k else k + j - i];
  }

  /** A cut at start: area i + 1 of the result begins there. */
  lemma CutAtFront(rs: seq<Area>, lo: nat, hi: nat, i: nat, start: nat)
    requires Canonical(rs, lo, hi) && i < |rs| && rs[i].start < start < rs[i].end
    ensures var qs := SplitAt(rs, i, start);
            && SameFlags(rs, qs) && |qs| == |rs| + 1 && EndBy(qs, i + 1, start) && StartFrom(qs, i + 1, start)
            && qs[i + 1].start == start && ApartIn(qs, 0, i + 1) && ApartIn(qs, i + 1, |qs|)
  {
    hide SplitAt, Flagged;
    var qs := SplitAt(rs, i, start);
    forall a, f ensures Flagged(rs, a, f) <==> Flagged(qs, a, f) {
      SplitFlags(rs, i, start, a, f);
    }
    SplitIndex(rs, i, start, 0);
    forall k | 0 <= k < |qs| ensures if k <= i then qs[k].end <= start else start <= qs[k].start {
      SplitIndex(rs, i, start, k);
    }
    SplitIndex(rs, i, start, i + 1);
    CanonicalIsApart(rs, lo, hi);
    SplitApart(rs, i, start, 0, |rs|);
  }

  /** No cut is needed when the first area does not reach below start. */
  lemma NoCutAtFront(rs: seq<Area>, lo: nat, hi: nat, i: nat, start: nat)
    requires Canonical(rs, lo, hi) && i < |rs| && start <= rs[i].start && EndBy(rs, i, start)
    ensures SameFlags(rs, rs) && StartFrom(rs, i, start) && ApartIn(rs, 0, i) && ApartIn(rs, i, |rs|)
  {
  }

  /** The areas from i on begin at start or behind; those on either side of i are apart. */
  ghost predicate Fronted(rs: seq<Area>, i: nat, start: int, end: int) {
    && i < |rs| && EndBy(rs, i, start) && StartFrom(rs, i, start) && rs[i].start < end && start < end
    && ApartIn(rs, 0, i) && ApartIn(rs, i, |rs|)
  }

  lemma CutAtBack(rs: seq<Area>, lo: nat, hi: nat, i: nat, l: nat, start: nat, end: nat)
    requires Sorted(rs, lo, hi) && Fronted(rs, i, start, end)
    requires l < |rs| && EndBy(rs, l, end) && rs[l].start < end < rs[l].end
    ensures i <= l
    ensures var qs := SplitAt(rs, l, end);
            SameFlags(rs, qs) && Between(qs, i, l + 1, start, end) && ApartIn(qs, 0, i) && ApartIn(qs, l + 1, |qs|)
  {
    hide SplitAt, Flagged;
    var qs := SplitAt(rs, l, end);
    forall a, f ensures Flagged(rs, a, f) <==> Flagged(qs, a, f) {
      SplitFlags(rs, l, end, a, f);
    }
    SplitIndex(rs, l, end, 0);
    forall k | 0 <= k < |qs|
      ensures if k < i then qs[k].end <= start else start <= qs[k].start
      ensures if k <= l then qs[k].end <= end else end <= qs[k].start
      ensures k < i ==> qs[k] == rs[k]
    {
      SplitIndex(rs, l, end, k);
    }
    SplitApart(rs, l, end, i, |rs|);
  }

  lemma NoCutAtBack(rs: seq<Area>, lo: nat, hi: nat, i: nat, l: nat, start: nat, end: nat)
    requires Sorted(rs, lo, hi) && Fronted(rs, i, start, end)
    requires l <= |rs| && EndBy(rs, l, end) && (l < |rs| ==> rs[l].start >= end)
    ensures SameFlags(rs, rs) && Between(rs, i, l, start, end) && ApartIn(rs, l, |rs|)
  {
  }

  lemma FreedFlags(rs: seq<Area>, ms: seq<Area>, qs: seq<Area>, ts: seq<Area>, ps: seq<Area>, start: int, end: int)
    requires SameFlags(rs, ms) && SameFlags(ms, qs)
    requires Without(qs, ts, start, end) && Release(qs, ps, start, end)
    ensures Without(rs, ts, start, end) && Release(rs, ps, start, end)
  {
    hide Flagged;
  }

  lemma StartBehind(rs: seq<Area>, lo: nat, hi: nat, i: nat, end: int)
    requires Sorted(rs, lo, hi) && i <= |rs| && (i < |rs| ==> rs[i].start >= end)
    ensures StartFrom(rs, i, end)
  {
  }

  /** Only the first area that ends behind start can contain the range. */
  lemma InsideIff(rs: seq<Area>, lo: nat, hi: nat, i: nat, start: int, end: int)
    requires Sorted(rs, lo, hi) && i < |rs| && EndBy(rs, i, start) && rs[i].end > start && start < end
    ensures Inside(rs, start, end) <==> rs[i].start < start && end < rs[i].end
  {
  }

  // ---- adding [addr, end)

  /** The areas after [addr, end) was added behind the first i: taken over by the
      neighbours it touches, or else a new area. */
  function Added(rs: seq<Area>, i: nat, addr: nat, end: nat, flags: nat): seq<Area>
    requires i <= |rs|
  {
    if TouchesPrev(rs, i, addr) || TouchesNext(rs, i, end) then Merged(rs, i, addr, end)
    else Inserted(rs, i, Area(addr, end, flags))
  }

  lemma AddedIndex(rs: seq<Area>, i: nat, addr: nat, end: nat, flags: nat, k: nat)
    requires i <= |rs| && k < |Added(rs, i, addr, end, flags)|
    ensures var p, n := TouchesPrev(rs, i, addr), TouchesNext(rs, i, end); var q := Added(rs, i, addr, end, flags)[k];
            if p && n then
              |Added(rs, i, addr, end, flags)| == |rs| - 1
              && q == if k + 1 < i then rs[k] else if k + 1 == i then rs[i - 1].(end := rs[i].end) else rs[k + 1]
            else if p then
              |Added(rs, i, addr, end, flags)| == |rs| && q == if k + 1 == i then rs[k].(end := end) else rs[k]
            else if n then
              |Added(rs, i, addr, end, flags)| == |rs| && q == if k == i then rs[k].(start := addr) else rs[k]
            else
              |Added(rs, i, addr, end, flags)| == |rs| + 1
              && q == if k < i then rs[k] else if k == i then Area(addr, end, flags) else rs[k - 1]
  {
  }

  lemma AddedCanonical(rs: seq<Area>, lo: nat, hi: nat, i: nat, addr: nat, end: nat, flags: nat)
    requires Canonical(rs, lo, hi) && i <= |rs| && EndBy(rs, i, addr) && StartFrom(rs, i, end) && lo <= addr < end <= hi
    ensures Canonical(Added(rs, i, addr, end, flags), lo, hi)
  {
    hide Added;
    var qs := Added(rs, i, addr, end, flags);
    forall k | 0 <= k < |qs| ensures lo <= qs[k].start < qs[k].end <= hi {
      AddedIndex(rs, i, addr, end, flags, k);
    }
    forall j, k | 0 <= j < k < |qs| ensures qs[j].end < qs[k].start {
      AddedIndex(rs, i, addr, end, flags, j);
      AddedIndex(rs, i, addr, end, flags, k);
    }
  }

  /** A request of length 0 keeps the areas canonical exactly when it touches an area;
      otherwise an empty area is left behind. */
  lemma AddedCanonicalIff(rs: seq<Area>, lo: nat, hi: nat, i: nat, addr: nat, end: nat, flags: nat)
    requires Canonical(rs, lo, hi) && i <= |rs| && EndBy(rs, i, addr) && StartFrom(rs, i, end)
      && lo <= addr <= end <= hi
    ensures Canonical(Added(rs, i, addr, end, flags), lo, hi)
      <==> addr < end || TouchesPrev(rs, i, addr) || TouchesNext(rs, i, end)
  {
    if addr < end {
      AddedCanonical(rs, lo, hi, i, addr, end, flags);
    } else if TouchesPrev(rs, i, addr) || TouchesNext(rs, i, end) {
      assert Added(rs, i, addr, end, flags) == rs;
    } else {
      assert Added(rs, i, addr, end, flags)[i] == Area(addr, end, flags);
    }
  }

  lemma AddedCovers(rs: seq<Area>, lo: nat, hi: nat, i: nat, addr: nat, end: nat, flags: nat, a: int)
    requires Sorted(rs, lo, hi) && i <= |rs| && EndBy(rs, i, addr) && StartFrom(rs, i, end) && addr <= end
    ensures Covers(Added(rs, i, addr, end, flags), a) <==> Covers(rs, a) || addr <= a < end
  {
    hide Added;
    var qs := Added(rs, i, addr, end, flags);
    if Covers(qs, a) {
      var k :| 0 <= k < |qs| && qs[k].start <= a < qs[k].end;
      AddedIndex(rs, i, addr, end, flags, k);
      AddedOnly(rs, i, addr, end, flags, k, a);
    }
    if Covers(rs, a) || addr <= a < end {
      AddedAll(rs, lo, hi, i, addr, end, flags, a);
    }
  }

  lemma AddedOnly(rs: seq<Area>, i: nat, addr: nat, end: nat, flags: nat, k: nat, a: int)
    requires i <= |rs| && k < |Added(rs, i, addr, end, flags)|
    requires Added(rs, i, addr, end, flags)[k].start <= a < Added(rs, i, addr, end, flags)[k].end
    ensures Covers(rs, a) || addr <= a < end
  {
    AddedIndex(rs, i, addr, end, flags, k);
    hide Added;
    assert k < |rs| ==> (rs[k].start <= a < rs[k].end ==> Covers(rs, a));
    assert 0 < k <= |rs| ==> (rs[k - 1].start <= a < rs[k - 1].end ==> Covers(rs, a));
    assert k + 1 < |rs| ==> (rs[k + 1].start <= a < rs[k + 1].end ==> Covers(rs, a));
  }

  lemma AddedAll(rs: seq<Area>, lo: nat, hi: nat, i: nat, addr: nat, end: nat, flags: nat, a: int)
    requires Sorted(rs, lo, hi) && i <= |rs| && EndBy(rs, i, addr) && StartFrom(rs, i, end) && addr <= end
    requires Covers(rs, a) || addr <= a < end
    ensures Covers(Added(rs, i, addr, end, flags), a)
  {
    hide Added;
    var p, n, qs := TouchesPrev(rs, i, addr), TouchesNext(rs, i, end), Added(rs, i, addr, end, flags);
    AddedSize(rs, i, addr, end, flags);
    var k: nat;
    if addr <= a < end {
      k := if p then i - 1 else i;
    } else {
      k :| k < |rs| && rs[k].start <= a < rs[k].end;
      k := if k < i then k else if p && n then k - 1 else if p || n then k else k + 1;
    }
    AddedIndex(rs, i, addr, end, flags, k);
    assert qs[k].start <= a < qs[k].end;
  }

  lemma AddedSize(rs: seq<Area>, i: nat, addr: nat, end: nat, flags: nat)
    requires i <= |rs|
    ensures |Added(rs, i, addr, end, flags)|
            == if TouchesPrev(rs, i, addr) && TouchesNext(rs, i, end) then |rs| - 1
               else if TouchesPrev(rs, i, addr) || TouchesNext(rs, i, end) then |rs| else |rs| + 1
  {
  }

  lemma ClearedIsFree(rs: seq<Area>, qs: seq<Area>, lo: nat, hi: nat, start: int, end: int)
    requires Without(rs, qs, start, end) && Sorted(qs, lo, hi) && start < end
    ensures !Overlapped(qs, start, end)
  {
    OverlappedIsCovered(qs, lo, hi, start, end);
    forall a | start <= a < end ensures !Covers(qs, a) {
      if Covers(qs, a) {
        var k :| 0 <= k < |qs| && qs[k].start <= a < qs[k].end;
        assert Flagged(qs, a, qs[k].flags);
      }
    }
  }

  lemma FreeIsClear(rs: seq<Area>, lo: nat, hi: nat, start: int, end: int)
    requires Sorted(rs, lo, hi) && !Overlapped(rs, start, end) && start <= end
    ensures Without(rs, rs, start, end) && Release(rs, [], start, end) && !Inside(rs, start, end)
  {
    forall a, f | Flagged(rs, a, f) ensures !(start <= a < end) {
    }
    forall k | 0 <= k < |rs| ensures !(rs[k].start < start && end < rs[k].end) {
    }
  }

  /** qs covers what rs does, and [start, end). */
  ghost predicate Adds(rs: seq<Area>, qs: seq<Area>, start: int, end: int) {
    forall a :: Covers(qs, a) <==> Covers(rs, a) || start <= a < end
  }

  lemma AddedAdds(rs: seq<Area>, qs: seq<Area>, lo: nat, hi: nat, i: nat, addr: nat, end: nat, flags: nat)
    requires Without(rs, qs, addr, end) && Canonical(qs, lo, hi) && lo <= addr <= end <= hi
    requires i <= |qs| && EndBy(qs, i, addr) && StartFrom(qs, i, end)
    ensures Adds(rs, Added(qs, i, addr, end, flags), addr, end)
  {
    hide Added;
    forall a ensures Covers(Added(qs, i, addr, end, flags), a) <==> Covers(rs, a) || addr <= a < end {
      CanonicalIsApart(qs, lo, hi);
      AddedCovers(qs, lo, hi, i, addr, end, flags, a);
      WithoutCovers(rs, qs, addr, end, a);
    }
  }

  lemma WithoutCovers(rs: seq<Area>, qs: seq<Area>, start: int, end: int, a: int)
    requires Without(rs, qs, start, end)
    ensures Covers(qs, a) <==> Covers(rs, a) && !(start <= a < end)
  {
    if Covers(qs, a) {
      var k :| 0 <= k < |qs| && qs[k].start <= a < qs[k].end;
      assert Flagged(qs, a, qs[k].flags);
    }
    if Covers(rs, a) && !(start <= a < end) {
      var k :| 0 <= k < |rs| && rs[k].start <= a < rs[k].end;
      assert Flagged(rs, a, rs[k].flags);
    }
  }

  /** An empty range overlaps just the areas it lies strictly inside of. */
  lemma EmptyInside(rs: seq<Area>, addr: int)
    ensures Overlapped(rs, addr, addr) <==> Inside(rs, addr, addr)
  {
    if k :| 0 <= k < |rs| && addr < rs[k].end && rs[k].start < addr {
      assert rs[k].start < addr && addr < rs[k].end;
    }
  }

  /** Merging does it if the range touches a neighbour, else a new area. */
  lemma AddedNew(rs: seq<Area>, i: nat, addr: nat, end: nat, flags: nat)
    requires i <= |rs|
    ensures TouchesPrev(rs, i, addr) || TouchesNext(rs, i, end)
      ==> Added(rs, i, addr, end, flags) == Merged(rs, i, addr, end)
    ensures !TouchesPrev(rs, i, addr) && !TouchesNext(rs, i, end) ==>
              Added(rs, i, addr, end, flags) == Inserted(rs, i, Area(addr, end, flags))
  {
  }

  // ---- bounds that are multiples of a page

  ghost predicate Multiples(rs: seq<Area>, n: nat)
    requires n > 0
  {
    forall i :: 0 <= i < |rs| ==> rs[i].start % n == 0 && rs[i].end % n == 0
  }

  /** qs is rs, or rs with one area cut at addr. */
  ghost predicate CutOf(rs: seq<Area>, qs: seq<Area>, addr: nat) {
    qs == rs || exists i :: 0 <= i < |rs| && qs == SplitAt(rs, i, addr)
  }

  lemma CutMultiples(rs: seq<Area>, qs: seq<Area>, addr: nat, n: nat)
    requires CutOf(rs, qs, addr) && n > 0 && Multiples(rs, n) && addr % n == 0
    ensures Multiples(qs, n)
  {
    if qs != rs {
      var i :| 0 <= i < |rs| && qs == SplitAt(rs, i, addr);
      SplitIndex(rs, i, addr, 0);
      forall k | 0 <= k < |qs| ensures qs[k].start % n == 0 && qs[k].end % n == 0 {
        SplitIndex(rs, i, addr, k);
      }
    }
  }

  lemma {:induction false} RealMultiples(rs: seq<Area>, n: nat)
    requires n > 0 && Multiples(rs, n)
    ensures Multiples(Real(rs), n)
    decreases |rs|
  {
    if rs != [] {
      RealMultiples(rs[..|rs| - 1], n);
    }
  }

  lemma {:induction false} RealSorted(rs: seq<Area>, lo: nat, hi: nat)
    requires Sorted(rs, lo, hi)
    ensures Sorted(Real(rs), lo, hi) && (rs != [] ==> EndBy(Real(rs), |Real(rs)|, rs[|rs| - 1].end))
    decreases |rs|
  {
    if rs != [] {
      var n := |rs| - 1;
      RealSorted(rs[..n], lo, hi);
      assert n > 0 ==> rs[..n][n - 1] == rs[n - 1] && rs[n - 1].end <= rs[n].start;
    }
  }

  lemma SortedPart(rs: seq<Area>, lo: nat, hi: nat, i: nat, j: nat)
    requires Sorted(rs, lo, hi) && i <= j <= |rs|
    ensures Sorted(Real(rs[i..j]), lo, hi)
  {
    RealSorted(rs[i..j], lo, hi);
  }

  lemma NoneSorted(lo: nat, hi: nat)
    ensures Sorted([], lo, hi)
  {
  }

  /** Freeing between multiples keeps everything at multiples. */
  ghost predicate KeepsMultiples(rs: seq<Area>, qs: seq<Area>, ps: seq<Area>, start: nat, end: nat) {
    forall n {:trigger Multiples(rs, n)} :: n > 0 && start % n == 0 && end % n == 0 && Multiples(rs, n) ==>
      Multiples(qs, n) && Multiples(ps, n)
  }

  lemma SameMultiples(rs: seq<Area>, start: nat, end: nat)
    ensures KeepsMultiples(rs, rs, [], start, end)
  {
  }

  lemma BetweenSize(rs: seq<Area>, i: nat, j: nat, start: int, end: int)
    requires Between(rs, i, j, start, end)
    ensures i < j <= |rs|
  {
  }

  lemma FreeMultiples(rs: seq<Area>, ms: seq<Area>, qs: seq<Area>, i: nat, j: nat, start: nat, end: nat)
    requires CutOf(rs, ms, start) && CutOf(ms, qs, end) && i <= j <= |qs|
    ensures KeepsMultiples(rs, Removed(qs, i, j), Real(qs[i..j]), start, end)
  {
    hide Multiples, CutOf, Real, Removed;
    forall n | n > 0 && start % n == 0 && end % n == 0 && Multiples(rs, n)
      ensures Multiples(Removed(qs, i, j), n) && Multiples(Real(qs[i..j]), n)
    {
      CutMultiples(rs, ms, start, n);
      CutMultiples(ms, qs, end, n);
      PartMultiples(qs, i, j, n);
      RealMultiples(qs[i..j], n);
    }
  }

  lemma PartMultiples(rs: seq<Area>, i: nat, j: nat, n: nat)
    requires n > 0 && i <= j <= |rs| && Multiples(rs, n)
    ensures Multiples(rs[i..j], n) && Multiples(Removed(rs, i, j), n)
  {
  }

  // ---- flags of merged areas

  /** The range got flags f and every other address kept its own. */
  ghost predicate KeepsFlags(rs: seq<Area>, qs: seq<Area>, addr: int, end: int, f: nat) {
    forall a, g :: Flagged(qs, a, g) <==> Flagged(rs, a, g) || (addr <= a < end && g == f)
  }

  /** Neighbours that the range touches have the flags asked for. */
  predicate NeighboursAgree(rs: seq<Area>, i: nat, addr: nat, end: nat, f: nat) {
    (TouchesPrev(rs, i, addr) ==> rs[i - 1].flags == f) && (TouchesNext(rs, i, end) ==> rs[i].flags == f)
  }

  /** Merging asks no questions about flags, so it keeps them just when there is no
      difference to lose. */
  lemma MergeKeepsFlags(rs: seq<Area>, lo: nat, hi: nat, i: nat, addr: nat, end: nat, f: nat)
    requires Canonical(rs, lo, hi) && i <= |rs| && EndBy(rs, i, addr) && StartFrom(rs, i, end) && addr < end
    ensures KeepsFlags(rs, Added(rs, i, addr, end, f), addr, end, f) <==> NeighboursAgree(rs, i, addr, end, f)
  {
    if NeighboursAgree(rs, i, addr, end, f) {
      forall a, g ensures Flagged(Added(rs, i, addr, end, f), a, g)
        <==> Flagged(rs, a, g) || (addr <= a < end && g == f) {
        AgreeFlags(rs, lo, hi, i, addr, end, f, a, g);
      }
    } else {
      DisagreeFlags(rs, lo, hi, i, addr, end, f);
    }
  }

  lemma AgreeFlags(rs: seq<Area>, lo: nat, hi: nat, i: nat, addr: nat, end: nat, f: nat, a: int, g: nat)
    requires Canonical(rs, lo, hi) && i <= |rs| && EndBy(rs, i, addr) && StartFrom(rs, i, end) && addr < end
    requires NeighboursAgree(rs, i, addr, end, f)
    ensures Flagged(Added(rs, i, addr, end, f), a, g) <==> Flagged(rs, a, g) || (addr <= a < end && g == f)
  {
    hide Added;
    var qs := Added(rs, i, addr, end, f);
    if k :| 0 <= k < |qs| && qs[k].start <= a < qs[k].end && qs[k].flags == g {
      AgreeOnly(rs, i, addr, end, f, k, a, g);
    }
    if addr <= a < end && g == f {
      AgreeRange(rs, i, addr, end, f, a);
    }
    if k :| 0 <= k < |rs| && rs[k].start <= a < rs[k].end && rs[k].flags == g {
      AgreeOthers(rs, i, addr, end, f, k, a);
    }
  }

  lemma AgreeRange(rs: seq<Area>, i: nat, addr: nat, end: nat, f: nat, a: int)
    requires i <= |rs| && NeighboursAgree(rs, i, addr, end, f) && addr <= a < end
    requires (i > 0 ==> rs[i - 1].start < rs[i - 1].end) && (i < |rs| ==> rs[i].start < rs[i].end)
    ensures Flagged(Added(rs, i, addr, end, f), a, f)
  {
    hide Added;
    AddedSize(rs, i, addr, end, f);
    var k := if TouchesPrev(rs, i, addr) then i - 1 else i;
    AddedIndex(rs, i, addr, end, f, k);
    assert Added(rs, i, addr, end, f)[k].flags == f;
  }

  lemma AgreeOthers(rs: seq<Area>, i: nat, addr: nat, end: nat, f: nat, k: nat, a: int)
    requires i <= |rs| && k < |rs| && NeighboursAgree(rs, i, addr, end, f) && rs[k].start <= a < rs[k].end && addr < end
    requires (i > 0 ==> rs[i - 1].start < rs[i - 1].end) && (TouchesNext(rs, i, end) ==> end < rs[i].end)
    ensures Flagged(Added(rs, i, addr, end, f), a, rs[k].flags)
  {
    hide Added;
    var p, n := TouchesPrev(rs, i, addr), TouchesNext(rs, i, end);
    AddedSize(rs, i, addr, end, f);
    var j := if k < i then k else if p && n then k - 1 else if p || n then k else k + 1;
    AddedIndex(rs, i, addr, end, f, j);
    assert Added(rs, i, addr, end, f)[j].flags == rs[k].flags;
  }

  lemma AgreeOnly(rs: seq<Area>, i: nat, addr: nat, end: nat, f: nat, k: nat, a: int, g: nat)
    requires i <= |rs| && NeighboursAgree(rs, i, addr, end, f) && k < |Added(rs, i, addr, end, f)|
    requires var q := Added(rs, i, addr, end, f)[k]; q.start <= a < q.end && q.flags == g
    ensures Flagged(rs, a, g) || (addr <= a < end && g == f)
  {
    hide Added;
    AddedIndex(rs, i, addr, end, f, k);
    assert k < |rs| ==> (rs[k].start <= a < rs[k].end && rs[k].flags == g ==> Flagged(rs, a, g));
    assert 0 < k <= |rs| ==> (rs[k - 1].start <= a < rs[k - 1].end && rs[k - 1].flags == g ==> Flagged(rs, a, g));
    assert k + 1 < |rs| ==> (rs[k + 1].start <= a < rs[k + 1].end && rs[k + 1].flags == g ==> Flagged(rs, a, g));
  }

  lemma DisagreeFlags(rs: seq<Area>, lo: nat, hi: nat, i: nat, addr: nat, end: nat, f: nat)
    requires Canonical(rs, lo, hi) && i <= |rs| && EndBy(rs, i, addr) && StartFrom(rs, i, end) && addr < end
    requires !NeighboursAgree(rs, i, addr, end, f)
    ensures !KeepsFlags(rs, Added(rs, i, addr, end, f), addr, end, f)
  {
    hide Added;
    var p, n, qs := TouchesPrev(rs, i, addr), TouchesNext(rs, i, end), Added(rs, i, addr, end, f);
    AddedSize(rs, i, addr, end, f);
    var k := if p then i - 1 else i;
    AddedIndex(rs, i, addr, end, f, k);
    if p && rs[i - 1].flags == f {
      // the upper neighbour's addresses take the lower one's flags
      assert qs[k].start <= end < qs[k].end;
      assert Flagged(qs, end, f) && !Flagged(rs, end, f);
    } else {
      assert qs[k].start <= addr < qs[k].end;
      assert Flagged(qs, addr, qs[k].flags) && !Flagged(rs, addr, qs[k].flags);
    }
  }
}
