/** What conflict marks do to flags: the flags of every area after any number of tries,
    and when all areas keep theirs. */
module VaMarks {
  import opened PageTypes
  import opened VmaList
  import opened VmaSpec
  import opened GapSearch
  import opened VaSpec
  import opened VaFlags

  /** The first address of an area. */
  ghost predicate Bottom(qs: seq<Area>, w: int) { Covers(qs, w) && !Covers(qs, w - 1) }

  /** Flags found by looking up from w, at most n pages further: those rs has there, else
      those of a mark. */
  ghost predicate MarkFlags(rs: seq<Area>, w: int, n: nat, g: nat)
    decreases n
  {
    if Covers(rs, w) then Flagged(rs, w, g)
    else if n == 0 then g == CONFLICT
    else MarkFlags(rs, w + PAGE_SIZE, n - 1, g)
  }

  /** A request of one page marks downwards, page after page; of a longer one, the pages
      of a try are marked upwards. */
  function Reach(q: Request, w: int): nat {
    if q.length > PAGE_SIZE then 1 else if w < q.high then (q.high - w) / PAGE_SIZE else 0
  }

  ghost predicate BottomFlags(rs: seq<Area>, qs: seq<Area>, q: Request, w: int) {
    forall g :: Flagged(qs, w, g) <==> MarkFlags(rs, w, Reach(q, w), g)
  }

  /** A mark above a page that can still be marked was the first of its try. */
  ghost predicate BelowFull(rs: seq<Area>, nrFree: seq<nat>, q: Request, w: int) {
    q.length > PAGE_SIZE && !Covers(rs, w) && FullPage(nrFree, w - PAGE_SIZE) ==> !Covers(rs, w + PAGE_SIZE)
  }

  ghost predicate BottomOk(rs: seq<Area>, qs: seq<Area>, nrFree: seq<nat>, q: Request, w: int) {
    BottomFlags(rs, qs, q, w) && BelowFull(rs, nrFree, q, w)
  }

  /** rs with marks is qs: the flags of each area of qs by its first address. */
  ghost predicate MarksFlagged(rs: seq<Area>, qs: seq<Area>, nrFree: seq<nat>, q: Request) {
    forall w :: Bottom(qs, w) ==> BottomOk(rs, qs, nrFree, q, w)
  }

  lemma NoMarksYet(rs: seq<Area>, nrFree: seq<nat>, q: Request)
    ensures MarksFlagged(rs, rs, nrFree, q)
  {
  }

  /** The page p of the try at x is marked: no page of the try behind p is, those before
      it are as far as they are full, and a try of one page ends at an area or at the top. */
  ghost predicate Marking(rs: seq<Area>, qs: seq<Area>, nrFree: seq<nat>, q: Request, x: int, p: int) {
    && x <= p && p % PAGE_SIZE == 0 && FullPage(nrFree, p) && FreeRange(qs, p, PAGE_SIZE)
    && (x < p && FullPage(nrFree, p - PAGE_SIZE) ==> Covers(qs, p - 1))
    && (forall y :: Covers(rs, y) ==> Covers(qs, y) && y < q.high)
    && p + PAGE_SIZE <= x + q.length
    && (p + PAGE_SIZE < x + q.length ==> !Covers(qs, p + PAGE_SIZE))
    && (q.length <= PAGE_SIZE ==> x == p && (Covers(qs, p + PAGE_SIZE) <==> p + PAGE_SIZE < q.high))
    && p + PAGE_SIZE <= q.high
  }

  /** A mark leaves the flags at every first address alone, but its own. */
  lemma OtherBottoms(qs: seq<Area>, ts: seq<Area>, p: int, end: int, f: nat, w: int)
    requires Adds(qs, ts, p, end) && AddsFlags(qs, ts, p, end, f) && p < end && FreeRange(qs, p, end - p)
    requires Bottom(ts, w) && w != p
    ensures Bottom(qs, w) && forall g :: Flagged(ts, w, g) <==> Flagged(qs, w, g)
  {
    hide Flagged;
    if w > p {
      assert w > end;
      assert !Joins(qs, p, end, w) by { assert end <= w - 1 <= w; }
    }
  }

  lemma NewBottom(qs: seq<Area>, ts: seq<Area>, p: int, end: int, f: nat)
    requires AddsFlags(qs, ts, p, end, f) && p < end && !Covers(qs, p - 1)
    ensures forall g :: Flagged(ts, p, g) <==> if Covers(qs, end) then Flagged(qs, end, g) else g == f
  {
    hide Flagged, Covers;
  }

  lemma MarkOne(rs: seq<Area>, qs: seq<Area>, ts: seq<Area>, nrFree: seq<nat>, q: Request, x: int, p: int)
    requires MarksFlagged(rs, qs, nrFree, q) && Marking(rs, qs, nrFree, q, x, p)
    requires Adds(qs, ts, p, p + PAGE_SIZE) && AddsFlags(qs, ts, p, p + PAGE_SIZE, CONFLICT)
    ensures MarksFlagged(rs, ts, nrFree, q)
  {
    hide Flagged, FullPage, AddsFlags, MarkFlags, Reach;
    forall w | Bottom(ts, w) ensures BottomOk(rs, ts, nrFree, q, w) {
      if w != p {
        OtherBottoms(qs, ts, p, p + PAGE_SIZE, CONFLICT, w);
        assert BottomOk(rs, qs, nrFree, q, w);
      } else {
        MarkedBottom(rs, qs, ts, nrFree, q, x, p);
      }
    }
  }

  lemma MarkedBottom(rs: seq<Area>, qs: seq<Area>, ts: seq<Area>, nrFree: seq<nat>, q: Request, x: int, p: int)
    requires MarksFlagged(rs, qs, nrFree, q) && Marking(rs, qs, nrFree, q, x, p)
    requires AddsFlags(qs, ts, p, p + PAGE_SIZE, CONFLICT) && !Covers(qs, p - 1)
    ensures BottomOk(rs, ts, nrFree, q, p)
  {
    hide Flagged, FullPage, AddsFlags;
    var end := p + PAGE_SIZE;
    NewBottom(qs, ts, p, end, CONFLICT);
    assert !Covers(rs, p);
    if Covers(qs, end) {
      assert Bottom(qs, end);
      assert BottomOk(rs, qs, nrFree, q, end);
      if q.length > PAGE_SIZE && !Covers(rs, end) {
        assert !Covers(rs, end + PAGE_SIZE);
      }
    }
    forall g ensures Flagged(ts, p, g) <==> MarkFlags(rs, p, Reach(q, p), g) {
      LookUp(rs, q, p, g);
      assert Covers(qs, end) ==> (Flagged(qs, end, g) <==> MarkFlags(rs, end, Reach(q, end), g));
    }
  }

  /** Looking up from a page that rs leaves free is looking up from the next one. */
  lemma LookUp(rs: seq<Area>, q: Request, p: int, g: nat)
    requires !Covers(rs, p) && p + PAGE_SIZE <= q.high && forall y :: Covers(rs, y) ==> y < q.high
    ensures q.length <= PAGE_SIZE ==>
              (MarkFlags(rs, p, Reach(q, p), g) <==> MarkFlags(rs, p + PAGE_SIZE, Reach(q, p + PAGE_SIZE), g))
    ensures p + PAGE_SIZE == q.high ==> (MarkFlags(rs, p, Reach(q, p), g) <==> g == CONFLICT)
    ensures q.length > PAGE_SIZE ==>
              (MarkFlags(rs, p, Reach(q, p), g) <==>
               if Covers(rs, p + PAGE_SIZE) then Flagged(rs, p + PAGE_SIZE, g) else g == CONFLICT)
  {
    ReachNext(q, p);
  }

  lemma ReachNext(q: Request, p: int)
    requires p + PAGE_SIZE <= q.high
    ensures q.length <= PAGE_SIZE ==> Reach(q, p) == Reach(q, p + PAGE_SIZE) + 1
  {
  }

  // ---- which pages the tries mark

  /** a is the greatest suitable address or, if there is none, one below the vRegion. */
  ghost predicate Limit(rs: seq<Area>, nrFree: seq<nat>, q: Request, a: int) {
    (forall x :: Suits(rs, nrFree, x, q) ==> x <= a) && (Suits(rs, nrFree, a, q) || a == q.low - q.length)
  }

  lemma {:induction false} LimitExists(rs: seq<Area>, nrFree: seq<nat>, q: Request, top: int) returns (a: int)
    requires forall x :: Suits(rs, nrFree, x, q) ==> x <= top
    ensures Limit(rs, nrFree, q, a)
    decreases top - q.low
  {
    if top < q.low {
      a := q.low - q.length;
    } else if Suits(rs, nrFree, top, q) {
      a := top;
    } else {
      a := LimitExists(rs, nrFree, q, top - 1);
    }
  }

  /** Every page of [x, x + len) that is full is covered. */
  ghost predicate Tried(qs: seq<Area>, nrFree: seq<nat>, x: int, len: int) {
    forall y :: x <= y < x + len && FullPage(nrFree, PageOf(y)) ==> Covers(qs, y)
  }

  /** The range that ends at the area starting at e was not tried yet, or has been. */
  ghost predicate WindowOk(rs: seq<Area>, qs: seq<Area>, nrFree: seq<nat>, q: Request, e: int) {
    Feasible(rs, e - q.length, q) ==> Feasible(qs, e - q.length, q) || Tried(qs, nrFree, e - q.length, q.length)
  }

  /** A mark directly below that area comes from a try of that range. */
  ghost predicate TopOk(rs: seq<Area>, qs: seq<Area>, q: Request, a: int, e: int) {
    Covers(qs, e - 1) ==> Feasible(rs, e - q.length, q) && a < e - q.length
  }

  ghost predicate EdgeOk(rs: seq<Area>, qs: seq<Area>, nrFree: seq<nat>, q: Request, a: int, e: int) {
    WindowOk(rs, qs, nrFree, q, e) && TopOk(rs, qs, q, a, e)
  }

  /** [s, e) lies free between two areas. */
  ghost predicate Gap(rs: seq<Area>, s: int, e: int) {
    s < e && Covers(rs, s - 1) && Covers(rs, e) && FreeRange(rs, s, e - s)
  }

  /** Every page from s to e is full, or one of those of the range at a. */
  ghost predicate Solid(nrFree: seq<nat>, q: Request, a: int, s: int, e: int) {
    forall y :: s <= y < e ==> FullPage(nrFree, PageOf(y)) || a <= y < a + q.length
  }

  ghost predicate FilledFrom(qs: seq<Area>, s: int, e: int, t: int) {
    s <= t <= e && forall y :: s <= y < e ==> (Covers(qs, y) <==> t <= y)
  }

  /** The tries fill such a gap from the top, a whole range each time. */
  ghost predicate GapOk(rs: seq<Area>, qs: seq<Area>, nrFree: seq<nat>, q: Request, a: int, s: int, e: int) {
    a <= s && Solid(nrFree, q, a, s, e) ==>
      exists t :: FilledFrom(qs, s, e, t) && (a < s ==> Multiple(q, e - t))
  }

  predicate Multiple(q: Request, n: int) { q.length > 0 && n % q.length == 0 }

  ghost predicate TriesOk(rs: seq<Area>, qs: seq<Area>, nrFree: seq<nat>, q: Request, a: int) {
    && (forall e :: Bottom(rs, e) ==> EdgeOk(rs, qs, nrFree, q, a, e))
    && (forall s, e :: Gap(rs, s, e) ==> GapOk(rs, qs, nrFree, q, a, s, e))
  }

  lemma NoTriesYet(rs: seq<Area>, nrFree: seq<nat>, q: Request, a: int)
    requires q.length > 0
    ensures TriesOk(rs, rs, nrFree, q, a)
  {
    forall s, e | Gap(rs, s, e) ensures GapOk(rs, rs, nrFree, q, a, s, e) {
      assert FilledFrom(rs, s, e, e);
    }
  }

  /** A try at x, of the greatest feasible range of qs, marks the full pages of it. */
  ghost predicate Tries(rs: seq<Area>, qs: seq<Area>, ts: seq<Area>, nrFree: seq<nat>, q: Request, a: int, x: int) {
    && Marked(rs, qs, nrFree) && Limit(rs, nrFree, q, a) && Greatest(qs, x, q) && q.length > 0
    && MarkedUpTo(qs, ts, nrFree, x, x + q.length) && (forall y :: Covers(rs, y) ==> q.low <= y < q.high)
  }

  /** No suitable address is above the one tried, and the pages there are not full. */
  lemma TryBound(rs: seq<Area>, qs: seq<Area>, ts: seq<Area>, nrFree: seq<nat>, q: Request, a: int, x: int)
    requires Tries(rs, qs, ts, nrFree, q, a, x)
    ensures a <= x && (forall y :: a <= y < a + q.length && FullPage(nrFree, PageOf(y)) ==> y < q.low)
    ensures forall y :: a <= y < a + q.length ==> !Covers(rs, y)
  {
    hide FullPage, Covers, MarkedUpTo;
    if Suits(rs, nrFree, a, q) {
      MarkedSuits(rs, qs, nrFree, a, q);
    }
  }

  lemma EdgeStep(rs: seq<Area>, qs: seq<Area>, ts: seq<Area>, nrFree: seq<nat>, q: Request, a: int, x: int, e: int)
    requires Tries(rs, qs, ts, nrFree, q, a, x) && Bottom(rs, e) && EdgeOk(rs, qs, nrFree, q, a, e)
    ensures EdgeOk(rs, ts, nrFree, q, a, e)
  {
    hide FullPage, Covers;
    TryBound(rs, qs, ts, nrFree, q, a, x);
    assert Covers(qs, e) && q.low <= e < q.high;
    assert x + q.length <= e || e < x;
    var b := e - q.length;
    if Feasible(qs, b, q) && x > e {
      assert Feasible(ts, b, q);
    }
  }

  lemma GapStep(rs: seq<Area>, qs: seq<Area>, ts: seq<Area>, nrFree: seq<nat>, q: Request, a: int, x: int, s: int,
      e: int)
    requires Tries(rs, qs, ts, nrFree, q, a, x) && Gap(rs, s, e) && GapOk(rs, qs, nrFree, q, a, s, e)
    ensures GapOk(rs, ts, nrFree, q, a, s, e)
  {
    hide FullPage, Covers, Multiple;
    if a <= s && Solid(nrFree, q, a, s, e) {
      var t :| FilledFrom(qs, s, e, t) && (a < s ==> Multiple(q, e - t));
      var t' := GapFilled(rs, qs, ts, nrFree, q, a, x, s, e, t);
    }
  }

  lemma GapFilled(rs: seq<Area>, qs: seq<Area>, ts: seq<Area>, nrFree: seq<nat>, q: Request, a: int, x: int, s: int,
      e: int, t: int) returns (t': int)
    requires Tries(rs, qs, ts, nrFree, q, a, x) && Gap(rs, s, e) && a <= s && Solid(nrFree, q, a, s, e)
    requires FilledFrom(qs, s, e, t) && (a < s ==> Multiple(q, e - t))
    ensures FilledFrom(ts, s, e, t') && (a < s ==> Multiple(q, e - t'))
  {
    hide FullPage, Covers, Multiple;
    TryBound(rs, qs, ts, nrFree, q, a, x);
    assert Covers(qs, e) && q.low <= e < q.high && Covers(qs, s - 1) && q.low <= s - 1;
    if x + q.length <= s || e <= x || x == a {
      t' := t;
    } else {
      assert s <= x && x + q.length <= e;
      var y := x + q.length - 1;
      assert !Covers(qs, y) && y < t;
      assert Feasible(qs, t - q.length, q);
      assert x == t - q.length;
      NextMultiple(q, e - t);
      t' := if a == s && x < a + q.length then a + q.length else x;
      assert a < s ==> a + q.length <= s;
    }
  }

  lemma NextMultiple(q: Request, n: int)
    ensures Multiple(q, n) ==> Multiple(q, n + q.length)
  {
    if Multiple(q, n) {
      var k, d := n / q.length, q.length;
      assert n + d == (k + 1) * d;
      TimesMod(k + 1, d);
    }
  }

  lemma TimesMod(k: int, d: int)
    requires d > 0
    ensures (k * d) % d == 0
  {
    var r, c := (k * d) % d, (k * d) / d;
    assert r == (k - c) * d;
    NoneBetween(k - c, d);
  }

  lemma NoneBetween(k: int, d: int)
    requires d > 0
    ensures k * d <= 0 || k * d >= d
  {
    if k >= 1 {
      assert (k - 1) * d >= 0;
    } else {
      assert k * d <= 0;
    }
  }

  /** Two multiples of the length are a length apart. */
  lemma MultiplesApart(q: Request, n: int, m: int)
    requires Multiple(q, n) && Multiple(q, m) && n < m
    ensures n + q.length <= m
  {
    var d := q.length;
    var k, c := n / d, m / d;
    assert n == d * k && m == d * c;
    NoneBetween(c - k, d);
    assert m - n == (c - k) * d;
  }

  lemma TriesStep(rs: seq<Area>, qs: seq<Area>, ts: seq<Area>, nrFree: seq<nat>, q: Request, a: int, x: int)
    requires Tries(rs, qs, ts, nrFree, q, a, x) && TriesOk(rs, qs, nrFree, q, a)
    ensures TriesOk(rs, ts, nrFree, q, a)
  {
    hide Tries, Bottom, Gap, EdgeOk, GapOk;
    forall e | Bottom(rs, e) ensures EdgeOk(rs, ts, nrFree, q, a, e) {
      EdgeStep(rs, qs, ts, nrFree, q, a, x, e);
    }
    forall s, e | Gap(rs, s, e) ensures GapOk(rs, ts, nrFree, q, a, s, e) {
      GapStep(rs, qs, ts, nrFree, q, a, x, s, e);
    }
  }

  // ---- when every area keeps its flags

  /** The gap below area j is filled by marks, or by marks and the range at a: marks fill
      it when its pages are full and whole ranges fit it; with the range at its bottom
      the rest need only be full. */
  ghost predicate Closes(rs: seq<Area>, nrFree: seq<nat>, q: Request, a: int, j: int)
    requires 0 < j < |rs|
  {
    var s, e := rs[j - 1].end, rs[j].start;
    a <= s && (a < s ==> Multiple(q, e - s)) && Solid(nrFree, q, a, s, e)
  }

  /** A try of several pages marks the two pages below area j, the lower one first, and
      the upper one takes that mark up into the area. */
  ghost predicate TopFull(rs: seq<Area>, nrFree: seq<nat>, q: Request, a: int, j: int)
    requires 0 <= j < |rs|
  {
    var e := rs[j].start;
    && q.length > PAGE_SIZE && Feasible(rs, e - q.length, q) && a < e - q.length
    && FullPage(nrFree, e - PAGE_SIZE) && FullPage(nrFree, e - 2 * PAGE_SIZE)
  }

  /** Area j has the flags that an allocation at a gives it. */
  ghost predicate AreaKeeps(rs: seq<Area>, nrFree: seq<nat>, q: Request, a: int, j: int)
    requires 0 <= j < |rs|
  {
    if j > 0 && Closes(rs, nrFree, q, a, j) then rs[j].flags == rs[j - 1].flags
    else TopFull(rs, nrFree, q, a, j) ==> rs[j].flags == CONFLICT
  }

  ghost predicate AllKeep(rs: seq<Area>, nrFree: seq<nat>, q: Request, a: int) {
    forall j :: 0 <= j < |rs| ==> AreaKeeps(rs, nrFree, q, a, j)
  }

  /** Every address that had flags has them still. */
  ghost predicate Kept(rs: seq<Area>, us: seq<Area>) { forall y, g :: Flagged(rs, y, g) ==> Flagged(us, y, g) }

  /** The areas when no further try is made: rs with marks, and no range is left above a. */
  ghost predicate Settled(rs: seq<Area>, ms: seq<Area>, nrFree: seq<nat>, q: Request, a: int) {
    && Canonical(rs, q.low, q.high) && Canonical(ms, q.low, q.high) && PageWise(rs) && PageWise(ms)
    && q.length > 0 && q.length % PAGE_SIZE == 0
    && Marked(rs, ms, nrFree) && MarksFlagged(rs, ms, nrFree, q) && TriesOk(rs, ms, nrFree, q, a)
    && Limit(rs, nrFree, q, a) && (forall x :: Feasible(ms, x, q) ==> x <= a)
    && (forall y :: y < a + q.length ==> (Covers(ms, y) <==> Covers(rs, y)))
  }

  lemma GapBetween(rs: seq<Area>, lo: nat, hi: nat, j: nat)
    requires Canonical(rs, lo, hi) && 0 < j < |rs|
    ensures Gap(rs, rs[j - 1].end, rs[j].start) && lo < rs[j - 1].end && rs[j].start < hi
  {
    CoversMaximal(rs, lo, hi, j - 1);
    CoversMaximal(rs, lo, hi, j);
    assert rs[j - 1].end < rs[j].start;
    forall y | rs[j - 1].end <= y < rs[j].start ensures !Covers(rs, y) {
      forall i | 0 <= i < |rs| ensures !(rs[i].start <= y < rs[i].end) {
        if i < j - 1 {
          assert rs[i].end < rs[j - 1].start;
        } else if i > j {
          assert rs[j].end < rs[i].start;
        }
      }
    }
  }

  lemma WithinBounds(rs: seq<Area>, lo: nat, hi: nat)
    requires Canonical(rs, lo, hi)
    ensures forall y :: Covers(rs, y) ==> lo <= y < hi
  {
  }

  /** The gap below area j ends up covered exactly if it closes. */
  lemma ClosesIff(rs: seq<Area>, ms: seq<Area>, nrFree: seq<nat>, q: Request, a: int, j: nat)
    requires Settled(rs, ms, nrFree, q, a) && 0 < j < |rs|
    ensures Closes(rs, nrFree, q, a, j) <==>
            forall y :: rs[j - 1].end <= y < rs[j].start ==> Covers(ms, y) || a <= y < a + q.length
  {
    hide FullPage, Covers, Canonical, PageWise, MarksFlagged, Multiple, Suits, Feasible;
    var s, e := rs[j - 1].end, rs[j].start;
    GapBetween(rs, q.low, q.high, j);
    assert GapOk(rs, ms, nrFree, q, a, s, e);
    WithinBounds(rs, q.low, q.high);
    RangeFree(rs, nrFree, q, a);
    assert a < s ==> a + q.length <= s;
    if Closes(rs, nrFree, q, a, j) {
      ClosedGap(rs, ms, nrFree, q, a, s, e);
    }
    if forall y :: s <= y < e ==> Covers(ms, y) || a <= y < a + q.length {
      assert !Covers(rs, s) && (s < a ==> !Covers(ms, s));
      assert Solid(nrFree, q, a, s, e);
      var t :| FilledFrom(ms, s, e, t) && (a < s ==> Multiple(q, e - t));
      assert a < s ==> Covers(ms, s) && t == s;
    }
  }

  lemma RangeFree(rs: seq<Area>, nrFree: seq<nat>, q: Request, a: int)
    requires Limit(rs, nrFree, q, a) && forall y :: Covers(rs, y) ==> q.low <= y
    ensures forall y :: a <= y < a + q.length ==> !Covers(rs, y)
  {
  }

  lemma ClosedGap(rs: seq<Area>, ms: seq<Area>, nrFree: seq<nat>, q: Request, a: int, s: int, e: int)
    requires Settled(rs, ms, nrFree, q, a) && Gap(rs, s, e) && q.low < s && e < q.high
    requires a <= s && (a < s ==> Multiple(q, e - s)) && Solid(nrFree, q, a, s, e)
    ensures forall y :: s <= y < e ==> Covers(ms, y) || a <= y < a + q.length
  {
    hide FullPage, Covers, Canonical, PageWise, MarksFlagged, Multiple, Suits;
    assert GapOk(rs, ms, nrFree, q, a, s, e);
    var t :| FilledFrom(ms, s, e, t) && (a < s ==> Multiple(q, e - t));
    if a < s && s < t {
      MultiplesApart(q, e - t, e - s);
    }
    var b := t - q.length;
    assert s <= b ==> Feasible(ms, b, q);
  }

  lemma BottomPage(qs: seq<Area>, w: int)
    requires PageWise(qs) && Bottom(qs, w)
    ensures w % PAGE_SIZE == 0
  {
    assert SameAsPage(qs, w) && SameAsPage(qs, w - 1);
    SamePage(w - 1);
  }

  /** Looking up page by page finds the first area. */
  lemma {:induction false} FirstAbove(rs: seq<Area>, q: Request, w: int, e: int, g: nat)
    requires w <= e < q.high && Covers(rs, e) && (forall y :: w <= y < e ==> !Covers(rs, y)) && w % PAGE_SIZE == 0
    requires e % PAGE_SIZE == 0 && q.length <= PAGE_SIZE && q.high % PAGE_SIZE == 0
    requires forall y :: Covers(rs, y) ==> y < q.high
    ensures MarkFlags(rs, w, Reach(q, w), g) <==> Flagged(rs, e, g)
    decreases e - w
  {
    hide Reach;
    if w < e {
      LookUp(rs, q, w, g);
      FirstAbove(rs, q, w + PAGE_SIZE, e, g);
    }
  }

  /** What is known of the pages below the area that starts at e. */
  lemma PagesBelow(rs: seq<Area>, ms: seq<Area>, nrFree: seq<nat>, q: Request, a: int, e: int)
    requires Settled(rs, ms, nrFree, q, a) && Bottom(rs, e)
    ensures e % PAGE_SIZE == 0 && q.low <= e < q.high
    ensures Covers(ms, e - 1) ==>
              Feasible(rs, e - q.length, q) && a < e - q.length && FullPage(nrFree, e - PAGE_SIZE)
    ensures Covers(ms, e - PAGE_SIZE - 1) && !Covers(rs, e - PAGE_SIZE - 1) ==> FullPage(nrFree, e - 2 * PAGE_SIZE)
    ensures q.length > PAGE_SIZE && Feasible(rs, e - q.length, q) && a < e - q.length ==>
              (FullPage(nrFree, e - PAGE_SIZE) ==> Covers(ms, e - 1))
              && (FullPage(nrFree, e - 2 * PAGE_SIZE) ==> Covers(ms, e - PAGE_SIZE - 1))
  {
    hide FullPage, Canonical, PageWise, MarksFlagged, GapOk, Limit, Feasible;
    WithinBounds(rs, q.low, q.high);
    hide Covers;
    BottomPage(rs, e);
    TwoPages(e);
    assert EdgeOk(rs, ms, nrFree, q, a, e);
    var b := e - q.length;
    assert Feasible(rs, b, q) && a < b ==> Tried(ms, nrFree, b, q.length);
  }

  lemma TwoPages(e: int)
    requires e % PAGE_SIZE == 0
    ensures PageOf(e - 1) == e - PAGE_SIZE && PageOf(e - PAGE_SIZE - 1) == e - 2 * PAGE_SIZE
  {
  }

  /** The gap below area j, if there is an area below, is not filled. */
  ghost predicate StaysOpen(rs: seq<Area>, ms: seq<Area>, j: int)
    requires 0 <= j < |rs|
  {
    j > 0 ==> exists y :: rs[j - 1].end <= y < rs[j].start && !Covers(ms, y)
  }

  lemma NoneBelowFirst(rs: seq<Area>, lo: nat, hi: nat, y: int)
    requires Canonical(rs, lo, hi) && 0 < |rs| && y < rs[0].start
    ensures !Covers(rs, y)
  {
  }

  /** Then the area of ms that area j belongs to starts in that gap. */
  lemma BottomOfArea(rs: seq<Area>, ms: seq<Area>, lo: nat, hi: nat, j: nat) returns (w: int)
    requires Canonical(rs, lo, hi) && Canonical(ms, lo, hi) && j < |rs| && Covers(ms, rs[j].start)
    requires StaysOpen(rs, ms, j)
    ensures Bottom(ms, w) && w <= rs[j].start && forall y :: w <= y < rs[j].start ==> !Covers(rs, y) && Covers(ms, y)
    ensures forall g :: Flagged(ms, rs[j].start, g) <==> Flagged(ms, w, g)
  {
    var e := rs[j].start;
    var k :| 0 <= k < |ms| && ms[k].start <= e < ms[k].end;
    w := ms[k].start;
    CoversMaximal(ms, lo, hi, k);
    forall y | w <= y <= e ensures Covers(ms, y) {
      assert ms[k].start <= y < ms[k].end;
    }
    hide Covers, Canonical, Flagged;
    forall g ensures Flagged(ms, e, g) <==> Flagged(ms, w, g) {
      OneFlag(ms, lo, hi, k, e, g);
      OneFlag(ms, lo, hi, k, w, g);
    }
    forall y | w <= y < e ensures !Covers(rs, y) {
      if j > 0 {
        GapBetween(rs, lo, hi, j);
      } else {
        NoneBelowFirst(rs, lo, hi, y);
      }
    }
  }

  lemma StartFlag(rs: seq<Area>, lo: nat, hi: nat, j: nat, g: nat)
    requires Canonical(rs, lo, hi) && j < |rs|
    ensures Flagged(rs, rs[j].start, g) <==> g == rs[j].flags
  {
    OneFlag(rs, lo, hi, j, rs[j].start, g);
  }

  /** The flags of area j when the gap below it is not filled. */
  lemma AreaFlags(rs: seq<Area>, ms: seq<Area>, nrFree: seq<nat>, q: Request, a: int, j: nat, g: nat)
    requires Settled(rs, ms, nrFree, q, a) && q.high % PAGE_SIZE == 0 && j < |rs| && StaysOpen(rs, ms, j)
    ensures Flagged(ms, rs[j].start, g) <==>
            if TopFull(rs, nrFree, q, a, j) then g == CONFLICT else g == rs[j].flags
  {
    hide FullPage, Feasible, PageWise, Flagged, StaysOpen, Covers, Canonical, Marked, TriesOk, MarkFlags, Reach, Limit;
    var e := rs[j].start;
    CoversMaximal(rs, q.low, q.high, j);
    StartFlag(rs, q.low, q.high, j, g);
    MarkedCovers(rs, ms, nrFree, e);
    var w := BottomOfArea(rs, ms, q.low, q.high, j);
    BottomPage(ms, w);
    PagesBelow(rs, ms, nrFree, q, a, e);
    WithinBounds(rs, q.low, q.high);
    assert BottomOk(rs, ms, nrFree, q, w);
    assert Flagged(ms, w, g) <==> MarkFlags(rs, w, Reach(q, w), g);
    FlagsFromBottom(rs, q, w, e, g);
  }

  lemma MarkedCovers(rs: seq<Area>, ms: seq<Area>, nrFree: seq<nat>, y: int)
    requires Marked(rs, ms, nrFree) && Covers(rs, y)
    ensures Covers(ms, y)
  {
  }

  lemma FlagsFromBottom(rs: seq<Area>, q: Request, w: int, e: int, g: nat)
    requires w <= e < q.high && Covers(rs, e) && (forall y :: w <= y < e ==> !Covers(rs, y)) && w % PAGE_SIZE == 0
    requires e % PAGE_SIZE == 0 && q.high % PAGE_SIZE == 0 && forall y :: Covers(rs, y) ==> y < q.high
    ensures MarkFlags(rs, w, Reach(q, w), g) <==>
            if q.length > PAGE_SIZE && w < e - PAGE_SIZE then g == CONFLICT else Flagged(rs, e, g)
  {
    hide Reach;
    if q.length <= PAGE_SIZE {
      FirstAbove(rs, q, w, e, g);
    } else if w < e {
      LookUp(rs, q, w, g);
    }
  }

  /** Addresses covered without a break lie in one area. */
  lemma OneArea(rs: seq<Area>, lo: nat, hi: nat, x: int, z: int) returns (i: nat)
    requires Canonical(rs, lo, hi) && x <= z && forall y :: x <= y <= z ==> Covers(rs, y)
    ensures i < |rs| && rs[i].start <= x && z < rs[i].end
  {
    assert Covers(rs, x);
    i :| i < |rs| && rs[i].start <= x < rs[i].end;
    CoversMaximal(rs, lo, hi, i);
  }

  lemma SameFlags(us: seq<Area>, lo: nat, hi: nat, x: int, z: int) returns (f: nat)
    requires Canonical(us, lo, hi) && x <= z && forall y :: x <= y <= z ==> Covers(us, y)
    ensures forall g :: (Flagged(us, x, g) <==> g == f) && (Flagged(us, z, g) <==> g == f)
  {
    hide Covers, Canonical, Flagged;
    var i := OneArea(us, lo, hi, x, z);
    f := us[i].flags;
    forall g ensures (Flagged(us, x, g) <==> g == f) && (Flagged(us, z, g) <==> g == f) {
      OneFlag(us, lo, hi, i, x, g);
      OneFlag(us, lo, hi, i, z, g);
    }
  }

  /** How a call ends: with the range at a added, if a is suitable. */
  ghost predicate Ends(rs: seq<Area>, ms: seq<Area>, us: seq<Area>, nrFree: seq<nat>, q: Request, a: int, f: nat) {
    && Settled(rs, ms, nrFree, q, a) && Canonical(us, q.low, q.high) && q.high % PAGE_SIZE == 0
    && if Suits(rs, nrFree, a, q) then Adds(ms, us, a, a + q.length) && AddsFlags(ms, us, a, a + q.length, f)
       else us == ms
  }

  lemma OpenFlags(rs: seq<Area>, ms: seq<Area>, us: seq<Area>, nrFree: seq<nat>, q: Request, a: int, f: nat, j: nat,
      g: nat)
    requires Ends(rs, ms, us, nrFree, q, a, f) && j < |rs| && (j > 0 ==> !Closes(rs, nrFree, q, a, j))
    ensures Flagged(us, rs[j].start, g) <==>
            if TopFull(rs, nrFree, q, a, j) then g == CONFLICT else g == rs[j].flags
  {
    hide FullPage, Feasible, PageWise, Flagged, Covers, Canonical, TriesOk, MarksFlagged, Closes, TopFull, Suits, Solid;
    var e, z := rs[j].start, a + q.length;
    CoversMaximal(rs, q.low, q.high, j);
    WithinBounds(rs, q.low, q.high);
    RangeFree(rs, nrFree, q, a);
    if j > 0 {
      ClosesIff(rs, ms, nrFree, q, a, j);
      GapBetween(rs, q.low, q.high, j);
    } else {
      forall y | y < e ensures !Covers(rs, y) {
        NoneBelowFirst(rs, q.low, q.high, y);
      }
    }
    AreaFlags(rs, ms, nrFree, q, a, j, g);
    assert z <= e ==> !Joins(ms, a, z, e);
  }

  lemma ClosedFlags(rs: seq<Area>, ms: seq<Area>, us: seq<Area>, nrFree: seq<nat>, q: Request, a: int, f: nat, j: nat)
    requires Ends(rs, ms, us, nrFree, q, a, f) && 0 < j < |rs| && Closes(rs, nrFree, q, a, j)
    ensures forall y :: rs[j - 1].start <= y <= rs[j].start ==> Covers(us, y)
  {
    hide FullPage, Feasible, PageWise, Flagged, Canonical, TriesOk, MarksFlagged, Closes, AddsFlags;
    ClosesIff(rs, ms, nrFree, q, a, j);
    CoversMaximal(rs, q.low, q.high, j);
    GapBetween(rs, q.low, q.high, j);
    forall y | rs[j - 1].start <= y <= rs[j].start ensures Covers(us, y) {
      if y < rs[j - 1].end {
        assert Covers(rs, y);
      }
    }
  }

  lemma EndsCovers(rs: seq<Area>, ms: seq<Area>, us: seq<Area>, nrFree: seq<nat>, q: Request, a: int, f: nat)
    requires Ends(rs, ms, us, nrFree, q, a, f)
    ensures forall y :: Covers(rs, y) ==> Covers(us, y)
  {
    hide FullPage, Feasible, PageWise, Canonical, TriesOk, MarksFlagged, AddsFlags;
  }

  /** Flags are kept if they are at the start of every area. */
  lemma KeptByStarts(rs: seq<Area>, us: seq<Area>, lo: nat, hi: nat)
    requires Canonical(rs, lo, hi) && Canonical(us, lo, hi) && forall y :: Covers(rs, y) ==> Covers(us, y)
    requires forall j :: 0 <= j < |rs| ==> Flagged(us, rs[j].start, rs[j].flags)
    ensures Kept(rs, us)
  {
    forall y, g | Flagged(rs, y, g) ensures Flagged(us, y, g) {
      var j :| 0 <= j < |rs| && rs[j].start <= y < rs[j].end && rs[j].flags == g;
      forall x | rs[j].start <= x <= y ensures Covers(us, x) {
        assert Covers(rs, x);
      }
      hide Flagged, Covers, Canonical;
      var f := SameFlags(us, lo, hi, rs[j].start, y);
    }
  }

  lemma {:induction false} StartKept(rs: seq<Area>, ms: seq<Area>, us: seq<Area>, nrFree: seq<nat>, q: Request, a: int,
      f: nat, j: nat)
    requires Ends(rs, ms, us, nrFree, q, a, f) && AllKeep(rs, nrFree, q, a) && j < |rs|
    ensures Flagged(us, rs[j].start, rs[j].flags)
  {
    hide Ends, Flagged, Closes, TopFull, Covers, Canonical;
    assert AreaKeeps(rs, nrFree, q, a, j);
    if j > 0 && Closes(rs, nrFree, q, a, j) {
      StartKept(rs, ms, us, nrFree, q, a, f, j - 1);
      ClosedFlags(rs, ms, us, nrFree, q, a, f, j);
      EndsCanonical(rs, ms, us, nrFree, q, a, f);
      GapBetween(rs, q.low, q.high, j);
      var g := SameFlags(us, q.low, q.high, rs[j - 1].start, rs[j].start);
    } else {
      OpenFlags(rs, ms, us, nrFree, q, a, f, j, rs[j].flags);
    }
  }

  lemma EndsCanonical(rs: seq<Area>, ms: seq<Area>, us: seq<Area>, nrFree: seq<nat>, q: Request, a: int, f: nat)
    requires Ends(rs, ms, us, nrFree, q, a, f)
    ensures Canonical(rs, q.low, q.high) && Canonical(us, q.low, q.high)
    ensures forall j :: 0 < j < |rs| ==> rs[j - 1].start <= rs[j].start
  {
  }

  lemma KeptKeeps(rs: seq<Area>, ms: seq<Area>, us: seq<Area>, nrFree: seq<nat>, q: Request, a: int, f: nat, j: nat)
    requires Ends(rs, ms, us, nrFree, q, a, f) && Kept(rs, us) && j < |rs|
    ensures AreaKeeps(rs, nrFree, q, a, j)
  {
    hide Ends, Flagged, Closes, TopFull, Covers, Canonical;
    EndsCanonical(rs, ms, us, nrFree, q, a, f);
    StartFlag(rs, q.low, q.high, j, rs[j].flags);
    if j > 0 && Closes(rs, nrFree, q, a, j) {
      StartFlag(rs, q.low, q.high, j - 1, rs[j - 1].flags);
      ClosedFlags(rs, ms, us, nrFree, q, a, f, j);
      var g := SameFlags(us, q.low, q.high, rs[j - 1].start, rs[j].start);
    } else {
      OpenFlags(rs, ms, us, nrFree, q, a, f, j, rs[j].flags);
    }
  }

  /** A call keeps the flags of every address exactly if no area is to take others. */
  lemma KeptIff(rs: seq<Area>, ms: seq<Area>, us: seq<Area>, nrFree: seq<nat>, q: Request, a: int, f: nat)
    requires Ends(rs, ms, us, nrFree, q, a, f)
    ensures Kept(rs, us) <==> AllKeep(rs, nrFree, q, a)
  {
    hide Ends, AreaKeeps, Kept, Flagged, Canonical, Covers;
    if Kept(rs, us) {
      forall j | 0 <= j < |rs| ensures AreaKeeps(rs, nrFree, q, a, j) {
        KeptKeeps(rs, ms, us, nrFree, q, a, f, j);
      }
    }
    if AllKeep(rs, nrFree, q, a) {
      forall j | 0 <= j < |rs| ensures Flagged(us, rs[j].start, rs[j].flags) {
        StartKept(rs, ms, us, nrFree, q, a, f, j);
      }
      EndsCanonical(rs, ms, us, nrFree, q, a, f);
      EndsCovers(rs, ms, us, nrFree, q, a, f);
      KeptByStarts(rs, us, q.low, q.high);
    }
  }

  // ---- the flags of the range itself

  /** The flags that the range at a gets when asked for with f, by what was there before
      the call: those of the area it touches below, else those of the area or the mark
      above it, and there is one unless the range ends at the top. */
  ghost predicate RangeTakes(rs: seq<Area>, q: Request, a: int, f: nat, g: nat) {
    var z := a + q.length;
    if Covers(rs, a - 1) then Flagged(rs, a - 1, g)
    else if z < q.high then MarkFlags(rs, z, Reach(q, z), g)
    else g == f
  }

  lemma RangeTakesIff(rs: seq<Area>, ms: seq<Area>, nrFree: seq<nat>, q: Request, a: int, f: nat, g: nat)
    requires MarksFlagged(rs, ms, nrFree, q) && FlagsBelow(rs, ms, a + q.length) && q.length > 0
    requires FreeRange(ms, a, q.length) && (Covers(ms, a + q.length) <==> a + q.length < q.high)
    ensures TakesFlags(ms, a, a + q.length, f, g) <==> RangeTakes(rs, q, a, f, g)
  {
    hide Flagged, FreeRange, MarkFlags, Reach;
    var z := a + q.length;
    BelowCovers(rs, ms, z, a - 1);
    LastFree(ms, a, q.length);
    if Covers(ms, z) {
      assert Bottom(ms, z);
      assert BottomOk(rs, ms, nrFree, q, z);
    }
  }

  lemma LastFree(ms: seq<Area>, a: int, len: int)
    requires FreeRange(ms, a, len) && len > 0
    ensures !Covers(ms, a + len - 1)
  {
  }

  lemma BelowCovers(rs: seq<Area>, qs: seq<Area>, z: int, y: int)
    requires FlagsBelow(rs, qs, z) && y < z
    ensures Covers(qs, y) <==> Covers(rs, y)
  {
    if i :| 0 <= i < |rs| && rs[i].start <= y < rs[i].end {
      assert Flagged(rs, y, rs[i].flags);
    }
    if i :| 0 <= i < |qs| && qs[i].start <= y < qs[i].end {
      assert Flagged(qs, y, qs[i].flags);
    }
  }

  // ---- a try, page by page

  /** A try at x is about to be made on qs, whose marks are accounted for. */
  ghost predicate TryAt(rs: seq<Area>, qs: seq<Area>, nrFree: seq<nat>, q: Request, x: int) {
    && MarksFlagged(rs, qs, nrFree, q) && (forall y :: Covers(rs, y) ==> Covers(qs, y) && y < q.high)
    && x + q.length <= q.high
    && (q.length <= PAGE_SIZE ==> (Covers(qs, x + q.length) <==> x + q.length < q.high))
  }

  /** Page p of the try is next. */
  lemma NextMark(rs: seq<Area>, qs: seq<Area>, ts: seq<Area>, nrFree: seq<nat>, q: Request, x: int, p: int)
    requires TryAt(rs, qs, nrFree, q, x) && MarkedUpTo(qs, ts, nrFree, x, p) && FreeRange(qs, x, q.length)
    requires x % PAGE_SIZE == 0 && q.length % PAGE_SIZE == 0 && p % PAGE_SIZE == 0 && x <= p < x + q.length
    requires FullPage(nrFree, p)
    ensures Marking(rs, ts, nrFree, q, x, p)
  {
    hide FullPage, MarksFlagged, Covers;
    TwoPages(p);
    PageFits(x, q.length, p);
  }

  lemma PageFits(x: int, len: int, p: int)
    requires x % PAGE_SIZE == 0 && len % PAGE_SIZE == 0 && p % PAGE_SIZE == 0 && x <= p < x + len
    ensures p + PAGE_SIZE <= x + len && (len <= PAGE_SIZE ==> x + len == p + PAGE_SIZE && p == x)
  {
  }
}
