/** What an allocation of virtual pages may return. */
module VaSpec {
  import opened PageTypes
  import opened VmaList
  import opened VmaSpec
  import opened GapSearch

  function PageOf(a: int): int { a / PAGE_SIZE * PAGE_SIZE }

  function PageAlign(len: nat): (r: nat)
    ensures len <= r < len + PAGE_SIZE && r % PAGE_SIZE == 0
  {
    (len + PAGE_SIZE - 1) / PAGE_SIZE * PAGE_SIZE
  }

  ghost predicate SameAsPage(rs: seq<Area>, a: int) { Covers(rs, a) <==> Covers(rs, PageOf(a)) }

  /** Areas cover whole pages. */
  ghost predicate PageWise(rs: seq<Area>) { forall a :: SameAsPage(rs, a) }

  /** The bucket of the page at y has no slot left. */
  predicate FullPage(nrFree: seq<nat>, y: int) {
    0 <= y && |nrFree| == NR_BUCKETS && nrFree[BucketIndex(y)] == 0
  }

  /** Address x can be given out: its range is free and every page can get a slot. */
  ghost predicate Suits(rs: seq<Area>, nrFree: seq<nat>, x: int, q: Request) {
    && x % PAGE_SIZE == 0 && Feasible(rs, x, q)
    && forall a :: x <= a < x + q.length ==> !FullPage(nrFree, PageOf(a))
  }

  /** Some pages without a slot left are covered in addition. */
  ghost predicate Marked(rs: seq<Area>, qs: seq<Area>, nrFree: seq<nat>) {
    && (forall a :: Covers(rs, a) ==> Covers(qs, a))
    && (forall a :: Covers(qs, a) && !Covers(rs, a) ==> FullPage(nrFree, PageOf(a)))
  }

  /** Of [addr, cur) exactly the pages without a slot left were marked. */
  ghost predicate MarkedUpTo(rs: seq<Area>, qs: seq<Area>, nrFree: seq<nat>, addr: int, cur: int) {
    forall a :: Covers(qs, a) <==> Covers(rs, a) || (addr <= a < cur && FullPage(nrFree, PageOf(a)))
  }

  lemma PageOfBounds(a: int)
    ensures PageOf(a) <= a < PageOf(a) + PAGE_SIZE && PageOf(PageOf(a)) == PageOf(a) && PageOf(a) % PAGE_SIZE == 0
  {
  }

  /** With whole pages covered, the greatest feasible address is a page's. */
  lemma GreatestIsPage(rs: seq<Area>, a: int, q: Request)
    requires Greatest(rs, a, q) && PageWise(rs) && q.length > 0 && q.length % PAGE_SIZE == 0 && q.high % PAGE_SIZE == 0
    ensures a % PAGE_SIZE == 0
  {
    if a % PAGE_SIZE != 0 {
      var b := PageOf(a) + PAGE_SIZE;
      RoundUp(a, q.length, q.high, b);
      forall x | b <= x < b + q.length ensures !Covers(rs, x) {
        if x >= a + q.length {
          SharedPage(a, q.length, b, x);
          assert SameAsPage(rs, x);
          assert !Covers(rs, PageOf(x));
        }
      }
      assert Feasible(rs, b, q);
    }
  }

  lemma RoundUp(a: int, len: int, high: int, b: int)
    requires a % PAGE_SIZE != 0 && len % PAGE_SIZE == 0 && high % PAGE_SIZE == 0 && a + len <= high
      && b == PageOf(a) + PAGE_SIZE
    ensures a < b < a + PAGE_SIZE && b + len <= high
  {
    var k, n, h := a / PAGE_SIZE, len / PAGE_SIZE, high / PAGE_SIZE;
    assert len == n * PAGE_SIZE && high == h * PAGE_SIZE;
    assert (k + n) * PAGE_SIZE < h * PAGE_SIZE;
  }

  lemma SharedPage(a: int, len: int, b: int, x: int)
    requires a < b < a + PAGE_SIZE && b % PAGE_SIZE == 0 && len % PAGE_SIZE == 0 && len > 0 && a + len <= x < b + len
    ensures a <= PageOf(x) < a + len
  {
    var k, n := b / PAGE_SIZE, len / PAGE_SIZE;
    assert b == k * PAGE_SIZE && len == n * PAGE_SIZE;
    assert x / PAGE_SIZE == k + n - 1;
  }

  /** Marks take no suitable address away, and give none. */
  lemma MarkedSuits(rs: seq<Area>, qs: seq<Area>, nrFree: seq<nat>, x: int, q: Request)
    requires Marked(rs, qs, nrFree)
    ensures Suits(rs, nrFree, x, q) <==> Suits(qs, nrFree, x, q)
  {
    if Suits(rs, nrFree, x, q) {
      forall a | x <= a < x + q.length ensures !Covers(qs, a) {
        assert !Covers(rs, a);
      }
    }
    if Suits(qs, nrFree, x, q) {
      forall a | x <= a < x + q.length ensures !Covers(rs, a) {
        assert !Covers(qs, a);
      }
    }
  }

  lemma MarkedTrans(rs: seq<Area>, qs: seq<Area>, ts: seq<Area>, nrFree: seq<nat>)
    requires Marked(rs, qs, nrFree) && Marked(qs, ts, nrFree)
    ensures Marked(rs, ts, nrFree)
  {
  }

  lemma MarkedUpToMarks(rs: seq<Area>, qs: seq<Area>, nrFree: seq<nat>, addr: int, cur: int)
    requires MarkedUpTo(rs, qs, nrFree, addr, cur)
    ensures Marked(rs, qs, nrFree)
  {
  }

  /** The greatest feasible address, all of whose pages can get a slot, is the
      greatest suitable one. */
  lemma FoundIsGreatest(rs: seq<Area>, qs: seq<Area>, nrFree: seq<nat>, a: int, q: Request)
    requires Marked(rs, qs, nrFree) && Greatest(qs, a, q) && a % PAGE_SIZE == 0
    requires forall x :: a <= x < a + q.length ==> !FullPage(nrFree, PageOf(x))
    ensures Suits(rs, nrFree, a, q) && forall x :: Suits(rs, nrFree, x, q) ==> x <= a
  {
    assert Suits(qs, nrFree, a, q);
    MarkedSuits(rs, qs, nrFree, a, q);
    forall x | Suits(rs, nrFree, x, q) ensures x <= a {
      MarkedSuits(rs, qs, nrFree, x, q);
    }
  }

  lemma NoneSuits(rs: seq<Area>, qs: seq<Area>, nrFree: seq<nat>, q: Request)
    requires Marked(rs, qs, nrFree) && Infeasible(qs, q)
    ensures forall x :: !Suits(rs, nrFree, x, q)
  {
    forall x ensures !Suits(rs, nrFree, x, q) {
      MarkedSuits(rs, qs, nrFree, x, q);
    }
  }

  // ---- marking one page after the other

  lemma MarkStep(rs: seq<Area>, qs: seq<Area>, ts: seq<Area>, nrFree: seq<nat>, addr: int, cur: int, full: bool)
    requires MarkedUpTo(rs, qs, nrFree, addr, cur) && addr <= cur && cur % PAGE_SIZE == 0
      && full == FullPage(nrFree, cur)
    requires if full then Adds(qs, ts, cur, cur + PAGE_SIZE) else ts == qs
    ensures MarkedUpTo(rs, ts, nrFree, addr, cur + PAGE_SIZE)
  {
    forall a ensures Covers(ts, a) <==> Covers(rs, a) || (addr <= a < cur + PAGE_SIZE && FullPage(nrFree, PageOf(a))) {
      if cur <= a < cur + PAGE_SIZE {
        assert PageOf(a) == cur;
      }
    }
  }

  lemma MarkedPageWise(rs: seq<Area>, qs: seq<Area>, nrFree: seq<nat>, addr: int, cur: int)
    requires MarkedUpTo(rs, qs, nrFree, addr, cur) && PageWise(rs) && addr % PAGE_SIZE == 0 && cur % PAGE_SIZE == 0
    ensures PageWise(qs)
  {
    forall a ensures SameAsPage(qs, a) {
      PageOfBounds(a);
      assert SameAsPage(rs, a);
      assert addr <= a < cur <==> addr <= PageOf(a) < cur;
    }
  }

  lemma AddsPageWise(rs: seq<Area>, qs: seq<Area>, start: int, end: int)
    requires Adds(rs, qs, start, end) && PageWise(rs) && start % PAGE_SIZE == 0 && end % PAGE_SIZE == 0
    ensures PageWise(qs)
  {
    forall a ensures SameAsPage(qs, a) {
      PageOfBounds(a);
      assert SameAsPage(rs, a);
      assert start <= a < end <==> start <= PageOf(a) < end;
    }
  }

  // ---- what is left shrinks

  ghost function Uncovered(rs: seq<Area>, hi: nat): set<int> {
    set a: int | 0 <= a < hi && !Covers(rs, a)
  }

  lemma FewerUncovered(rs: seq<Area>, qs: seq<Area>, nrFree: seq<nat>, hi: nat, a: int)
    requires Marked(rs, qs, nrFree) && 0 <= a < hi && !Covers(rs, a) && Covers(qs, a)
    ensures Uncovered(qs, hi) < Uncovered(rs, hi)
  {
    assert a in Uncovered(rs, hi) && a !in Uncovered(qs, hi);
  }

  // ---- whole pages, said two ways

  lemma CoversMaximal(rs: seq<Area>, lo: nat, hi: nat, i: nat)
    requires Canonical(rs, lo, hi) && i < |rs|
    ensures Covers(rs, rs[i].start) && Covers(rs, rs[i].end - 1) && !Covers(rs, rs[i].start - 1)
      && !Covers(rs, rs[i].end)
  {
  }

  lemma SamePage(a: int)
    ensures (a + 1) % PAGE_SIZE != 0 ==> PageOf(a + 1) == PageOf(a)
  {
  }

  /** Maximal areas cover whole pages just when their bounds are page bounds. */
  lemma PageWiseIsMultiples(rs: seq<Area>, lo: nat, hi: nat)
    requires Canonical(rs, lo, hi)
    ensures PageWise(rs) <==> Multiples(rs, PAGE_SIZE)
  {
    if PageWise(rs) {
      forall i | 0 <= i < |rs| ensures rs[i].start % PAGE_SIZE == 0 && rs[i].end % PAGE_SIZE == 0 {
        CoversMaximal(rs, lo, hi, i);
        assert SameAsPage(rs, rs[i].start) && SameAsPage(rs, rs[i].start - 1);
        assert SameAsPage(rs, rs[i].end) && SameAsPage(rs, rs[i].end - 1);
        SamePage(rs[i].start - 1);
        SamePage(rs[i].end - 1);
      }
    }
    if Multiples(rs, PAGE_SIZE) {
      forall a ensures SameAsPage(rs, a) {
        MultiplesSame(rs, a);
      }
    }
  }

  lemma MultiplesSame(rs: seq<Area>, a: int)
    requires Multiples(rs, PAGE_SIZE)
    ensures SameAsPage(rs, a)
  {
    forall i | 0 <= i < |rs| ensures rs[i].start <= a < rs[i].end <==> rs[i].start <= PageOf(a) < rs[i].end {
      PageOfBounds(a);
    }
  }
}
