/** Powers of two, low bits of page numbers, and blocks aligned to powers of two. */
module Pow2 {

  function Pow(o: nat): (r: nat)
    ensures r > 0
  {
    if o == 0 then 1 else 2 * Pow(o - 1)
  }

  /** The low o bits of p are zero. */
  predicate Aligned(p: nat, o: nat)
    decreases o
  {
    o == 0 || (p % 2 == 0 && Aligned(p / 2, o - 1))
  }

  /** p with bit o flipped. */
  function Flip(p: nat, o: nat): nat
    decreases o
  {
    if o == 0 then (if p % 2 == 0 then p + 1 else p - 1)
    else 2 * Flip(p / 2, o - 1) + p % 2
  }

  /** The low o bits of p. */
  function Low(p: nat, o: nat): nat
    decreases o
  {
    if o == 0 then 0 else p % 2 + 2 * Low(p / 2, o - 1)
  }

  function BitAnd(p: nat, q: nat): nat
    decreases p
  {
    if p == 0 || q == 0 then 0
    else (if p % 2 == 1 && q % 2 == 1 then 1 else 0) + 2 * BitAnd(p / 2, q / 2)
  }

  lemma {:induction false} AlignedDown(p: nat, o: nat, k: nat)
    requires Aligned(p, o) && k <= o
    ensures Aligned(p, k)
    decreases o
  {
    if k > 0 {
      AlignedDown(p / 2, o - 1, k - 1);
    }
  }

  lemma {:induction false} AlignedAdd(p: nat, q: nat, o: nat)
    requires Aligned(p, o) && Aligned(q, o)
    ensures Aligned(p + q, o)
    decreases o
  {
    if o > 0 {
      AlignedAdd(p / 2, q / 2, o - 1);
      assert (p + q) / 2 == p / 2 + q / 2;
    }
  }

  lemma {:induction false} PowAligned(o: nat, k: nat)
    requires k <= o
    ensures Aligned(Pow(o), k) && Pow(k) <= Pow(o)
    decreases o
  {
    if k > 0 {
      PowAligned(o - 1, k - 1);
    }
  }

  /** An aligned block between aligned bounds fits. */
  lemma {:induction false} AlignedBound(p: nat, q: nat, o: nat)
    requires Aligned(p, o) && Aligned(q, o) && p < q
    ensures p + Pow(o) <= q
    decreases o
  {
    if o > 0 {
      AlignedBound(p / 2, q / 2, o - 1);
    }
  }

  /** Blocks that meet are nested. */
  lemma {:induction false} Nested(p: nat, o: nat, q: nat, k: nat)
    requires Aligned(p, o) && Aligned(q, k) && k <= o && q < p + Pow(o) && p < q + Pow(k)
    ensures p <= q && q + Pow(k) <= p + Pow(o)
    decreases k
  {
    if k > 0 {
      Nested(p / 2, o - 1, q / 2, k - 1);
    }
  }

  // ---- buddies

  function Lower(p: nat, o: nat): nat { if p < Flip(p, o) then p else Flip(p, o) }

  /** Buddies are the halves of one block of the next order. */
  lemma {:induction false} BuddyFacts(p: nat, o: nat)
    requires Aligned(p, o)
    ensures var b := Flip(p, o);
            && Aligned(b, o) && (b == p + Pow(o) || p == b + Pow(o)) && Flip(b, o) == p
            && Aligned(Lower(p, o), o + 1)
    decreases o
  {
    if o > 0 {
      BuddyFacts(p / 2, o - 1);
      assert Lower(p, o) == 2 * Lower(p / 2, o - 1);
    } else {
      assert Lower(p, 0) % 2 == 0;
      assert Aligned(Lower(p, 0) / 2, 0);
    }
  }

  /** The upper half of a block, and its buddy. */
  lemma {:induction false} UpperHalf(p: nat, o: nat)
    requires Aligned(p, o + 1)
    ensures Aligned(p, o) && Aligned(p + Pow(o), o) && Flip(p + Pow(o), o) == p
    decreases o
  {
    if o > 0 {
      UpperHalf(p / 2, o - 1);
      assert (p + Pow(o)) / 2 == p / 2 + Pow(o - 1);
    }
  }

  /** The flip does the same to a page number's low bits. */
  lemma {:induction false} FlipLow(p: nat, o: nat, m: nat)
    requires o < m
    ensures Flip(Low(p, m), o) - Low(p, m) == Flip(p, o) - p
    decreases o
  {
    if o > 0 {
      FlipLow(p / 2, o - 1, m - 1);
    }
  }

  lemma LowerStep(p: nat, o: nat)
    ensures o == 0 ==> Lower(p, o) == p - p % 2
    ensures o > 0 ==> Lower(p, o) == 2 * Lower(p / 2, o - 1) + p % 2
  {
  }

  lemma AndStep(p: nat, q: nat)
    ensures BitAnd(p, q) == (if p % 2 == 1 && q % 2 == 1 then 1 else 0) + 2 * BitAnd(p / 2, q / 2)
  {
  }

  /** Masking buddies with each other gives the lower one. */
  lemma {:induction false} AndLower(p: nat, o: nat)
    requires Aligned(p, o)
    ensures BitAnd(Flip(p, o), p) == Lower(p, o)
    decreases o
  {
    AndStep(Flip(p, o), p);
    LowerStep(p, o);
    hide Lower, BitAnd;
    if o > 0 {
      AndLower(p / 2, o - 1);
      assert Flip(p, o) / 2 == Flip(p / 2, o - 1);
    } else {
      assert Flip(p, o) / 2 == p / 2;
      AndSame(p / 2);
    }
  }

  lemma {:induction false} AndSame(p: nat)
    ensures BitAnd(p, p) == p
    decreases p
  {
    if p > 0 {
      AndSame(p / 2);
    }
  }

  lemma {:induction false} LowAligned(p: nat, o: nat, m: nat)
    requires Aligned(p, o) && o <= m
    ensures Aligned(Low(p, m), o)
    decreases o
  {
    if o > 0 {
      LowAligned(p / 2, o - 1, m - 1);
    }
  }

  lemma LowStep(p: nat, m: nat)
    requires m > 0
    ensures Low(p, m) == p % 2 + 2 * Low(p / 2, m - 1) && Low(p, m) % 2 == p % 2 && Low(p, m) / 2 == Low(p / 2, m - 1)
  {
  }

  /** Going to the lower buddy does the same to the low bits. */
  lemma {:induction false} LowLower(p: nat, o: nat, m: nat)
    requires o < m
    ensures Low(Lower(p, o), m) == Lower(Low(p, m), o) && Lower(Low(p, m), o) - Low(p, m) == Lower(p, o) - p
    decreases o
  {
    hide Lower, Low;
    LowerStep(p, o);
    LowStep(p, m);
    LowerStep(Low(p, m), o);
    LowStep(Lower(p, o), m);
    if o > 0 {
      LowLower(p / 2, o - 1, m - 1);
      assert Lower(p, o) / 2 == Lower(p / 2, o - 1);
    } else {
      assert Lower(p, o) / 2 == p / 2;
    }
  }

  /** The number of the lowest bit set. */
  function Ffs(p: nat): (o: nat)
    requires p > 0
    ensures Aligned(p, o)
    decreases p
  {
    if p % 2 == 1 then 0 else 1 + Ffs(p / 2)
  }

  /** x rounded up to a multiple of 2^o, as adding and masking does it. */
  function AlignUp(x: nat, o: nat): nat {
    LowBound(x + Pow(o) - 1, o);
    x + Pow(o) - 1 - Low(x + Pow(o) - 1, o)
  }

  lemma {:induction false} LowBound(p: nat, o: nat)
    ensures Low(p, o) < Pow(o) && Low(p, o) <= p && Aligned(p - Low(p, o), o)
    decreases o
  {
    if o > 0 {
      LowBound(p / 2, o - 1);
      assert (p - Low(p, o)) / 2 == p / 2 - Low(p / 2, o - 1);
    }
  }

  lemma AlignUpLeast(x: nat, o: nat, y: nat)
    ensures x <= AlignUp(x, o) && Aligned(AlignUp(x, o), o)
    ensures Aligned(y, o) && x <= y ==> AlignUp(x, o) <= y
  {
    LowBound(x + Pow(o) - 1, o);
    if Aligned(y, o) && x <= y && y < AlignUp(x, o) {
      AlignedBound(y, AlignUp(x, o), o);
      assert false;
    }
  }
}
