/** 64-bit words, bit by bit. */
module Words {
  import opened Pow2

  const BITS: nat := 64

  predicate IsWord(w: nat) { w < Pow(BITS) }

  predicate Bit(w: nat, k: nat)
    decreases k
  {
    if k == 0 then w % 2 == 1 else Bit(w / 2, k - 1)
  }

  function BitOr(p: nat, q: nat): nat
    decreases p + q
  {
    if p == 0 then q else if q == 0 then p
    else (if p % 2 == 1 || q % 2 == 1 then 1 else 0) + 2 * BitOr(p / 2, q / 2)
  }

  /** All ones. */
  function Ones(): nat { Pow(BITS) - 1 }

  function BitNot(w: nat): nat
    requires IsWord(w)
  {
    Ones() - w
  }

  /** Shifted left by one, the top bit lost. */
  function Double(w: nat): nat { if 2 * w < Pow(BITS) then 2 * w else 2 * w - Pow(BITS) }

  function Shl(w: nat, n: nat): nat
    decreases n
  {
    if n == 0 then w else Shl(Double(w), n - 1)
  }

  function Shr(w: nat, n: nat): nat
    decreases n
  {
    if n == 0 then w else Shr(w / 2, n - 1)
  }

  lemma {:induction false} AndBit(p: nat, q: nat, k: nat)
    ensures Bit(BitAnd(p, q), k) <==> Bit(p, k) && Bit(q, k)
    decreases k
  {
    hide BitAnd;
    AndStep(p, q);
    if k > 0 {
      AndBit(p / 2, q / 2, k - 1);
    }
  }

  lemma OrStep(p: nat, q: nat)
    ensures BitOr(p, q) == (if p % 2 == 1 || q % 2 == 1 then 1 else 0) + 2 * BitOr(p / 2, q / 2)
  {
  }

  lemma {:induction false} OrBit(p: nat, q: nat, k: nat)
    ensures Bit(BitOr(p, q), k) <==> Bit(p, k) || Bit(q, k)
    decreases k
  {
    hide BitOr;
    OrStep(p, q);
    if k > 0 {
      OrBit(p / 2, q / 2, k - 1);
    }
  }

  lemma {:induction false} NotBitIn(w: nat, n: nat, k: nat)
    requires w < Pow(n) && k < n
    ensures Bit(Pow(n) - 1 - w, k) <==> !Bit(w, k)
    decreases k
  {
    if k > 0 {
      NotBitIn(w / 2, n - 1, k - 1);
      assert (Pow(n) - 1 - w) / 2 == Pow(n - 1) - 1 - w / 2;
    }
  }

  lemma NotBit(w: nat, k: nat)
    requires IsWord(w) && k < BITS
    ensures Bit(BitNot(w), k) <==> !Bit(w, k)
  {
    hide Pow, Bit;
    NotBitIn(w, BITS, k);
  }

  /** The word with ones from bit a up to bit b. */
  function Mask(a: nat, b: nat): nat
    requires a <= b
  {
    PowMono(a, b);
    Pow(b) - Pow(a)
  }

  lemma {:induction false} PowMono(a: nat, b: nat)
    requires a <= b
    ensures Pow(a) <= Pow(b)
    decreases a
  {
    if a > 0 {
      PowMono(a - 1, b - 1);
    }
  }

  lemma {:induction false} MaskBit(a: nat, b: nat, k: nat)
    requires a <= b
    ensures Bit(Mask(a, b), k) <==> a <= k < b
    decreases b, k
  {
    if a > 0 {
      assert Mask(a, b) == 2 * Mask(a - 1, b - 1);
      if k > 0 {
        MaskBit(a - 1, b - 1, k - 1);
      }
    } else if b > 0 {
      assert Mask(0, b) == 2 * Mask(0, b - 1) + 1;
      if k > 0 {
        MaskBit(0, b - 1, k - 1);
      }
    } else {
      ZeroBit(k);
    }
  }

  lemma {:induction false} ZeroBit(k: nat)
    ensures !Bit(0, k)
    decreases k
  {
    if k > 0 {
      ZeroBit(k - 1);
    }
  }

  lemma MaskStep(a: nat, b: nat)
    requires a <= b
    ensures Mask(a + 1, b + 1) == 2 * Mask(a, b)
  {
  }

  lemma DoubleMask(a: nat, b: nat)
    requires a <= b <= BITS && a < BITS
    ensures Double(Mask(a, b)) == if b < BITS then Mask(a + 1, b + 1) else Mask(a + 1, BITS)
  {
    hide Pow;
    MaskStep(a, b);
    if b < BITS {
      MaskWord(a + 1, b + 1);
    } else {
      TopMask(a);
    }
  }

  lemma TopMask(a: nat)
    requires a < BITS
    ensures 2 * Mask(a, BITS) == Mask(a + 1, BITS) + Pow(BITS) && 2 * Mask(a, BITS) >= Pow(BITS)
  {
    PowMono(a + 1, BITS);
    assert Pow(a + 1) == 2 * Pow(a);
  }

  /** Ones shifted up. */
  lemma {:induction false} ShlMask(a: nat, b: nat, n: nat)
    requires a <= b <= BITS && a + n <= BITS && (b + n <= BITS || b == BITS)
    ensures Shl(Mask(a, b), n) == Mask(a + n, if b + n <= BITS then b + n else BITS)
    decreases n
  {
    hide Pow, Mask, Double;
    if n > 0 {
      DoubleMask(a, b);
      ShlMask(a + 1, if b < BITS then b + 1 else BITS, n - 1);
    }
  }

  /** All ones shifted down. */
  lemma {:induction false} ShrMask(b: nat, n: nat)
    requires n <= b
    ensures Shr(Mask(0, b), n) == Mask(0, b - n)
    decreases n
  {
    if n > 0 {
      assert Mask(0, b) / 2 == Mask(0, b - 1);
      ShrMask(b - 1, n - 1);
    }
  }

  // ---- the masks of the bitmap code

  function FirstWordMask(start: nat): nat { Shl(Ones(), start % BITS) }

  function LastWordMask(nbits: nat): nat { Shr(Ones(), (BITS - nbits % BITS) % BITS) }

  lemma FirstMaskBit(start: nat, k: nat)
    ensures FirstWordMask(start) == Mask(start % BITS, BITS)
      && (Bit(FirstWordMask(start), k) <==> start % BITS <= k < BITS)
  {
    hide Pow, Bit, Shl;
    OnesMask();
    ShlMask(0, BITS, start % BITS);
    MaskBit(start % BITS, BITS, k);
  }

  lemma LastMaskBit(nbits: nat, k: nat)
    ensures var e := if nbits % BITS == 0 then BITS else nbits % BITS;
            LastWordMask(nbits) == Mask(0, e) && (Bit(LastWordMask(nbits), k) <==> k < e)
  {
    hide Pow, Bit, Shr;
    var e := if nbits % BITS == 0 then BITS else nbits % BITS;
    assert (BITS - nbits % BITS) % BITS == BITS - e;
    OnesMask();
    ShrMask(BITS, BITS - e);
    MaskBit(0, e, k);
  }

  lemma OnesMask()
    ensures Ones() == Mask(0, BITS)
  {
  }

  /** The lowest bit set is the one Ffs names. */
  lemma {:induction false} FfsBit(w: nat, k: nat)
    requires w > 0
    ensures Bit(w, Ffs(w)) && (k < Ffs(w) ==> !Bit(w, k))
    decreases w
  {
    if w % 2 == 0 {
      FfsBit(w / 2, if k > 0 then k - 1 else 0);
    }
  }

  lemma {:induction false} FfsBound(w: nat, n: nat)
    requires 0 < w < Pow(n)
    ensures Ffs(w) < n
    decreases n
  {
    if w % 2 == 0 {
      FfsBound(w / 2, n - 1);
    }
  }

  lemma {:induction false} AndWord(p: nat, q: nat)
    ensures BitAnd(p, q) <= p && BitAnd(p, q) <= q
    decreases p
  {
    if p > 0 && q > 0 {
      AndWord(p / 2, q / 2);
    }
  }

  lemma {:induction false} OrWord(p: nat, q: nat, n: nat)
    requires p < Pow(n) && q < Pow(n)
    ensures BitOr(p, q) < Pow(n)
    decreases n
  {
    if p > 0 && q > 0 {
      OrWord(p / 2, q / 2, n - 1);
    }
  }

  lemma MaskWord(a: nat, b: nat)
    requires a <= b <= BITS
    ensures IsWord(Mask(a, b))
  {
    PowMono(b, BITS);
    PowMono(a, b);
  }
}
