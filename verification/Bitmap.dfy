/** Searching and updating bitmaps word by word. */
module Bitmap {
  import opened Pow2
  import opened Words

  /** Bit i of a bitmap. */
  predicate BitAt(map_: seq<nat>, i: nat)
    requires i / BITS < |map_|
  {
    Bit(map_[i / BITS], i % BITS)
  }

  ghost predicate AllWords(map_: seq<nat>) { forall j :: 0 <= j < |map_| ==> IsWord(map_[j]) }

  /** The bitmap has room for nbits bits. */
  predicate Spans(map_: seq<nat>, nbits: nat) { nbits <= |map_| * BITS }

  lemma WordOf(map_: seq<nat>, nbits: nat, i: nat)
    requires Spans(map_, nbits) && i < nbits
    ensures i / BITS < |map_|
  {
  }

  /** A fetched word, inverted when zero bits are sought. */
  function Fetch(w: nat, invert: bool): nat
    requires IsWord(w)
  {
    if invert then BitNot(w) else w
  }

  lemma FetchBit(w: nat, invert: bool, k: nat)
    requires IsWord(w) && k < BITS
    ensures IsWord(Fetch(w, invert)) && (Bit(Fetch(w, invert), k) <==> Bit(w, k) != invert)
  {
    if invert {
      NotBit(w, k);
    }
  }

  /** No bit from a up to b is the one sought. */
  ghost predicate NoneFrom(map_: seq<nat>, a: int, b: int, invert: bool) {
    forall i :: a <= i < b && 0 <= i && i / BITS < |map_| ==> BitAt(map_, i) == invert
  }

  /** tmp holds the bits sought of the word at base, those from from on. */
  ghost predicate Window(map_: seq<nat>, tmp: nat, base: nat, from: nat, invert: bool) {
    && base % BITS == 0 && base / BITS < |map_| && IsWord(tmp) && from < BITS
    && forall k :: 0 <= k < BITS ==> (Bit(tmp, k) <==> from <= k && BitAt(map_, base + k) != invert)
  }

  lemma WindowFirst(map_: seq<nat>, start: nat, invert: bool)
    requires AllWords(map_) && start / BITS < |map_|
    ensures Window(map_, BitAnd(Fetch(map_[start / BITS], invert), FirstWordMask(start)), start / BITS * BITS,
      start % BITS, invert)
  {
    hide Pow, Bit, FirstWordMask;
    var w := map_[start / BITS];
    AndWord(Fetch(w, invert), FirstWordMask(start));
    FetchBit(w, invert, 0);
    forall k | 0 <= k < BITS
      ensures Bit(BitAnd(Fetch(w, invert), FirstWordMask(start)), k)
              <==> start % BITS <= k && BitAt(map_, start / BITS * BITS + k) != invert
    {
      FetchBit(w, invert, k);
      FirstMaskBit(start, k);
      AndBit(Fetch(w, invert), FirstWordMask(start), k);
      assert (start / BITS * BITS + k) / BITS == start / BITS && (start / BITS * BITS + k) % BITS == k;
    }
  }

  lemma WindowNext(map_: seq<nat>, base: nat, invert: bool)
    requires AllWords(map_) && base % BITS == 0 && base / BITS < |map_|
    ensures Window(map_, Fetch(map_[base / BITS], invert), base, 0, invert)
  {
    hide Pow, Bit;
    var w := map_[base / BITS];
    FetchBit(w, invert, 0);
    forall k | 0 <= k < BITS ensures Bit(Fetch(w, invert), k) <==> BitAt(map_, base + k) != invert {
      FetchBit(w, invert, k);
    }
  }

  lemma WindowEmpty(map_: seq<nat>, base: nat, from: nat, invert: bool)
    requires Window(map_, 0, base, from, invert)
    ensures NoneFrom(map_, base + from, base + BITS, invert)
  {
    hide Pow, Bit;
    forall i | base + from <= i < base + BITS ensures BitAt(map_, i) == invert {
      ZeroBit(i - base);
    }
  }

  lemma WindowFound(map_: seq<nat>, tmp: nat, base: nat, from: nat, invert: bool)
    requires Window(map_, tmp, base, from, invert) && tmp > 0
    ensures from <= Ffs(tmp) < BITS && BitAt(map_, base + Ffs(tmp)) != invert
    ensures NoneFrom(map_, base + from, base + Ffs(tmp), invert)
  {
    hide Pow, Bit, Ffs;
    FfsBound(tmp, BITS);
    FfsBit(tmp, 0);
    forall i | base + from <= i < base + Ffs(tmp) ensures BitAt(map_, i) == invert {
      FfsBit(tmp, i - base);
    }
  }

  /** The least bit from start on that is set, or clear if inverted; nbits if none. */
  method FindNext(map_: seq<nat>, nbits: nat, start: nat, invert: bool) returns (r: nat)
    requires AllWords(map_) && Spans(map_, nbits)
    ensures r <= nbits && NoneFrom(map_, start, r, invert)
    ensures r < nbits ==> start <= r && r / BITS < |map_| && BitAt(map_, r) != invert
  {
    hide Pow, Bit, AllWords, IsWord, Ffs, BitAnd, FirstWordMask, Fetch;
    if nbits == 0 || start >= nbits {
      NoneEmpty(map_, start, nbits, invert);
      return nbits;
    }
    WordOf(map_, nbits, start);
    WordAt(map_, start / BITS);
    WindowFirst(map_, start, invert);
    var tmp: nat := BitAnd(Fetch(map_[start / BITS], invert), FirstWordMask(start));
    var s: nat := start / BITS * BITS;
    ghost var from: nat := start % BITS;
    while tmp == 0
      invariant Window(map_, tmp, s, from, invert) && s < nbits && start <= s + from
        && NoneFrom(map_, start, s + from, invert)
      decreases nbits - s
    {
      WindowEmpty(map_, s, from, invert);
      s := s + BITS;
      from := 0;
      if s >= nbits {
        return nbits;
      }
      WordOf(map_, nbits, s);
      WordAt(map_, s / BITS);
      WindowNext(map_, s, invert);
      tmp := Fetch(map_[s / BITS], invert);
    }
    WindowFound(map_, tmp, s, from, invert);
    r := if s + Ffs(tmp) < nbits then s + Ffs(tmp) else nbits;
  }

  lemma WordAt(map_: seq<nat>, j: nat)
    requires AllWords(map_) && j < |map_|
    ensures IsWord(map_[j])
  {
  }

  lemma NoneEmpty(map_: seq<nat>, a: nat, b: nat, invert: bool)
    requires b <= a
    ensures NoneFrom(map_, a, b, invert)
  {
  }

  // ---- setting and clearing runs of bits

  /** Bits from a up to b have value v; the others are as before. */
  ghost predicate Updated(old_: seq<nat>, new_: seq<nat>, a: int, b: int, v: bool) {
    && |new_| == |old_| && AllWords(new_)
    && forall i :: 0 <= i < |old_| * BITS ==> BitAt(new_, i) == if a <= i < b then v else BitAt(old_, i)
  }

  lemma UpdatedNone(m: seq<nat>, a: int, v: bool)
    requires AllWords(m)
    ensures Updated(m, m, a, a, v)
  {
  }

  lemma UpdatedJoin(m: seq<nat>, m': seq<nat>, m'': seq<nat>, a: int, b: int, c: int, v: bool)
    requires Updated(m, m', a, b, v) && Updated(m', m'', b, c, v) && a <= b <= c
    ensures Updated(m, m'', a, c, v)
  {
    hide Bit, IsWord;
  }

  /** Word w with the bits of a mask set or cleared. */
  function Apply(w: nat, mask: nat, v: bool): nat
    requires IsWord(mask)
  {
    if v then BitOr(w, mask) else BitAnd(w, BitNot(mask))
  }

  lemma ApplyBit(w: nat, x: nat, y: nat, v: bool, k: nat)
    requires IsWord(w) && x <= y <= BITS && k < BITS
    ensures IsWord(Mask(x, y)) && IsWord(Apply(w, Mask(x, y), v))
    ensures Bit(Apply(w, Mask(x, y), v), k) <==> if x <= k < y then v else Bit(w, k)
  {
    hide Pow, Bit, Mask, BitNot, BitOr, BitAnd;
    MaskWord(x, y);
    MaskBit(x, y, k);
    if v {
      OrBit(w, Mask(x, y), k);
      OrWord(w, Mask(x, y), BITS);
    } else {
      NotBit(Mask(x, y), k);
      AndBit(w, BitNot(Mask(x, y)), k);
      AndWord(w, BitNot(Mask(x, y)));
    }
  }

  lemma ApplyWord(m: seq<nat>, p: nat, x: nat, y: nat, v: bool)
    requires AllWords(m) && p < |m| && x <= y <= BITS
    ensures IsWord(Mask(x, y)) && Updated(m, m[p := Apply(m[p], Mask(x, y), v)], p * BITS + x, p * BITS + y, v)
  {
    hide Pow, Bit, Mask, Apply;
    ApplyBit(m[p], x, y, v, 0);
    var m' := m[p := Apply(m[p], Mask(x, y), v)];
    forall i | 0 <= i < |m| * BITS
      ensures BitAt(m', i) == if p * BITS + x <= i < p * BITS + y then v else BitAt(m, i)
    {
      if i / BITS == p {
        ApplyBit(m[p], x, y, v, i % BITS);
      }
    }
  }

  lemma TailMask(pos: nat, size: nat)
    requires pos < size < (pos / BITS + 1) * BITS
    ensures BitAnd(Mask(pos % BITS, BITS), LastWordMask(size)) == Mask(pos % BITS, size % BITS)
    ensures pos % BITS < size % BITS && size / BITS == pos / BITS
  {
    hide Pow, Bit, LastWordMask;
    LastMaskBit(size, 0);
    AndMasks(pos % BITS, BITS, size % BITS);
  }

  /** Ones from a on, masked with ones below e. */
  lemma {:induction false} AndMasks(a: nat, b: nat, e: nat)
    requires a <= e <= b
    ensures BitAnd(Mask(a, b), Mask(0, e)) == Mask(a, e)
    decreases b
  {
    hide Pow, Mask, BitAnd;
    AndStep(Mask(a, b), Mask(0, e));
    if e == 0 {
      NoMask();
      AndZero(Mask(a, b));
    } else {
      OnesStep(e - 1);
      if a == 0 {
        OnesStep(b - 1);
        AndMasks(0, b - 1, e - 1);
      } else {
        MaskStep(a - 1, b - 1);
        MaskStep(a - 1, e - 1);
        AndMasks(a - 1, b - 1, e - 1);
      }
    }
  }

  lemma NoMask()
    ensures Mask(0, 0) == 0
  {
  }

  lemma AndZero(p: nat)
    ensures BitAnd(p, 0) == 0
  {
  }

  lemma OnesStep(b: nat)
    ensures Mask(0, b + 1) == 2 * Mask(0, b) + 1
  {
  }

  /** Sets (v) or clears len bits from start on. */
  method SetRun(map_: array<nat>, start: nat, len: nat, v: bool)
    requires AllWords(map_[..]) && start + len <= map_.Length * BITS
    modifies map_
    ensures Updated(old(map_[..]), map_[..], start, start + len, v)
  {
    hide Pow, Bit, AllWords, IsWord, Mask, Apply, FirstWordMask, LastWordMask, BitAnd, Updated;
    ghost var m0 := map_[..];
    UpdatedNone(m0, start, v);
    FirstMaskBit(start, 0);
    var p, size, rest, bits, mask: nat := start / BITS, start + len, len, BITS - start % BITS, FirstWordMask(start);
    ghost var pos := start;
    while rest >= bits
      invariant 0 <= rest && rest == size - pos && start <= pos && p == pos / BITS && bits == BITS - pos % BITS
      invariant mask == Mask(pos % BITS, BITS) && Updated(m0, map_[..], start, pos, v)
      decreases rest
    {
      ghost var m := map_[..];
      RunWord(m0, m, pos, bits, size, start, v);
      map_[p] := Apply(map_[p], mask, v);
      assert map_[..] == m[p := Apply(m[p], mask, v)];
      UpdatedJoin(m0, m, map_[..], start, pos, pos + bits, v);
      rest, pos := rest - bits, pos + bits;
      bits, mask, p := BITS, Ones(), p + 1;
      OnesMask();
    }
    if rest > 0 {
      ghost var m := map_[..];
      RunTail(m0, m, pos, size, start, v);
      mask := BitAnd(mask, LastWordMask(size));
      map_[p] := Apply(map_[p], mask, v);
      assert map_[..] == m[p := Apply(m[p], mask, v)];
      UpdatedJoin(m0, m, map_[..], start, pos, size, v);
    }
  }

  lemma RunWord(m0: seq<nat>, m: seq<nat>, pos: nat, bits: nat, size: nat, start: nat, v: bool)
    requires Updated(m0, m, start, pos, v) && bits == BITS - pos % BITS && pos + bits <= size <= |m0| * BITS
    ensures pos / BITS < |m| && IsWord(Mask(pos % BITS, BITS))
    ensures Updated(m, m[pos / BITS := Apply(m[pos / BITS], Mask(pos % BITS, BITS), v)], pos, pos + bits, v)
    ensures (pos + bits) % BITS == 0 && (pos + bits) / BITS == pos / BITS + 1
  {
    hide Bit, Mask, Apply;
    ApplyWord(m, pos / BITS, pos % BITS, BITS, v);
  }

  lemma RunTail(m0: seq<nat>, m: seq<nat>, pos: nat, size: nat, start: nat, v: bool)
    requires Updated(m0, m, start, pos, v) && pos < size < pos + BITS - pos % BITS && size <= |m0| * BITS
    ensures pos / BITS < |m| && IsWord(BitAnd(Mask(pos % BITS, BITS), LastWordMask(size)))
    ensures Updated(m, m[pos / BITS := Apply(m[pos / BITS], BitAnd(Mask(pos % BITS, BITS), LastWordMask(size)), v)],
      pos, size, v)
  {
    hide Bit, Mask, Apply, LastWordMask;
    TailMask(pos, size);
    ApplyWord(m, pos / BITS, pos % BITS, size % BITS, v);
  }

  // ---- regions: aligned runs of 2^order bits

  /** The bits of the region at pos. */
  ghost predicate RegionFree(m: seq<nat>, pos: nat, order: nat) { NoneFrom(m, pos, pos + Pow(order), false) }

  /** Geometry of a region: words spanned, bits per word, offset in the first. */
  lemma RegionShape(pos: nat, order: nat)
    requires Aligned(pos, order)
    ensures order < 6 ==> Pow(order) < BITS && pos % BITS + Pow(order) <= BITS
    ensures order >= 6 ==> pos % BITS == 0 && Pow(order) == Pow(order - 6) * BITS
  {
    if order < 6 {
      SmallPow(order);
      AlignedUp(pos / BITS + 1, 6, order);
      AlignedBound(pos, (pos / BITS + 1) * BITS, order);
    } else {
      AlignedDown(pos, order, 6);
      SixBits(pos);
      SixMore(order - 6);
    }
  }

  lemma SmallPow(order: nat)
    requires order < 6
    ensures Pow(order) <= 32
  {
    PowMono(order, 5);
    assert Pow(1) == 2 && Pow(2) == 4 && Pow(3) == 8 && Pow(4) == 16 && Pow(5) == 32;
  }

  lemma SixMore(o: nat)
    ensures Pow(o + 6) == Pow(o) * BITS
  {
    assert Pow(o + 2) == 4 * Pow(o);
    assert Pow(o + 4) == 4 * Pow(o + 2);
  }

  lemma SixBits(p: nat)
    requires Aligned(p, 6)
    ensures p % BITS == 0
  {
    assert p % 2 == 0 && Aligned(p / 2, 5);
    assert (p / 2) % 2 == 0 && Aligned(p / 2 / 2, 4);
    var q := p / 2 / 2;
    assert p == 4 * q;
    assert q % 2 == 0 && Aligned(q / 2, 3);
    assert (q / 2) % 2 == 0 && Aligned(q / 2 / 2, 2);
    var r := q / 2 / 2;
    assert q == 4 * r;
    assert r % 2 == 0 && Aligned(r / 2, 1);
    assert (r / 2) % 2 == 0;
    assert r == 4 * (r / 2 / 2);
  }

  /** a words of bits, aligned to any order below a word's. */
  lemma AlignedUp(a: nat, six: nat, order: nat)
    requires six == 6 && order <= 6
    ensures Aligned(a * BITS, order)
  {
    MultipleAligned(a, 6);
    assert Pow(6) == BITS by {
      SixMore(0);
    }
    AlignedDown(a * BITS, 6, order);
  }

  lemma {:induction false} MultipleAligned(a: nat, o: nat)
    ensures Aligned(a * Pow(o), o)
    decreases o
  {
    if o > 0 {
      MultipleAligned(a, o - 1);
      Twice(a, Pow(o - 1));
    }
  }

  lemma Twice(a: nat, b: nat)
    ensures a * (2 * b) == 2 * (a * b) && 2 * (a * b) / 2 == a * b
  {
  }

  /** The mask of one word of a region, as the code builds it. */
  lemma RegionMask(n: nat, offset: nat)
    requires 1 <= n && n + offset <= BITS
    ensures var top := Shl(1, n - 1); top > 0 && Shl(top + top - 1, offset) == Mask(offset, offset + n)
  {
    hide Pow, Mask, Shl;
    TopBit(n - 1);
    ShlMask(0, n, offset);
  }

  lemma TopBit(k: nat)
    requires k < BITS
    ensures Shl(1, k) == Pow(k) && Pow(k) > 0 && Pow(k) + (Pow(k) - 1) == Mask(0, k + 1)
  {
    hide Pow, Shl;
    OneMask();
    ShlMask(0, 1, k);
    TopSum(k);
  }

  lemma OneMask()
    ensures Mask(0, 1) == 1
  {
  }

  lemma TopSum(k: nat)
    ensures Mask(k, k + 1) == Pow(k) && Pow(k) + (Pow(k) - 1) == Mask(0, k + 1)
  {
  }

  datatype RegOp = IsFree | Alloc | Release

  /** Words from index on, and the mask of each, that make up the region at pos. */
  ghost predicate RegionWords(m: seq<nat>, pos: nat, order: nat, index: nat, words: nat, x: nat, y: nat) {
    && index + words <= |m| && x < y <= BITS && index * BITS + x == pos
    && pos + Pow(order) == (if words == 1 then index * BITS + y else (index + words) * BITS)
    && words >= 1 && (words > 1 ==> x == 0 && y == BITS)
  }

  /** Tests, sets or clears the region of 2^order bits at pos. */
  method RegionOp(map_: array<nat>, pos: nat, order: nat, op: RegOp) returns (ret: bool)
    requires AllWords(map_[..]) && Aligned(pos, order) && pos + Pow(order) <= map_.Length * BITS
    modifies map_
    ensures op == IsFree ==> map_[..] == old(map_[..]) && (ret <==> RegionFree(old(map_[..]), pos, order))
    ensures op != IsFree ==> !ret && Updated(old(map_[..]), map_[..], pos, pos + Pow(order), op == Alloc)
  {
    hide Bit, AllWords, IsWord, Mask, Apply, BitAnd, Updated, Aligned, RegionFree, RegionWords, Shl;
    var nbits := Pow(order);
    var index := pos / BITS;
    var offset := pos - index * BITS;
    var nlongs := (nbits + BITS - 1) / BITS;
    var nbitsinlong := if nbits < BITS then nbits else BITS;
    RegionSpan(map_[..], pos, order);
    var mask := Shl(1, nbitsinlong - 1);
    mask := mask + mask - 1;
    mask := Shl(mask, offset);
    if op == IsFree {
      ret := RegionTest(map_, pos, order, index, nlongs, mask, offset, offset + nbitsinlong);
    } else {
      RegionUpdate(map_, pos, order, index, nlongs, mask, offset, offset + nbitsinlong, op == Alloc);
      ret := false;
    }
  }

  lemma RegionSpan(m: seq<nat>, pos: nat, order: nat)
    requires Aligned(pos, order) && pos + Pow(order) <= |m| * BITS
    ensures var n := Pow(order); var x, k := pos - pos / BITS * BITS, if n < BITS then n else BITS;
            && RegionWords(m, pos, order, pos / BITS, (n + BITS - 1) / BITS, x, x + k) && x == pos % BITS
            && Shl(1, k - 1) > 0 && Shl(Shl(1, k - 1) + Shl(1, k - 1) - 1, x) == Mask(x, x + k)
  {
    hide Pow, Mask, Shl, Aligned;
    RegionShape(pos, order);
    var n := Pow(order);
    var k := if n < BITS then n else BITS;
    if order >= 6 {
      assert (n + BITS - 1) / BITS == Pow(order - 6);
    }
    RegionMask(k, pos % BITS);
  }

  /** A bit of the mask that is set in the word, if there is one. */
  lemma AndMaskBit(w: nat, x: nat, y: nat, r: nat) returns (k: nat)
    requires IsWord(w) && x <= y <= BITS && r == BitAnd(w, Mask(x, y)) && r != 0
    ensures x <= k < y && Bit(w, k)
  {
    AndWord(w, Mask(x, y));
    FfsBound(r, BITS);
    FfsBit(r, 0);
    k := Ffs(r);
    AndBit(w, Mask(x, y), k);
    MaskBit(x, y, k);
  }

  lemma AndMaskNone(w: nat, x: nat, y: nat, k: nat)
    requires x <= k < y && BitAnd(w, Mask(x, y)) == 0
    ensures !Bit(w, k)
  {
    AndBit(w, Mask(x, y), k);
    MaskBit(x, y, k);
    ZeroBit(k);
  }

  lemma WordClear(m: seq<nat>, p: nat, x: nat, y: nat)
    requires AllWords(m) && p < |m| && x <= y <= BITS
    ensures BitAnd(m[p], Mask(x, y)) == 0 <==> NoneFrom(m, p * BITS + x, p * BITS + y, false)
  {
    hide Pow, Mask, IsWord;
    if BitAnd(m[p], Mask(x, y)) == 0 {
      forall i | p * BITS + x <= i < p * BITS + y ensures !BitAt(m, i) {
        AndMaskNone(m[p], x, y, i % BITS);
      }
    } else {
      var k := AndMaskBit(m[p], x, y, BitAnd(m[p], Mask(x, y)));
      assert (p * BITS + k) / BITS == p && (p * BITS + k) % BITS == k;
      assert BitAt(m, p * BITS + k);
    }
  }

  /** The loop that tests a region. */
  method RegionTest(map_: array<nat>, ghost pos: nat, ghost order: nat, index: nat, words: nat, mask: nat,
      ghost x: nat, ghost y: nat)
    returns (ret: bool)
    requires AllWords(map_[..]) && RegionWords(map_[..], pos, order, index, words, x, y) && mask == Mask(x, y)
    ensures ret <==> RegionFree(map_[..], pos, order)
  {
    hide Bit, AllWords, IsWord, Mask, BitAnd, NoneFrom, Pow;
    ghost var m := map_[..];
    NoneEmpty(m, pos, pos, false);
    for i := 0 to words
      invariant NoneFrom(m, pos, RegionUpTo(pos, index, words, y, i), false)
    {
      WordClear(m, index + i, x, y);
      NoneSplit(m, pos, RegionUpTo(pos, index, words, y, i), RegionUpTo(pos, index, words, y, i + 1), pos + Pow(order));
      if BitAnd(map_[index + i], mask) != 0 {
        return false;
      }
    }
    ret := true;
  }

  /** Where i words of a region end. */
  ghost function RegionUpTo(pos: nat, index: nat, words: nat, y: nat, i: nat): nat {
    if i == 0 then pos else if words == 1 then index * BITS + y else (index + i) * BITS
  }

  lemma NoneSplit(m: seq<nat>, a: nat, b: nat, c: nat, d: nat)
    requires a <= b <= c <= d
    ensures NoneFrom(m, a, c, false) <==> NoneFrom(m, a, b, false) && NoneFrom(m, b, c, false)
    ensures NoneFrom(m, a, d, false) ==> NoneFrom(m, b, c, false)
  {
    hide Bit;
  }

  /** The loop that sets or clears a region. */
  method RegionUpdate(map_: array<nat>, ghost pos: nat, ghost order: nat, index: nat, words: nat, mask: nat,
                      ghost x: nat, ghost y: nat, v: bool)
    requires AllWords(map_[..]) && RegionWords(map_[..], pos, order, index, words, x, y) && mask == Mask(x, y)
    modifies map_
    ensures Updated(old(map_[..]), map_[..], pos, pos + Pow(order), v)
  {
    hide Bit, AllWords, IsWord, Mask, Apply, Updated, Pow;
    ghost var m0 := map_[..];
    UpdatedNone(m0, pos, v);
    for i := 0 to words
      invariant Updated(m0, map_[..], pos, RegionUpTo(pos, index, words, y, i), v)
    {
      ghost var m := map_[..];
      UpdatedSize(m0, m, pos, RegionUpTo(pos, index, words, y, i), v);
      ApplyWord(m, index + i, x, y, v);
      map_[index + i] := Apply(map_[index + i], mask, v);
      assert map_[..] == m[index + i := Apply(m[index + i], mask, v)];
      UpdatedJoin(m0, m, map_[..], pos, RegionUpTo(pos, index, words, y, i),
                  RegionUpTo(pos, index, words, y, i + 1), v);
    }
  }

  lemma UpdatedSize(m: seq<nat>, m': seq<nat>, a: int, b: int, v: bool)
    requires Updated(m, m', a, b, v)
    ensures |m'| == |m| && AllWords(m')
  {
  }

  const ENOMEM := 12

  /** A region of 2^order zero bits that the search may return. */
  ghost predicate FreeRegion(m: seq<nat>, bits: nat, p: nat, order: nat) {
    Aligned(p, order) && p + Pow(order) <= bits && RegionFree(m, p, order)
  }

  /** Finds the lowest free region and sets its bits. */
  method FindFreeRegion(map_: array<nat>, bits: nat, order: nat) returns (r: int)
    requires AllWords(map_[..]) && bits <= map_.Length * BITS
    modifies map_
    ensures r == -ENOMEM || (0 <= r && FreeRegion(old(map_[..]), bits, r, order))
    ensures r == -ENOMEM ==> map_[..] == old(map_[..]) && forall p :: !FreeRegion(old(map_[..]), bits, p, order)
    ensures r >= 0 ==> Updated(old(map_[..]), map_[..], r, r + Pow(order), true)
    ensures r >= 0 ==> forall p :: FreeRegion(old(map_[..]), bits, p, order) ==> r <= p
  {
    hide Bit, AllWords, IsWord, Updated, Aligned, RegionFree, Pow;
    ghost var m := map_[..];
    var pos: nat := 0;
    ZeroAligned(order);
    while pos + Pow(order) <= bits
      invariant Aligned(pos, order) && map_[..] == m
      invariant forall p :: FreeRegion(m, bits, p, order) ==> pos <= p
      decreases bits - pos
    {
      var end := pos + Pow(order);
      NextRegion(pos, order);
      var free := RegionOp(map_, pos, order, IsFree);
      if free {
        var done := RegionOp(map_, pos, order, Alloc);
        return pos;
      }
      forall p: nat | FreeRegion(m, bits, p, order) ensures end <= p {
        RegionBehind(pos, p, order);
      }
      pos := end;
    }
    r := -ENOMEM;
  }

  lemma {:induction false} ZeroAligned(o: nat)
    ensures Aligned(0, o)
  {
    if o > 0 {
      ZeroAligned(o - 1);
    }
  }

  lemma NextRegion(pos: nat, order: nat)
    requires Aligned(pos, order)
    ensures Aligned(pos + Pow(order), order)
  {
    PowAligned(order, order);
    AlignedAdd(pos, Pow(order), order);
  }

  lemma RegionBehind(pos: nat, p: nat, order: nat)
    requires Aligned(pos, order) && Aligned(p, order) && pos <= p
    ensures p == pos || pos + Pow(order) <= p
  {
    if pos < p {
      AlignedBound(pos, p, order);
    }
  }

  /** nr zero bits at x, x plus offset being aligned. */
  ghost predicate ZeroArea(m: seq<nat>, size: nat, nr: nat, order: nat, offset: nat, x: nat) {
    Aligned(x + offset, order) && x + nr <= size && NoneFrom(m, x, x + nr, false)
  }

  ghost predicate ClearAt(m: seq<nat>, i: nat) { i / BITS < |m| && !BitAt(m, i) }

  ghost predicate AlignedAt(x: nat, order: nat, offset: nat) { Aligned(x + offset, order) }

  /** r is from start on, and no aligned index from start on is below r. */
  ghost predicate FirstAligned(r: nat, start: nat, order: nat, offset: nat) {
    start <= r && forall x: nat :: start <= x && AlignedAt(x, order, offset) ==> r <= x
  }

  ghost predicate NoneAligned(start: nat, z: nat, order: nat, offset: nat) {
    forall x: nat :: start <= x < z ==> !AlignedAt(x, order, offset)
  }

  /** Going to z instead of start gives the first aligned index just when there is none
      between the two. */
  lemma EmptyFit(start: nat, z: nat, order: nat, offset: nat)
    ensures AlignUp(z + offset, order) >= offset
    ensures FirstAligned(AlignUp(z + offset, order) - offset, start, order, offset)
      <==> NoneAligned(start, z, order, offset) && NoneAligned(z, start, order, offset)
  {
    hide Aligned, AlignUp;
    AlignUpLeast(z + offset, order, 0);
    var r := AlignUp(z + offset, order) - offset;
    assert AlignedAt(r, order, offset);
    forall x: nat | AlignedAt(x, order, offset) && z <= x ensures r <= x {
      AlignUpLeast(z + offset, order, x + offset);
    }
  }

  /** No bits at bit 0, which is set: the search gives 1, although 0 would do. */
  lemma SkipsSetBit()
    ensures ZeroArea([1], 64, 0, 0, 0, 0) && BitAt([1], 0) && !NoneAligned(0, 1, 0, 0)
  {
    assert AlignedAt(0, 0, 0);
  }

  /** No bits from 100 on in 64: the search gives 64, which comes before 100. */
  lemma StartsBehindEnd()
    ensures AlignUp(64, 0) == 64 && !NoneAligned(64, 100, 0, 0)
  {
    assert AlignedAt(64, 0, 0);
  }

  /** First fit: the least aligned index from start on with nr zero bits, or a value
      above size if there is none. Asked for no bits at all, it still goes to the next
      zero bit z, or back to size from behind it, and is first fit just when there is no
      aligned index between start and z. */
  method FindNextZeroArea(m: seq<nat>, size: nat, start: nat, nr: nat, order: nat, offset: nat)
    returns (r: nat, ghost z: nat)
    requires AllWords(m) && Spans(m, size)
    ensures nr > 0 && r <= size ==> ZeroArea(m, size, nr, order, offset, r) && start <= r
    ensures nr > 0 && r <= size ==> forall x :: start <= x && ZeroArea(m, size, nr, order, offset, x) ==> r <= x
    ensures nr > 0 && r > size ==> forall x :: start <= x ==> !ZeroArea(m, size, nr, order, offset, x)
    ensures nr == 0 ==> (start <= z || z == size) && z <= size && NoneFrom(m, start, z, true)
    ensures nr == 0 && z < size ==> ClearAt(m, z)
    ensures nr == 0 ==> r == AlignUp(z + offset, order) - offset
    ensures nr == 0 ==> (FirstAligned(r, start, order, offset) <==>
                         NoneAligned(start, z, order, offset) && NoneAligned(z, start, order, offset))
  {
    hide Bit, AllWords, IsWord, NoneFrom, Aligned, AlignUp, Pow, FirstAligned, NoneAligned;
    var s := start;
    while true
      invariant start <= s && (nr == 0 ==> s == start)
      invariant forall x :: start <= x && ZeroArea(m, size, nr, order, offset, x) ==> s <= x
      decreases if s < size then size - s else 0
    {
      var index := FindNext(m, size, s, true);
      z := index;
      EmptyFit(start, z, order, offset);
      AlignUpLeast(index + offset, order, 0);
      ghost var from := index;
      index := AlignUp(index + offset, order) - offset;
      forall x | nr > 0 && s <= x && ZeroArea(m, size, nr, order, offset, x) ensures index <= x {
        AreaBehind(m, size, s, nr, order, offset, x, from);
      }
      var end := index + nr;
      if end > size {
        return end, z;
      }
      var i := FindNext(m, end, index, false);
      if i < end {
        forall x: nat | index <= x && ZeroArea(m, size, nr, order, offset, x) ensures i < x {
          AreaMissesBit(m, x, nr, i, end);
        }
        s := i + 1;
      } else {
        return index, z;
      }
    }
  }

  lemma AreaBehind(m: seq<nat>, size: nat, s: nat, nr: nat, order: nat, offset: nat, x: nat, z: nat)
    requires Spans(m, size) && nr > 0 && s <= x && ZeroArea(m, size, nr, order, offset, x) && NoneFrom(m, s, z, true)
    ensures AlignUp(z + offset, order) - offset <= x
  {
    hide Bit, Aligned, AlignUp, Pow;
    WordOf(m, size, x);
    assert !BitAt(m, x);
    AlignUpLeast(z + offset, order, x + offset);
  }

  lemma AreaMissesBit(m: seq<nat>, x: nat, nr: nat, i: nat, end: nat)
    requires NoneFrom(m, x, x + nr, false) && i / BITS < |m| && BitAt(m, i) && i < end <= x + nr
    ensures i < x
  {
  }
}
