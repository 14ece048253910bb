/** Which flags an address has after a range was added. Neighbouring areas merge
    whatever their flags, so the answer depends on what the range touches. */
module VaFlags {
  import opened VmaList
  import opened VmaSpec

  /** Addresses below z have the flags they had. */
  ghost predicate FlagsBelow(rs: seq<Area>, qs: seq<Area>, z: int) {
    forall y, g :: y < z ==> (Flagged(qs, y, g) <==> Flagged(rs, y, g))
  }

  /** The flags that [addr, end) gets when added with f: those of the area it touches
      below, else those of the area it touches above, else f. */
  ghost predicate TakesFlags(rs: seq<Area>, addr: int, end: int, f: nat, g: nat) {
    if Covers(rs, addr - 1) then Flagged(rs, addr - 1, g)
    else if Covers(rs, end) then Flagged(rs, end, g)
    else g == f
  }

  /** What the range touches has flags f. */
  ghost predicate NextAgree(rs: seq<Area>, addr: int, end: int, f: nat) {
    forall g :: Flagged(rs, addr - 1, g) || Flagged(rs, end, g) ==> g == f
  }

  /** The place of [addr, end) in rs is behind the first i areas. */
  ghost predicate AtPlace(rs: seq<Area>, lo: nat, hi: nat, i: nat, addr: nat, end: nat) {
    Canonical(rs, lo, hi) && i <= |rs| && EndBy(rs, i, addr) && StartFrom(rs, i, end) && addr < end
  }

  lemma BelowTrans(rs: seq<Area>, qs: seq<Area>, ts: seq<Area>, z: int)
    requires FlagsBelow(rs, qs, z) && FlagsBelow(qs, ts, z)
    ensures FlagsBelow(rs, ts, z)
  {
  }

  /** A free range has its place between the areas. */
  lemma FreeApart(rs: seq<Area>, lo: nat, hi: nat, a: int, len: int)
    requires Canonical(rs, lo, hi) && FreeRange(rs, a, len) && len > 0
    ensures !Overlapped(rs, a, a + len) && !Inside(rs, a, a + len)
  {
    CanonicalIsApart(rs, lo, hi);
    OverlappedIsCovered(rs, lo, hi, a, a + len);
    assert !Covers(rs, a);
    forall i | 0 <= i < |rs| ensures !(rs[i].start < a && a + len < rs[i].end) {
      assert rs[i].start <= a < rs[i].end ==> Covers(rs, a);
    }
  }

  /** Adding a range changes no flags below it. */
  lemma AddedBelow(rs: seq<Area>, lo: nat, hi: nat, i: nat, addr: nat, end: nat, f: nat)
    requires AtPlace(rs, lo, hi, i, addr, end)
    ensures FlagsBelow(rs, Added(rs, i, addr, end, f), addr)
  {
    hide Added;
    var qs := Added(rs, i, addr, end, f);
    forall y, g | y < addr ensures Flagged(qs, y, g) <==> Flagged(rs, y, g) {
      AddedSize(rs, i, addr, end, f);
      if k :| 0 <= k < |qs| && qs[k].start <= y < qs[k].end && qs[k].flags == g {
        AddedIndex(rs, i, addr, end, f, k);
        assert k < i && rs[k].start <= y < rs[k].end && rs[k].flags == g;
      }
      if k :| 0 <= k < |rs| && rs[k].start <= y < rs[k].end && rs[k].flags == g {
        AddedIndex(rs, i, addr, end, f, k);
        assert qs[k].start <= y < qs[k].end && qs[k].flags == g;
      }
    }
  }

  lemma OnlyNeighbours(rs: seq<Area>, lo: nat, hi: nat, i: nat, addr: nat, end: nat, k: nat)
    requires AtPlace(rs, lo, hi, i, addr, end) && k < |rs|
    ensures rs[k].start <= addr - 1 < rs[k].end ==> k == i - 1
    ensures rs[k].start <= end < rs[k].end ==> k == i
  {
    if k < i - 1 {
      assert rs[k].end < rs[i - 1].start;
    } else if k > i {
      assert rs[i].end < rs[k].start;
    }
  }

  /** What touches the range, said by index and by address. */
  lemma Touching(rs: seq<Area>, lo: nat, hi: nat, i: nat, addr: nat, end: nat)
    requires AtPlace(rs, lo, hi, i, addr, end)
    ensures TouchesPrev(rs, i, addr) <==> Covers(rs, addr - 1)
    ensures TouchesNext(rs, i, end) <==> Covers(rs, end)
  {
    if k :| 0 <= k < |rs| && rs[k].start <= addr - 1 < rs[k].end {
      OnlyNeighbours(rs, lo, hi, i, addr, end, k);
    }
    if k :| 0 <= k < |rs| && rs[k].start <= end < rs[k].end {
      OnlyNeighbours(rs, lo, hi, i, addr, end, k);
    }
    assert TouchesPrev(rs, i, addr) ==> rs[i - 1].start <= addr - 1 < rs[i - 1].end;
    assert TouchesNext(rs, i, end) ==> rs[i].start <= end < rs[i].end;
  }

  /** Flags at the addresses next to the range are those of the areas it touches. */
  lemma TouchedFlags(rs: seq<Area>, lo: nat, hi: nat, i: nat, addr: nat, end: nat, g: nat)
    requires AtPlace(rs, lo, hi, i, addr, end)
    ensures Flagged(rs, addr - 1, g) <==> TouchesPrev(rs, i, addr) && g == rs[i - 1].flags
    ensures Flagged(rs, end, g) <==> TouchesNext(rs, i, end) && g == rs[i].flags
  {
    Touching(rs, lo, hi, i, addr, end);
    if TouchesPrev(rs, i, addr) {
      OneFlag(rs, lo, hi, i - 1, addr - 1, g);
    }
    if TouchesNext(rs, i, end) {
      OneFlag(rs, lo, hi, i, end, g);
    }
    assert Flagged(rs, addr - 1, g) ==> Covers(rs, addr - 1);
    assert Flagged(rs, end, g) ==> Covers(rs, end);
  }

  /** The range gets exactly those flags. */
  lemma RangeFlags(rs: seq<Area>, lo: nat, hi: nat, i: nat, addr: nat, end: nat, f: nat, y: int, g: nat)
    requires AtPlace(rs, lo, hi, i, addr, end) && lo <= addr && end <= hi && addr <= y < end
    ensures Flagged(Added(rs, i, addr, end, f), y, g) <==> TakesFlags(rs, addr, end, f, g)
  {
    hide Added;
    var qs, k := Added(rs, i, addr, end, f), if TouchesPrev(rs, i, addr) then i - 1 else i;
    Touching(rs, lo, hi, i, addr, end);
    TouchedFlags(rs, lo, hi, i, addr, end, g);
    AddedSize(rs, i, addr, end, f);
    AddedIndex(rs, i, addr, end, f, k);
    AddedCanonical(rs, lo, hi, i, addr, end, f);
    OneFlag(qs, lo, hi, k, y, g);
  }

  lemma OneFlag(rs: seq<Area>, lo: nat, hi: nat, k: nat, y: int, g: nat)
    requires Canonical(rs, lo, hi) && k < |rs| && rs[k].start <= y < rs[k].end
    ensures Flagged(rs, y, g) <==> g == rs[k].flags
  {
  }

  lemma AgreeIsNext(rs: seq<Area>, lo: nat, hi: nat, i: nat, addr: nat, end: nat, f: nat)
    requires AtPlace(rs, lo, hi, i, addr, end)
    ensures NeighboursAgree(rs, i, addr, end, f) <==> NextAgree(rs, addr, end, f)
  {
    hide Flagged, AtPlace;
    var x := addr - 1;
    forall g ensures Flagged(rs, x, g) <==> TouchesPrev(rs, i, addr) && g == rs[i - 1].flags
      ensures Flagged(rs, end, g) <==> TouchesNext(rs, i, end) && g == rs[i].flags
    {
      TouchedFlags(rs, lo, hi, i, addr, end, g);
    }
    assert TouchesPrev(rs, i, addr) ==> Flagged(rs, x, rs[i - 1].flags);
    assert TouchesNext(rs, i, end) ==> Flagged(rs, end, rs[i].flags);
  }

  /** The range joins what it touches below and the area in which y lies above. */
  ghost predicate Joins(rs: seq<Area>, addr: int, end: int, y: int) {
    Covers(rs, addr - 1) && forall x :: end <= x <= y ==> Covers(rs, x)
  }

  /** Flags above the range: those of what it touches below, as far as it joins. */
  ghost predicate FlagsAbove(rs: seq<Area>, qs: seq<Area>, addr: int, end: int) {
    forall y, g :: end <= y ==>
      (Flagged(qs, y, g) <==> if Joins(rs, addr, end, y) then Flagged(rs, addr - 1, g) else Flagged(rs, y, g))
  }

  /** What the range joins above it is all of the next area. */
  lemma JoinsNext(rs: seq<Area>, lo: nat, hi: nat, i: nat, addr: nat, end: nat, y: int)
    requires AtPlace(rs, lo, hi, i, addr, end) && end <= y
    ensures Joins(rs, addr, end, y) <==> TouchesPrev(rs, i, addr) && TouchesNext(rs, i, end) && y < rs[i].end
  {
    Touching(rs, lo, hi, i, addr, end);
    if Joins(rs, addr, end, y) {
      assert Covers(rs, end);
      assert !Covers(rs, rs[i].end);
    } else if TouchesPrev(rs, i, addr) && TouchesNext(rs, i, end) {
      var x :| end <= x <= y && !Covers(rs, x);
      assert !(rs[i].start <= x < rs[i].end);
    }
  }

  lemma AddedAbove(rs: seq<Area>, lo: nat, hi: nat, i: nat, addr: nat, end: nat, f: nat)
    requires AtPlace(rs, lo, hi, i, addr, end)
    ensures FlagsAbove(rs, Added(rs, i, addr, end, f), addr, end)
  {
    hide Added, Flagged, Joins, AtPlace, TouchesPrev, TouchesNext;
    PlaceParts(rs, lo, hi, i, addr, end);
    var qs := Added(rs, i, addr, end, f);
    forall y, g | end <= y
      ensures Flagged(qs, y, g) <==> if Joins(rs, addr, end, y) then Flagged(rs, addr - 1, g) else Flagged(rs, y, g)
    {
      JoinsNext(rs, lo, hi, i, addr, end, y);
      TouchedFlags(rs, lo, hi, i, addr, end, g);
      if Joins(rs, addr, end, y) {
        JoinsFlags(rs, lo, hi, i, addr, end, f, y, g);
      } else {
        ApartFlags(rs, lo, hi, i, addr, end, f, y, g);
      }
    }
  }

  lemma JoinsFlags(rs: seq<Area>, lo: nat, hi: nat, i: nat, addr: nat, end: nat, f: nat, y: int, g: nat)
    requires AtPlace(rs, lo, hi, i, addr, end) && end <= y
    requires TouchesPrev(rs, i, addr) && TouchesNext(rs, i, end) && y < rs[i].end
    ensures Flagged(Added(rs, i, addr, end, f), y, g) <==> g == rs[i - 1].flags
  {
    hide Added;
    var qs := Added(rs, i, addr, end, f);
    AddedSize(rs, i, addr, end, f);
    AddedIndex(rs, i, addr, end, f, i - 1);
    if k :| 0 <= k < |qs| && qs[k].start <= y < qs[k].end && qs[k].flags == g {
      AddedIndex(rs, i, addr, end, f, k);
    }
  }

  lemma ApartFlags(rs: seq<Area>, lo: nat, hi: nat, i: nat, addr: nat, end: nat, f: nat, y: int, g: nat)
    requires AtPlace(rs, lo, hi, i, addr, end) && end <= y
    requires !(TouchesPrev(rs, i, addr) && TouchesNext(rs, i, end) && y < rs[i].end)
    ensures Flagged(Added(rs, i, addr, end, f), y, g) <==> Flagged(rs, y, g)
  {
    hide Added, AtPlace, TouchesPrev, TouchesNext;
    PlaceParts(rs, lo, hi, i, addr, end);
    hide EndBy, StartFrom, Canonical;
    var qs := Added(rs, i, addr, end, f);
    if k :| 0 <= k < |qs| && qs[k].start <= y < qs[k].end && qs[k].flags == g {
      var j := MovedFrom(rs, lo, hi, i, addr, end, f, y, k);
    }
    if k :| 0 <= k < |rs| && rs[k].start <= y < rs[k].end && rs[k].flags == g {
      MovedUp(rs, lo, hi, i, addr, end, f, y, k);
    }
  }

  lemma MovedFrom(rs: seq<Area>, lo: nat, hi: nat, i: nat, addr: nat, end: nat, f: nat, y: int, k: nat)
    returns (j: nat)
    requires AtPlace(rs, lo, hi, i, addr, end) && end <= y && k < |Added(rs, i, addr, end, f)|
    requires !(TouchesPrev(rs, i, addr) && TouchesNext(rs, i, end) && y < rs[i].end)
    requires Added(rs, i, addr, end, f)[k].start <= y < Added(rs, i, addr, end, f)[k].end
    ensures j < |rs| && rs[j].start <= y < rs[j].end && rs[j].flags == Added(rs, i, addr, end, f)[k].flags
  {
    hide Added;
    AddedSize(rs, i, addr, end, f);
    AddedIndex(rs, i, addr, end, f, k);
    j := if TouchesPrev(rs, i, addr) then (if TouchesNext(rs, i, end) then k + 1 else k)
         else if TouchesNext(rs, i, end) then k else k - 1;
  }

  lemma MovedUp(rs: seq<Area>, lo: nat, hi: nat, i: nat, addr: nat, end: nat, f: nat, y: int, k: nat)
    requires AtPlace(rs, lo, hi, i, addr, end) && end <= y && k < |rs| && rs[k].start <= y < rs[k].end
    requires !(TouchesPrev(rs, i, addr) && TouchesNext(rs, i, end) && y < rs[i].end)
    ensures Flagged(Added(rs, i, addr, end, f), y, rs[k].flags)
  {
    hide Added;
    AddedSize(rs, i, addr, end, f);
    var j := if TouchesPrev(rs, i, addr) then (if TouchesNext(rs, i, end) then k - 1 else k)
             else if TouchesNext(rs, i, end) then k else k + 1;
    AddedIndex(rs, i, addr, end, f, j);
  }

  /** Flags of everything after the range was added. */
  ghost predicate AddsFlags(rs: seq<Area>, qs: seq<Area>, addr: int, end: int, f: nat) {
    && (forall y, g :: addr <= y < end ==> (Flagged(qs, y, g) <==> TakesFlags(rs, addr, end, f, g)))
    && FlagsBelow(rs, qs, addr) && FlagsAbove(rs, qs, addr, end)
    && (KeepsFlags(rs, qs, addr, end, f) <==> NextAgree(rs, addr, end, f))
  }

  lemma AddedFlags(rs: seq<Area>, lo: nat, hi: nat, i: nat, addr: nat, end: nat, f: nat)
    requires AtPlace(rs, lo, hi, i, addr, end) && lo <= addr && end <= hi
    ensures AddsFlags(rs, Added(rs, i, addr, end, f), addr, end, f)
  {
    hide AtPlace, Flagged, TakesFlags, NextAgree, KeepsFlags, Canonical, EndBy, StartFrom;
    PlaceParts(rs, lo, hi, i, addr, end);
    var qs := Added(rs, i, addr, end, f);
    forall y, g | addr <= y < end ensures Flagged(qs, y, g) <==> TakesFlags(rs, addr, end, f, g) {
      RangeFlags(rs, lo, hi, i, addr, end, f, y, g);
    }
    AddedBelow(rs, lo, hi, i, addr, end, f);
    AddedAbove(rs, lo, hi, i, addr, end, f);
    MergeKeepsFlags(rs, lo, hi, i, addr, end, f);
    AgreeIsNext(rs, lo, hi, i, addr, end, f);
  }

  lemma PlaceParts(rs: seq<Area>, lo: nat, hi: nat, i: nat, addr: nat, end: nat)
    requires AtPlace(rs, lo, hi, i, addr, end)
    ensures Canonical(rs, lo, hi) && i <= |rs| && EndBy(rs, i, addr) && StartFrom(rs, i, end) && addr < end
  {
  }
}
