/** The hashed page table: the FPGA's copy, the SoC's shadow of it, and the
    per-bucket counters and conflict lists. */
module PageTable {
  import opened Options
  import opened Pow2
  import opened BuddyBlocks
  import opened PageTypes

  /** A page that could not be given a slot. */
  datatype Conflict = Conflict(pid: nat, start: nat)

  datatype Tables = Tables(shadow: seq<Pte>, fpga: seq<Pte>, nrFree: seq<nat>,
                           conflicts: seq<seq<Conflict>>, nrConflicts: seq<nat>)

  ghost predicate TablesSized(t: Tables) {
    && |t.shadow| == |t.fpga| == NR_PTES
    && |t.nrFree| == |t.conflicts| == |t.nrConflicts| == NR_BUCKETS
  }

  /** Shadow and FPGA entry tell the same. */
  ghost predicate Synced(s: Pte, f: Pte) {
    s.used == f.used && s.tag == f.tag && (!f.used ==> !f.valid)
  }

  /** Unused slots among the n from i on. */
  ghost function FreeSlots(s: seq<Pte>, i: nat, n: nat): nat
    requires i + n <= |s|
  {
    if n == 0 then 0 else FreeSlots(s, i, n - 1) + if s[i + n - 1].used then 0 else 1
  }

  ghost predicate BucketOk(t: Tables, b: nat)
    requires TablesSized(t) && b < NR_BUCKETS
  {
    && t.nrFree[b] == FreeSlots(t.shadow, b * NR_SLOTS, NR_SLOTS) && t.nrConflicts[b] == |t.conflicts[b]|
    && (t.conflicts[b] != [] ==> t.nrFree[b] == 0)
  }

  /** A page on bucket b's conflict list hashes there and has no slot. */
  ghost predicate ConflictOk(t: Tables, b: nat, c: Conflict) {
    c.pid < NR_PIDS && PageAddr(c.start) && BucketIndex(c.start) == b && !IsMapped(t, c.pid, c.start)
  }

  ghost predicate ConflictsOk(t: Tables, b: nat)
    requires TablesSized(t) && b < NR_BUCKETS
  {
    forall c :: c in t.conflicts[b] ==> ConflictOk(t, b, c)
  }

  /** A tag may be in slot i: it names a page that hashes to the slot's bucket. */
  ghost predicate Belongs(i: nat, tag: nat) {
    PageAddr(TagVa(tag)) && tag / TAG_PID < NR_PIDS && BucketIndex(TagVa(tag)) == i / NR_SLOTS
  }

  /** Used slots hold tags that belong there, each tag once. */
  ghost predicate TagsOk(s: seq<Pte>) {
    && (forall i :: 0 <= i < |s| && s[i].used ==> Belongs(i, s[i].tag))
    && (forall i, j :: 0 <= i < j < |s| && s[i].used && s[j].used ==> s[i].tag != s[j].tag)
  }

  ghost predicate TablesOk(t: Tables) {
    && TablesSized(t) && TagsOk(t.shadow)
    && (forall i :: 0 <= i < NR_PTES ==> Synced(t.shadow[i], t.fpga[i]))
    && (forall b :: 0 <= b < NR_BUCKETS ==> BucketOk(t, b))
    && (forall b :: 0 <= b < NR_BUCKETS ==> ConflictsOk(t, b))
  }

  ghost predicate HasTag(s: seq<Pte>, tag: nat) {
    exists i :: 0 <= i < |s| && s[i].used && s[i].tag == tag
  }

  /** The page has a slot. */
  ghost predicate IsMapped(t: Tables, pid: nat, va: nat) { HasTag(t.shadow, GenerateTag(pid, va)) }

  // ---- counting slots

  lemma {:induction false} SlotsSame(s: seq<Pte>, s': seq<Pte>, i: nat, n: nat)
    requires i + n <= |s| == |s'| && forall k :: i <= k < i + n ==> s[k].used == s'[k].used
    ensures FreeSlots(s, i, n) == FreeSlots(s', i, n)
  {
    if n > 0 {
      SlotsSame(s, s', i, n - 1);
    }
  }

  lemma {:induction false} SlotsOne(s: seq<Pte>, i: nat, n: nat, k: nat, p: Pte)
    requires i + n <= |s| && i <= k < i + n && s[k].used != p.used
    ensures FreeSlots(s[k := p], i, n) == FreeSlots(s, i, n) + if p.used then -1 else 1
  {
    if k == i + n - 1 {
      SlotsSame(s, s[k := p], i, n - 1);
    } else {
      SlotsOne(s, i, n - 1, k, p);
    }
  }

  lemma {:induction false} NoFreeSlot(s: seq<Pte>, i: nat, n: nat)
    requires i + n <= |s|
    ensures FreeSlots(s, i, n) == 0 <==> forall k :: i <= k < i + n ==> s[k].used
  {
    if n > 0 {
      NoFreeSlot(s, i, n - 1);
    }
  }

  // ---- the slot loops

  /** The first unused slot of a bucket. */
  method FindFree(s: seq<Pte>, b: nat) returns (r: Option<nat>)
    requires |s| == NR_PTES && b < NR_BUCKETS
    ensures r.None? <==> FreeSlots(s, b * NR_SLOTS, NR_SLOTS) == 0
    ensures r.Some? ==> b * NR_SLOTS <= r.value < b * NR_SLOTS + NR_SLOTS && !s[r.value].used
    ensures r.Some? ==> forall k :: b * NR_SLOTS <= k < r.value ==> s[k].used
  {
    NoFreeSlot(s, b * NR_SLOTS, NR_SLOTS);
    for i := 0 to NR_SLOTS
      invariant forall k :: b * NR_SLOTS <= k < b * NR_SLOTS + i ==> s[k].used
    {
      if !s[b * NR_SLOTS + i].used {
        return Some(b * NR_SLOTS + i);
      }
    }
    r := None;
  }

  /** The slot of a page, if it has one. */
  method Lookup(s: seq<Pte>, pid: nat, va: nat) returns (r: Option<nat>)
    requires |s| == NR_PTES && TagsOk(s) && pid < NR_PIDS && PageAddr(va)
    ensures r.Some? <==> HasTag(s, GenerateTag(pid, va))
    ensures r.Some? ==> r.value < NR_PTES && s[r.value].used && s[r.value].tag == GenerateTag(pid, va)
  {
    var b, tag := BucketIndex(va), GenerateTag(pid, va);
    for i := 0 to NR_SLOTS
      invariant forall k :: b * NR_SLOTS <= k < b * NR_SLOTS + i ==> !(s[k].used && s[k].tag == tag)
    {
      if s[b * NR_SLOTS + i].used && s[b * NR_SLOTS + i].tag == tag {
        return Some(b * NR_SLOTS + i);
      }
    }
    TagParts(pid, va);
    forall k | 0 <= k < NR_PTES ensures !(s[k].used && s[k].tag == tag) {
      assert s[k].used ==> Belongs(k, s[k].tag);
      BucketOf(k);
    }
    r := None;
  }

  // ---- filling and clearing a slot in both copies

  function Fill(t: Tables, i: nat, tag: nat, valid: bool, ppa: nat): Tables
    requires i < |t.shadow| && i < |t.fpga| && i / NR_SLOTS < |t.nrFree| && t.nrFree[i / NR_SLOTS] > 0
  {
    t.(shadow := t.shadow[i := t.shadow[i].(used := true, valid := false, tag := tag)],
       fpga := t.fpga[i := Pte(true, valid, tag, ppa)],
       nrFree := t.nrFree[i / NR_SLOTS := t.nrFree[i / NR_SLOTS] - 1])
  }

  function Clear(t: Tables, i: nat): Tables
    requires i < |t.shadow| && i < |t.fpga| && i / NR_SLOTS < |t.nrFree| == |t.conflicts| == |t.nrConflicts|
  {
    t.(shadow := t.shadow[i := t.shadow[i].(used := false, valid := false, tag := 0)],
       fpga := t.fpga[i := Pte(false, false, 0, if t.fpga[i].valid then 0 else t.fpga[i].ppa)],
       nrFree := t.nrFree[i / NR_SLOTS := t.nrFree[i / NR_SLOTS] + 1],
       conflicts := t.conflicts[i / NR_SLOTS := []],
       nrConflicts := t.nrConflicts[i / NR_SLOTS := 0])
  }

  lemma BucketOf(i: nat)
    requires i < NR_PTES
    ensures i / NR_SLOTS < NR_BUCKETS && i / NR_SLOTS * NR_SLOTS <= i < i / NR_SLOTS * NR_SLOTS + NR_SLOTS
  {
  }

  lemma OtherBucket(i: nat, b: nat, k: nat)
    requires i < NR_PTES && b < NR_BUCKETS && b != i / NR_SLOTS && b * NR_SLOTS <= k < b * NR_SLOTS + NR_SLOTS
    ensures k != i
  {
  }

  lemma CountChanged(t: Tables, i: nat, p: Pte, b: nat)
    requires TablesSized(t) && i < NR_PTES && b < NR_BUCKETS && t.shadow[i].used != p.used
    ensures FreeSlots(t.shadow[i := p], b * NR_SLOTS, NR_SLOTS)
            == FreeSlots(t.shadow, b * NR_SLOTS, NR_SLOTS) + if b != i / NR_SLOTS then 0 else if p.used then -1 else 1
  {
    BucketOf(i);
    if b == i / NR_SLOTS {
      SlotsOne(t.shadow, b * NR_SLOTS, NR_SLOTS, i, p);
    } else {
      forall k | b * NR_SLOTS <= k < b * NR_SLOTS + NR_SLOTS ensures t.shadow[k].used == t.shadow[i := p][k].used {
        OtherBucket(i, b, k);
      }
      SlotsSame(t.shadow, t.shadow[i := p], b * NR_SLOTS, NR_SLOTS);
    }
  }

  lemma FillOk(t: Tables, i: nat, tag: nat, valid: bool, ppa: nat)
    requires TablesOk(t) && i < NR_PTES && !t.shadow[i].used && Belongs(i, tag) && !HasTag(t.shadow, tag)
    ensures i / NR_SLOTS < NR_BUCKETS && t.nrFree[i / NR_SLOTS] > 0 && TablesOk(Fill(t, i, tag, valid, ppa))
    ensures forall g :: HasTag(Fill(t, i, tag, valid, ppa).shadow, g) <==> HasTag(t.shadow, g) || g == tag
  {
    BucketOf(i);
    assert BucketOk(t, i / NR_SLOTS);
    NoFreeSlot(t.shadow, i / NR_SLOTS * NR_SLOTS, NR_SLOTS);
    var t' := Fill(t, i, tag, valid, ppa);
    forall b | 0 <= b < NR_BUCKETS ensures BucketOk(t', b) {
      assert BucketOk(t, b);
      CountChanged(t, i, t'.shadow[i], b);
    }
    forall g ensures HasTag(t'.shadow, g) <==> HasTag(t.shadow, g) || g == tag {
      TagsAfter(t.shadow, i, t'.shadow[i], g);
    }
    FillConflicts(t, i, tag, t');
  }

  /** A slot is filled only in a bucket without conflicts. */
  lemma FillConflicts(t: Tables, i: nat, tag: nat, t': Tables)
    requires TablesSized(t) && TablesSized(t') && t'.conflicts == t.conflicts && i / NR_SLOTS < NR_BUCKETS
    requires t.conflicts[i / NR_SLOTS] == [] && Belongs(i, tag) && forall b :: 0 <= b < NR_BUCKETS ==> ConflictsOk(t, b)
    requires forall g :: HasTag(t'.shadow, g) <==> HasTag(t.shadow, g) || g == tag
    ensures forall b :: 0 <= b < NR_BUCKETS ==> ConflictsOk(t', b)
  {
    hide HasTag, GenerateTag;
    forall b | 0 <= b < NR_BUCKETS ensures ConflictsOk(t', b) {
      assert ConflictsOk(t, b);
      forall c | c in t'.conflicts[b] ensures ConflictOk(t', b, c) {
        assert ConflictOk(t, b, c);
        TagParts(c.pid, c.start);
      }
    }
  }

  lemma TagsAfter(s: seq<Pte>, i: nat, p: Pte, g: nat)
    requires i < |s| && (s[i].used ==> TagsOk(s) && !p.used)
    ensures !s[i].used ==> (HasTag(s[i := p], g) <==> HasTag(s, g) || (p.used && g == p.tag))
    ensures s[i].used ==> (HasTag(s[i := p], g) <==> HasTag(s, g) && g != s[i].tag)
  {
    var s' := s[i := p];
    if k :| 0 <= k < |s| && s[k].used && s[k].tag == g {
      assert k != i ==> s'[k] == s[k];
    }
    if p.used && g == p.tag {
      assert s'[i].used && s'[i].tag == g;
    }
    if k :| 0 <= k < |s'| && s'[k].used && s'[k].tag == g {
      assert k != i ==> s[k] == s'[k];
    }
  }

  lemma ClearOk(t: Tables, i: nat)
    requires TablesOk(t) && i < NR_PTES && t.shadow[i].used
    ensures i / NR_SLOTS < NR_BUCKETS && TablesOk(Clear(t, i))
    ensures forall g :: HasTag(Clear(t, i).shadow, g) <==> HasTag(t.shadow, g) && g != t.shadow[i].tag
  {
    BucketOf(i);
    var t' := Clear(t, i);
    forall b | 0 <= b < NR_BUCKETS ensures BucketOk(t', b) {
      assert BucketOk(t, b);
      CountChanged(t, i, t'.shadow[i], b);
    }
    forall g ensures HasTag(t'.shadow, g) <==> HasTag(t.shadow, g) && g != t.shadow[i].tag {
      TagsAfter(t.shadow, i, t'.shadow[i], g);
    }
    FewerTags(t, t');
  }

  /** Conflicts stay without a slot while slots are given back. */
  lemma FewerTags(t: Tables, t': Tables)
    requires TablesSized(t) && TablesSized(t') && forall b :: 0 <= b < NR_BUCKETS ==> ConflictsOk(t, b)
    requires forall b :: 0 <= b < NR_BUCKETS ==> t'.conflicts[b] == t.conflicts[b] || t'.conflicts[b] == []
    requires forall g :: HasTag(t'.shadow, g) ==> HasTag(t.shadow, g)
    ensures forall b :: 0 <= b < NR_BUCKETS ==> ConflictsOk(t', b)
  {
    hide HasTag, GenerateTag;
    forall b | 0 <= b < NR_BUCKETS ensures ConflictsOk(t', b) {
      assert ConflictsOk(t, b);
      forall c | c in t'.conflicts[b] ensures ConflictOk(t', b, c) {
        assert ConflictOk(t, b, c);
      }
    }
  }

  // ---- frames

  /** A tag's entry holds a frame. */
  ghost predicate TagFilled(f: seq<Pte>, tag: nat) {
    exists i :: 0 <= i < |f| && f[i].valid && f[i].tag == tag
  }

  /** The page has a frame. */
  ghost predicate IsFilled(t: Tables, pid: nat, va: nat) { TagFilled(t.fpga, GenerateTag(pid, va)) }

  lemma FilledAfter(f: seq<Pte>, i: nat, p: Pte, g: nat)
    requires i < |f| && !f[i].valid
    ensures TagFilled(f[i := p], g) <==> TagFilled(f, g) || (p.valid && g == p.tag)
  {
    var f' := f[i := p];
    if k :| 0 <= k < |f| && f[k].valid && f[k].tag == g {
      assert f'[k] == f[k];
    }
    if p.valid && g == p.tag {
      assert f'[i].valid;
    }
    if k :| 0 <= k < |f'| && f'[k].valid && f'[k].tag == g {
      assert k != i ==> f[k] == f'[k];
    }
  }

  function FrameOf(p: Pte): int { (p.ppa - MAPPING_BASE) / PAGE_SIZE }

  function PpaOf(pfn: nat): nat { pfn * PAGE_SIZE + MAPPING_BASE }

  lemma FrameOfPpa(pfn: nat, used: bool, tag: nat)
    ensures FrameOf(Pte(used, true, tag, PpaOf(pfn))) == pfn
  {
  }

  /** Valid entries hold frames of the zone that are not free, each its own. */
  ghost predicate FramesOk(f: seq<Pte>, z: Zone, hs: Blocks) {
    && (forall i :: 0 <= i < |f| && f[i].valid ==>
          z.start <= FrameOf(f[i]) < z.end && f[i].ppa == PpaOf(FrameOf(f[i])) && !IsFree(hs, FrameOf(f[i])))
    && (forall i, j :: 0 <= i < j < |f| && f[i].valid && f[j].valid ==> FrameOf(f[i]) != FrameOf(f[j]))
  }

  ghost predicate Held(f: seq<Pte>, x: nat) {
    exists i :: 0 <= i < |f| && f[i].valid && FrameOf(f[i]) == x
  }

  /** The frame is free or held. */
  ghost predicate Accounted(f: seq<Pte>, hs: Blocks, x: nat) { IsFree(hs, x) || Held(f, x) }

  ghost predicate Conserved(f: seq<Pte>, hs: Blocks, f': seq<Pte>, hs': Blocks) {
    forall x :: Accounted(f', hs', x) <==> Accounted(f, hs, x)
  }

  /** A frame from the allocator goes into an entry. */
  lemma HoldFrame(f: seq<Pte>, z: Zone, hs: Blocks, hs': Blocks, pfn: nat, i: nat, tag: nat)
    requires FramesOk(f, z, hs) && Fits(z, pfn, 0) && Takes(hs, pfn, 0, hs') && i < |f| && !f[i].valid
    ensures var f' := f[i := Pte(true, true, tag, PpaOf(pfn))];
            FramesOk(f', z, hs') && Conserved(f, hs, f', hs')
  {
    var p := Pte(true, true, tag, PpaOf(pfn));
    var f' := f[i := p];
    FrameOfPpa(pfn, true, tag);
    assert InBlock(pfn, 0, pfn);
    forall k | 0 <= k < |f'| && f'[k].valid
      ensures z.start <= FrameOf(f'[k]) < z.end && f'[k].ppa == PpaOf(FrameOf(f'[k])) && !IsFree(hs', FrameOf(f'[k]))
      ensures k != i ==> FrameOf(f'[k]) != pfn
    {
    }
    forall x ensures Accounted(f', hs', x) <==> Accounted(f, hs, x) {
      HeldAfter(f, i, p, x);
      assert InBlock(pfn, 0, x) <==> x == pfn;
    }
  }

  lemma HeldAfter(f: seq<Pte>, i: nat, p: Pte, x: nat)
    requires i < |f|
    ensures !f[i].valid ==> (Held(f[i := p], x) <==> Held(f, x) || (p.valid && FrameOf(p) == x))
    ensures f[i].valid && !p.valid
              && (forall k :: 0 <= k < |f| && k != i && f[k].valid ==> FrameOf(f[k]) != FrameOf(f[i])) ==>
              (Held(f[i := p], x) <==> Held(f, x) && FrameOf(f[i]) != x)
  {
    var f' := f[i := p];
    if k :| 0 <= k < |f| && f[k].valid && FrameOf(f[k]) == x {
      assert k != i ==> f'[k] == f[k];
    }
    if p.valid && FrameOf(p) == x {
      assert f'[i].valid && FrameOf(f'[i]) == x;
    }
    if k :| 0 <= k < |f'| && f'[k].valid && FrameOf(f'[k]) == x {
      assert k != i ==> f[k] == f'[k];
    }
  }

  /** An entry without a frame is set up or cleared. */
  lemma NoFrame(f: seq<Pte>, z: Zone, hs: Blocks, i: nat, p: Pte)
    requires FramesOk(f, z, hs) && i < |f| && !f[i].valid && !p.valid
    ensures FramesOk(f[i := p], z, hs) && Conserved(f, hs, f[i := p], hs)
  {
    forall x ensures Accounted(f[i := p], hs, x) <==> Accounted(f, hs, x) {
      HeldAfter(f, i, p, x);
    }
  }

  /** An entry's frame goes back to the allocator. */
  lemma DropFrame(f: seq<Pte>, z: Zone, hs: Blocks, hs': Blocks, i: nat, p: Pte)
    requires FramesOk(f, z, hs) && i < |f| && f[i].valid && !p.valid && Frees(hs, FrameOf(f[i]), 0, hs')
    ensures FramesOk(f[i := p], z, hs') && Conserved(f, hs, f[i := p], hs')
  {
    var f', pfn := f[i := p], FrameOf(f[i]);
    forall k | 0 <= k < |f| && k != i && f[k].valid ensures FrameOf(f[k]) != pfn {
    }
    forall x ensures Accounted(f', hs', x) <==> Accounted(f, hs, x) {
      HeldAfter(f, i, p, x);
      assert InBlock(pfn, 0, x) <==> x == pfn;
    }
    forall k | 0 <= k < |f'| && f'[k].valid ensures !IsFree(hs', FrameOf(f'[k])) {
      assert InBlock(pfn, 0, FrameOf(f'[k])) <==> FrameOf(f'[k]) == pfn;
    }
  }

  // ---- which page holds which frame

  /** The entry with that tag holds frame x. */
  ghost predicate TagFrame(f: seq<Pte>, tag: nat, x: int) {
    exists i :: 0 <= i < |f| && f[i].valid && f[i].tag == tag && FrameOf(f[i]) == x
  }

  /** The page holds frame x. */
  ghost predicate InFrame(t: Tables, pid: nat, va: nat, x: int) { TagFrame(t.fpga, GenerateTag(pid, va), x) }

  /** Pages that had a slot hold the frames they held, and no others. */
  ghost predicate KeepsFrames(t: Tables, t': Tables) {
    forall g, x :: HasTag(t.shadow, g) ==> (TagFrame(t'.fpga, g, x) <==> TagFrame(t.fpga, g, x))
  }

  /** Exactly the pages that kept their slot hold frames, those they held. */
  ghost predicate DropsFrames(t: Tables, t': Tables) {
    forall g, x :: TagFrame(t'.fpga, g, x) <==> TagFrame(t.fpga, g, x) && HasTag(t'.shadow, g)
  }

  /** Only pages with a slot hold frames. */
  lemma FramesHaveTags(t: Tables, g: nat, x: int)
    requires TablesOk(t) && TagFrame(t.fpga, g, x)
    ensures HasTag(t.shadow, g)
  {
    var i :| 0 <= i < |t.fpga| && t.fpga[i].valid && t.fpga[i].tag == g && FrameOf(t.fpga[i]) == x;
    assert Synced(t.shadow[i], t.fpga[i]);
  }

  /** Every tag in use names a page. */
  lemma TagIsKey(t: Tables, g: nat)
    requires TagsOk(t.shadow) && HasTag(t.shadow, g)
    ensures g / TAG_PID < NR_PIDS && PageAddr(TagVa(g)) && GenerateTag(g / TAG_PID, TagVa(g)) == g
  {
    var i :| 0 <= i < |t.shadow| && t.shadow[i].used && t.shadow[i].tag == g;
    assert Belongs(i, g);
  }
}
