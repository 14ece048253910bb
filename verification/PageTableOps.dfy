/** Setting up and tearing down page table entries for ranges of pages. */
module PageTableOps {
  import opened Options
  import opened Pow2
  import opened BuddyBlocks
  import opened Buddy
  import opened PageTypes
  import opened PageTable

  /** Page of a process that the tables can name. */
  predicate Key(pid: nat, va: nat) { pid < NR_PIDS && PageAddr(va) }

  /** va is a page of [start, end), counted from start. */
  predicate InRange(start: nat, end: nat, va: nat) { start <= va < end && PageAddr(va) }

  lemma SlotOfPage(t: Tables, pid: nat, va: nat, i: nat)
    requires TablesOk(t) && Key(pid, va) && i / NR_SLOTS == BucketIndex(va) && i < NR_PTES && !t.shadow[i].used
    ensures Belongs(i, GenerateTag(pid, va)) && !t.fpga[i].used && !t.fpga[i].valid
  {
    TagParts(pid, va);
    assert Synced(t.shadow[i], t.fpga[i]);
  }

  lemma InBucket(b: nat, i: nat)
    requires b < NR_BUCKETS && b * NR_SLOTS <= i < b * NR_SLOTS + NR_SLOTS
    ensures i < NR_PTES && i / NR_SLOTS == b
  {
  }

  lemma SizedOk(t: Tables, b: nat)
    requires TablesOk(t) && b < NR_BUCKETS
    ensures TablesSized(t) && TagsOk(t.shadow) && t.nrFree[b] == FreeSlots(t.shadow, b * NR_SLOTS, NR_SLOTS)
  {
    assert BucketOk(t, b);
  }

  lemma SyncedAt(t: Tables, i: nat)
    requires TablesOk(t) && i < NR_PTES
    ensures Synced(t.shadow[i], t.fpga[i])
  {
  }

  /** One more tag is in use, if added, and no other change. */
  ghost predicate Tagged(t: Tables, t': Tables, added: bool, tag: nat) {
    forall g :: HasTag(t'.shadow, g) <==> HasTag(t.shadow, g) || (added && g == tag)
  }

  lemma SameTags(t: Tables, tag: nat)
    ensures Tagged(t, t, false, tag)
  {
  }

  /** Pages of the range whose bucket had room were mapped, and nothing else. */
  ghost predicate MapsRange(t0: Tables, t: Tables, pid: nat, start: nat, end: nat)
    requires TablesSized(t0)
  {
    forall q, y :: Key(q, y) ==>
      (IsMapped(t, q, y) <==>
       IsMapped(t0, q, y) || (q == pid && InRange(start, end, y) && t0.nrFree[BucketIndex(y)] > 0))
  }

  /** Pages of [start, filled) that were mapped got frames, and no other page. */
  ghost predicate FillsRange(t0: Tables, t: Tables, pid: nat, start: nat, filled: nat)
    requires TablesSized(t0)
  {
    forall q, y :: Key(q, y) ==>
      (IsFilled(t, q, y) <==>
       IsFilled(t0, q, y) || (q == pid && InRange(start, filled, y) && t0.nrFree[BucketIndex(y)] > 0))
  }

  /** One more page has a frame, if filled, and no other change. */
  ghost predicate Filled(t: Tables, t': Tables, filled: bool, tag: nat) {
    forall g :: TagFilled(t'.fpga, g) <==> TagFilled(t.fpga, g) || (filled && g == tag)
  }

  lemma SameFilled(t: Tables, tag: nat)
    ensures Filled(t, t, false, tag)
  {
  }

  lemma FillStart(t: Tables, pid: nat, start: nat)
    requires TablesSized(t)
    ensures FillsRange(t, t, pid, start, start)
  {
  }

  lemma FillStep(t0: Tables, t: Tables, t': Tables, pid: nat, start: nat, filled: nat, cur: nat, end: nat, got: bool)
    requires TablesSized(t0) && TablesSized(t) && FillsRange(t0, t, pid, start, filled) && RoomKept(t0, t, cur, end)
    requires pid < NR_PIDS && start <= cur < end && PageAddr(cur) && (end - cur) % PAGE_SIZE == 0
    requires Filled(t, t', got, GenerateTag(pid, cur))
    requires got ==> t.nrFree[BucketIndex(cur)] > 0
    ensures filled == cur && (got <==> t.nrFree[BucketIndex(cur)] > 0)
      ==> FillsRange(t0, t', pid, start, cur + PAGE_SIZE)
    ensures !got ==> FillsRange(t0, t', pid, start, filled)
  {
    hide TagFilled, GenerateTag, BucketIndex;
    assert InRange(cur, end, cur);
    if filled == cur && (got <==> t.nrFree[BucketIndex(cur)] > 0) {
      forall q, y | Key(q, y)
        ensures IsFilled(t', q, y) <==>
          IsFilled(t0, q, y) || (q == pid && InRange(start, cur + PAGE_SIZE, y) && t0.nrFree[BucketIndex(y)] > 0)
      {
        NextPage(start, cur, end, y);
        if GenerateTag(q, y) == GenerateTag(pid, cur) {
          TagInjective(q, y, pid, cur);
        }
      }
    }
  }

  /** Buckets of the pages still to come are as they were. */
  ghost predicate RoomKept(t0: Tables, t: Tables, cur: nat, end: nat)
    requires TablesSized(t0) && TablesSized(t)
  {
    forall y :: InRange(cur, end, y) ==> t.nrFree[BucketIndex(y)] == t0.nrFree[BucketIndex(y)]
  }

  /** Pages of the range are no longer mapped, and nothing else changed. */
  ghost predicate UnmapsRange(t0: Tables, t: Tables, pid: nat, start: nat, end: nat) {
    forall q, y :: Key(q, y) ==> (IsMapped(t, q, y) <==> IsMapped(t0, q, y) && !(q == pid && InRange(start, end, y)))
  }

  /** A page of bucket b lost its slot. */
  ghost predicate Lost(t0: Tables, t: Tables, pid: nat, b: nat) {
    exists y :: Key(pid, y) && IsMapped(t0, pid, y) && !IsMapped(t, pid, y) && BucketIndex(y) == b
  }

  /** Pages only lost slots; the conflict lists of just their buckets were emptied into u. */
  ghost predicate Drained(t0: Tables, t: Tables, pid: nat, u: seq<Conflict>)
    requires TablesSized(t0) && TablesSized(t)
  {
    && (forall y :: Key(pid, y) && IsMapped(t, pid, y) ==> IsMapped(t0, pid, y))
    && (forall b: nat :: b < NR_BUCKETS ==> t.conflicts[b] == if Lost(t0, t, pid, b) then [] else t0.conflicts[b])
    && (forall c :: c in u <==> WasListed(t0, t, pid, c))
  }

  ghost predicate WasListed(t0: Tables, t: Tables, pid: nat, c: Conflict)
    requires TablesSized(t0)
  {
    exists b: nat :: b < NR_BUCKETS && Lost(t0, t, pid, b) && c in t0.conflicts[b]
  }

  lemma LostTrans(t0: Tables, t1: Tables, t2: Tables, pid: nat, b: nat)
    requires forall y :: Key(pid, y) && IsMapped(t1, pid, y) ==> IsMapped(t0, pid, y)
    requires forall y :: Key(pid, y) && IsMapped(t2, pid, y) ==> IsMapped(t1, pid, y)
    ensures Lost(t0, t2, pid, b) <==> Lost(t0, t1, pid, b) || Lost(t1, t2, pid, b)
  {
    hide IsMapped, BucketIndex;
    if y :| Key(pid, y) && IsMapped(t0, pid, y) && !IsMapped(t1, pid, y) && BucketIndex(y) == b {
      assert !IsMapped(t2, pid, y);
    }
    if y :| Key(pid, y) && IsMapped(t1, pid, y) && !IsMapped(t2, pid, y) && BucketIndex(y) == b {
      assert IsMapped(t0, pid, y);
    }
  }

  lemma DrainedTrans(t0: Tables, t1: Tables, t2: Tables, pid: nat, u: seq<Conflict>, v: seq<Conflict>)
    requires TablesSized(t0) && TablesSized(t1) && TablesSized(t2) && Drained(t0, t1, pid, u) && Drained(t1, t2, pid, v)
    ensures Drained(t0, t2, pid, u + v)
  {
    hide Lost, IsMapped, Key;
    forall b: nat ensures Lost(t0, t2, pid, b) <==> Lost(t0, t1, pid, b) || Lost(t1, t2, pid, b) {
      LostTrans(t0, t1, t2, pid, b);
    }
    forall c ensures c in u + v <==> WasListed(t0, t2, pid, c) {
      if b: nat :| b < NR_BUCKETS && Lost(t0, t1, pid, b) && c in t0.conflicts[b] {
        assert Lost(t0, t2, pid, b);
      }
      if b: nat :| b < NR_BUCKETS && Lost(t1, t2, pid, b) && c in t1.conflicts[b] {
        assert Lost(t0, t2, pid, b) && c in t0.conflicts[b];
      }
      if b: nat :| b < NR_BUCKETS && Lost(t0, t2, pid, b) && c in t0.conflicts[b] {
        assert Lost(t0, t1, pid, b) ==> WasListed(t0, t1, pid, c);
        assert !Lost(t0, t1, pid, b) ==> WasListed(t1, t2, pid, c);
      }
    }
  }

  /** Clearing the slot of one page drains its bucket. */
  lemma DrainOne(t: Tables, pid: nat, va: nat, i: nat)
    requires TablesOk(t) && Key(pid, va) && i < NR_PTES && t.shadow[i].used && t.shadow[i].tag == GenerateTag(pid, va)
    ensures i / NR_SLOTS < NR_BUCKETS && TablesSized(t) && TablesSized(Clear(t, i))
    ensures Drained(t, Clear(t, i), pid, t.conflicts[i / NR_SLOTS])
  {
    var t', b0 := Clear(t, i), i / NR_SLOTS;
    ClearOk(t, i);
    ClearLost(t, pid, va, i);
    hide Lost, IsMapped, TablesOk;
    forall c ensures c in t.conflicts[b0] <==> WasListed(t, t', pid, c) {
      if c in t.conflicts[b0] {
        assert Lost(t, t', pid, b0);
      }
    }
  }

  lemma ClearLost(t: Tables, pid: nat, va: nat, i: nat)
    requires TablesOk(t) && Key(pid, va) && i < NR_PTES && t.shadow[i].used && t.shadow[i].tag == GenerateTag(pid, va)
    ensures i / NR_SLOTS < NR_BUCKETS && forall b: nat :: Lost(t, Clear(t, i), pid, b) <==> b == i / NR_SLOTS
    ensures forall y :: Key(pid, y) && IsMapped(Clear(t, i), pid, y) ==> IsMapped(t, pid, y)
  {
    var t', b0 := Clear(t, i), i / NR_SLOTS;
    ClearOk(t, i);
    assert Belongs(i, t.shadow[i].tag);
    TagParts(pid, va);
    assert IsMapped(t, pid, va);
    hide Clear, TablesOk, HasTag, GenerateTag, BucketIndex;
    assert !IsMapped(t', pid, va);
    forall b: nat | Lost(t, t', pid, b) ensures b == b0 {
      var y :| Key(pid, y) && IsMapped(t, pid, y) && !IsMapped(t', pid, y) && BucketIndex(y) == b;
      TagInjective(pid, y, pid, va);
    }
  }

  lemma DrainedSame(t: Tables, pid: nat)
    requires TablesSized(t)
    ensures Drained(t, t, pid, [])
  {
  }

  /** What was on an emptied list has no slot, so unmarking it exposes no entry. */
  lemma UnmarkedUnmapped(t0: Tables, t: Tables, pid: nat, u: seq<Conflict>)
    requires TablesOk(t0) && TablesSized(t) && Drained(t0, t, pid, u)
    requires forall q, y :: Key(q, y) && IsMapped(t, q, y) ==> IsMapped(t0, q, y)
    ensures forall c :: c in u ==> Key(c.pid, c.start) && !IsMapped(t, c.pid, c.start)
  {
    hide IsMapped, Lost, BucketOk, TagsOk, Synced;
    forall c | c in u ensures Key(c.pid, c.start) && !IsMapped(t, c.pid, c.start) {
      assert WasListed(t0, t, pid, c);
      var b: nat :| b < NR_BUCKETS && Lost(t0, t, pid, b) && c in t0.conflicts[b];
      assert ConflictsOk(t0, b);
      assert ConflictOk(t0, b, c);
    }
  }

  lemma NextPage(start: nat, cur: nat, end: nat, y: nat)
    requires start <= cur < end && PageAddr(cur) && (end - cur) % PAGE_SIZE == 0
    ensures InRange(start, cur + PAGE_SIZE, y) <==> InRange(start, cur, y) || y == cur
    ensures cur + PAGE_SIZE <= end && (end - (cur + PAGE_SIZE)) % PAGE_SIZE == 0
    ensures InRange(cur + PAGE_SIZE, end, y) ==> InRange(cur, end, y) && y != cur
  {
  }

  lemma MapStep(t0: Tables, t: Tables, t': Tables, pid: nat, start: nat, cur: nat, end: nat, added: bool)
    requires TablesSized(t0) && TablesSized(t) && MapsRange(t0, t, pid, start, cur) && RoomKept(t0, t, cur, end)
    requires pid < NR_PIDS && start <= cur < end && PageAddr(cur) && (end - cur) % PAGE_SIZE == 0
    requires Tagged(t, t', added, GenerateTag(pid, cur)) && added == (t.nrFree[BucketIndex(cur)] > 0)
    ensures MapsRange(t0, t', pid, start, cur + PAGE_SIZE)
  {
    hide HasTag, GenerateTag, BucketIndex;
    assert InRange(cur, end, cur);
    forall q, y | Key(q, y)
      ensures IsMapped(t', q, y) <==>
                IsMapped(t0, q, y) || (q == pid && InRange(start, cur + PAGE_SIZE, y) && t0.nrFree[BucketIndex(y)] > 0)
    {
      NextPage(start, cur, end, y);
      if GenerateTag(q, y) == GenerateTag(pid, cur) {
        TagInjective(q, y, pid, cur);
      }
    }
  }

  lemma RoomStep(t0: Tables, t: Tables, t': Tables, cur: nat, end: nat)
    requires TablesSized(t0) && TablesSized(t) && TablesSized(t') && RoomKept(t0, t, cur, end)
    requires cur < end && PageAddr(cur) && (end - cur) % PAGE_SIZE == 0 && end <= cur + NR_BUCKETS * PAGE_SIZE
    requires forall b :: 0 <= b < NR_BUCKETS && b != BucketIndex(cur) ==> t'.nrFree[b] == t.nrFree[b]
    ensures RoomKept(t0, t', cur + PAGE_SIZE, end)
  {
    forall y | InRange(cur + PAGE_SIZE, end, y) ensures t'.nrFree[BucketIndex(y)] == t0.nrFree[BucketIndex(y)] {
      NextPage(cur, cur, end, y);
      BucketsDistinct(cur, y);
    }
  }

  lemma UnmapStep(t0: Tables, t: Tables, t': Tables, pid: nat, start: nat, cur: nat, end: nat)
    requires UnmapsRange(t0, t, pid, start, cur)
    requires pid < NR_PIDS && start <= cur < end && PageAddr(cur) && (end - cur) % PAGE_SIZE == 0
    requires forall g :: HasTag(t'.shadow, g) <==> HasTag(t.shadow, g) && g != GenerateTag(pid, cur)
    ensures UnmapsRange(t0, t', pid, start, cur + PAGE_SIZE)
  {
    hide HasTag, GenerateTag;
    forall q, y | Key(q, y)
      ensures IsMapped(t', q, y) <==> IsMapped(t0, q, y) && !(q == pid && InRange(start, cur + PAGE_SIZE, y))
    {
      NextPage(start, cur, end, y);
      if GenerateTag(q, y) == GenerateTag(pid, cur) {
        TagInjective(q, y, pid, cur);
      }
    }
  }

  lemma ConservedTrans(f: seq<Pte>, hs: Blocks, f': seq<Pte>, hs': Blocks, f'': seq<Pte>, hs'': Blocks)
    requires Conserved(f, hs, f', hs') && Conserved(f', hs', f'', hs'')
    ensures Conserved(f, hs, f'', hs'')
  {
    hide Accounted;
  }

  class PageTables {
    const buddy: FpgaZone
    var t: Tables

    ghost predicate Valid()
      reads this, buddy
    {
      buddy.Valid() && TablesOk(t) && FramesOk(t.fpga, buddy.z, buddy.blocks)
    }

    constructor (buddy: FpgaZone)
      requires buddy.Valid()
      ensures this.buddy == buddy && Valid() && forall pid, va :: !IsMapped(t, pid, va)
    {
      this.buddy := buddy;
      t := EmptyTables();
      new;
      EmptyOk();
    }

    /** Gives a page a slot in both copies and, on request, a frame. Without a free
        slot in the page's bucket nothing happens. */
    method AllocOnePte(pid: nat, va: nat, populate: bool) returns (slot: Option<nat>)
      requires Valid() && Key(pid, va) && !IsMapped(t, pid, va)
      modifies this, buddy
      ensures Valid() && Conserved(old(t.fpga), old(buddy.blocks), t.fpga, buddy.blocks)
      ensures slot.None? <==> old(t).nrFree[BucketIndex(va)] == 0
      ensures slot.None? ==> t == old(t) && buddy.blocks == old(buddy.blocks)
      ensures slot.Some? ==> && slot.value < NR_PTES && slot.value / NR_SLOTS == BucketIndex(va)
                             && t == Fill(old(t), slot.value, GenerateTag(pid, va), t.fpga[slot.value].valid,
                               t.fpga[slot.value].ppa)
                             && (t.fpga[slot.value].valid <==> populate && exists p :: p in old(buddy.blocks))
      ensures Tagged(old(t), t, slot.Some?, GenerateTag(pid, va))
      ensures Filled(old(t), t, slot.Some? && populate && exists p :: p in old(buddy.blocks), GenerateTag(pid, va))
      ensures KeepsFrames(old(t), t)
      ensures !populate || old(buddy.blocks) == map[] ==> buddy.blocks == old(buddy.blocks)
    {
      hide Filled, TagFilled, TablesOk, FramesOk, Conserved, Good, Holds, Takes, Fits, GenerateTag, HasTag, FreeSlots,
        TagsOk, KeepsFrames;
      var b, tag := BucketIndex(va), GenerateTag(pid, va);
      SizedOk(t, b);
      slot := FindFree(t.shadow, b);
      if slot.None? {
        SameConserved(t.fpga, buddy.blocks);
        SameTags(t, tag);
        SameFilled(t, tag);
        SameFrames(t);
        return;
      }
      var i := slot.value;
      ghost var t0, hs := t, buddy.blocks;
      InBucket(b, i);
      SlotOfPage(t, pid, va, i);
      FillOk(t, i, tag, false, t.fpga[i].ppa);
      t := t.(shadow := t.shadow[i := t.shadow[i].(used := true, valid := false, tag := tag)],
              nrFree := t.nrFree[b := t.nrFree[b] - 1]);
      assert !t.fpga[i].used;
      var pfn := 0;
      if populate {
        pfn := buddy.AllocPfn(0);
        if pfn != 0 {
          t := t.(fpga := t.fpga[i := Pte(true, true, tag, PpaOf(pfn))]);
          FillOk(t0, i, tag, true, PpaOf(pfn));
          FilledSlot(t0, t, i);
          FilledKeeps(t0, t, i);
          HoldFrame(t0.fpga, buddy.z, hs, buddy.blocks, pfn, i, tag);
          return;
        }
      }
      var ppa := if populate then t.fpga[i].ppa else 0;
      t := t.(fpga := t.fpga[i := Pte(true, false, tag, ppa)]);
      FillOk(t0, i, tag, false, ppa);
      FilledSlot(t0, t, i);
      FilledKeeps(t0, t, i);
      NoFrame(t0.fpga, buddy.z, hs, i, t.fpga[i]);
    }

    /** Sets up entries for the pages of [start, end), at most one per bucket; on request
        with frames, in order, until there are no more. */
    method AllocPteRange(pid: nat, start: nat, end: nat, populate: bool) returns (ghost filled: nat)
      requires Valid() && pid < NR_PIDS && (start < end ==> PageAddr(start)) && start <= end <= VA_LIMIT
      requires (end - start) % PAGE_SIZE == 0
      requires end - start <= NR_BUCKETS * PAGE_SIZE && forall y :: InRange(start, end, y) ==> !IsMapped(t, pid, y)
      modifies this, buddy
      ensures Valid() && TablesSized(old(t)) && MapsRange(old(t), t, pid, start, end)
      ensures Conserved(old(t.fpga), old(buddy.blocks), t.fpga, buddy.blocks)
      ensures start <= filled <= end && FillsRange(old(t), t, pid, start, filled) && KeepsFrames(old(t), t)
      ensures populate && filled < end ==> buddy.blocks == map[]
      ensures !populate ==> filled == start && buddy.blocks == old(buddy.blocks)
    {
      hide TablesOk, FramesOk, Conserved, Good, Holds, MapsRange, RoomKept, Tagged, GenerateTag, HasTag, BucketIndex,
        FillsRange, Filled, KeepsFrames;
      ghost var t0, hs0 := t, buddy.blocks;
      SameFrames(t);
      SizedOk(t, 0);
      RangeStart(t0, pid, start, end);
      FillStart(t0, pid, start);
      SameConserved(t.fpga, buddy.blocks);
      var cur := start;
      filled := start;
      while cur < end
        invariant start <= cur <= end && (end - cur) % PAGE_SIZE == 0 && (cur < end ==> PageAddr(cur))
        invariant Valid() && TablesSized(t) && MapsRange(t0, t, pid, start, cur) && RoomKept(t0, t, cur, end)
        invariant Conserved(t0.fpga, hs0, t.fpga, buddy.blocks)
        invariant start <= filled <= cur && FillsRange(t0, t, pid, start, filled)
        invariant KeepsFrames(t0, t) && MoreTags(t0, t)
        invariant populate && filled < cur ==> buddy.blocks == map[]
        invariant !populate ==> filled == start && buddy.blocks == hs0
        decreases end - cur
      {
        ghost var t1, hs1 := t, buddy.blocks;
        NotYetMapped(t0, t, pid, start, cur, end);
        var slot := AllocOnePte(pid, cur, populate);
        SizedOk(t, 0);
        MapStep(t0, t1, t, pid, start, cur, end, slot.Some?);
        RoomStep(t0, t1, t, cur, end);
        FillStep(t0, t1, t, pid, start, filled, cur, end, slot.Some? && populate && exists p :: p in hs1);
        ConservedTrans(t0.fpga, hs0, t1.fpga, hs1, t.fpga, buddy.blocks);
        NextPage(start, cur, end, cur);
        KeepsTrans(t0, t1, t);
        TaggedMore(t0, t1, t, slot.Some?, GenerateTag(pid, cur));
        if populate && hs1 != map[] {
          filled := cur + PAGE_SIZE;
        }
        cur := cur + PAGE_SIZE;
      }
    }

    /** Empties a bucket's conflict list; each page on it is to be unmarked. */
    method FreeAllConflicts(b: nat) returns (unmarked: seq<Conflict>)
      requires TablesSized(t) && b < NR_BUCKETS && t.nrConflicts[b] == |t.conflicts[b]|
      modifies this
      ensures unmarked == old(t).conflicts[b]
      ensures t == old(t).(conflicts := old(t).conflicts[b := []], nrConflicts := old(t).nrConflicts[b := 0])
    {
      unmarked := [];
      ghost var t0 := t;
      assert t0.conflicts[b := t0.conflicts[b]] == t0.conflicts
        && t0.nrConflicts[b := t0.nrConflicts[b]] == t0.nrConflicts;
      while t.conflicts[b] != []
        invariant TablesSized(t) && unmarked + t.conflicts[b] == t0.conflicts[b] && t.nrConflicts[b] == |t.conflicts[b]|
        invariant t == t0.(conflicts := t0.conflicts[b := t.conflicts[b]],
          nrConflicts := t0.nrConflicts[b := t.nrConflicts[b]])
        decreases |t.conflicts[b]|
      {
        var ci := t.conflicts[b][0];
        t := t.(conflicts := t.conflicts[b := t.conflicts[b][1..]],
          nrConflicts := t.nrConflicts[b := t.nrConflicts[b] - 1]);
        unmarked := unmarked + [ci];
      }
    }

    /** Clears a slot in both copies and returns its frame. */
    method FreeOnePte(i: nat) returns (unmarked: seq<Conflict>)
      requires Valid() && i < NR_PTES && t.shadow[i].used
      modifies this, buddy
      ensures Valid() && TablesSized(old(t)) && t == Clear(old(t), i) && unmarked == old(t).conflicts[i / NR_SLOTS]
      ensures DropsFrames(old(t), t)
      ensures Conserved(old(t.fpga), old(buddy.blocks), t.fpga, buddy.blocks)
    {
      hide TablesOk, FramesOk, Conserved, Good, Holds, HasTag, DropsFrames;
      ghost var t0, hs0 := t, buddy.blocks;
      var b := i / NR_SLOTS;
      BucketOf(i);
      SizedOk(t, b);
      SyncedAt(t, i);
      BucketAt(t, b);
      ClearOk(t, i);
      t := t.(nrFree := t.nrFree[b := t.nrFree[b] + 1]);
      unmarked := FreeAllConflicts(b);
      t := t.(shadow := t.shadow[i := t.shadow[i].(used := false, valid := false, tag := 0)]);
      if t.fpga[i].valid {
        FrameTaken(t0.fpga, buddy.z, hs0, i);
        var ok := buddy.FreePages(FrameOf(t.fpga[i]), 0);
        DropFrame(t0.fpga, buddy.z, hs0, buddy.blocks, i, Pte(false, false, 0, 0));
        t := t.(fpga := t.fpga[i := Pte(false, false, 0, 0)]);
      } else {
        NoFrame(t0.fpga, buddy.z, hs0, i, Pte(false, false, 0, t.fpga[i].ppa));
        t := t.(fpga := t.fpga[i := Pte(false, false, 0, t.fpga[i].ppa)]);
      }
      ClearDrops(t0, t, i);
    }

    /** Tears down the entries of the pages of [start, end). */
    method FreePteRange(pid: nat, start: nat, end: nat) returns (unmarked: seq<Conflict>)
      requires Valid() && Key(pid, start) && start <= end <= VA_LIMIT && (end - start) % PAGE_SIZE == 0
      modifies this, buddy
      ensures Valid() && UnmapsRange(old(t), t, pid, start, end)
      ensures TablesSized(old(t)) && TablesSized(t) && Drained(old(t), t, pid, unmarked)
      ensures Conserved(old(t.fpga), old(buddy.blocks), t.fpga, buddy.blocks)
      ensures DropsFrames(old(t), t) && MoreTags(t, old(t))
    {
      hide TablesOk, FramesOk, Conserved, Good, Holds, UnmapsRange, GenerateTag, HasTag, TagsOk, Drained, Clear,
        DropsFrames;
      DropsNone(t);
      ghost var t0, hs0 := t, buddy.blocks;
      SizedOk(t, 0);
      UnmapStart(t0, pid, start);
      SameConserved(t.fpga, buddy.blocks);
      unmarked := [];
      var cur := start;
      while cur < end
        invariant start <= cur <= end && (end - cur) % PAGE_SIZE == 0 && (cur < end ==> PageAddr(cur))
        invariant Valid() && UnmapsRange(t0, t, pid, start, cur) && Conserved(t0.fpga, hs0, t.fpga, buddy.blocks)
        invariant TablesSized(t0) && TablesSized(t) && Drained(t0, t, pid, unmarked)
        invariant DropsFrames(t0, t) && MoreTags(t, t0)
        decreases end - cur
      {
        ghost var t1, hs1 := t, buddy.blocks;
        SizedOk(t, 0);
        var slot := Lookup(t.shadow, pid, cur);
        if slot.Some? {
          ClearOk(t, slot.value);
          DrainOne(t, pid, cur, slot.value);
          var more := FreeOnePte(slot.value);
          SizedOk(t, 0);
          DrainedTrans(t0, t1, t, pid, unmarked, more);
          unmarked := unmarked + more;
          DropsTrans(t0, t1, t);
          ConservedTrans(t0.fpga, hs0, t1.fpga, hs1, t.fpga, buddy.blocks);
        }
        UnmapStep(t0, t1, t, pid, start, cur, end);
        NextPage(start, cur, end, cur);
        cur := cur + PAGE_SIZE;
      }
    }
  }

  lemma FilledSlot(t: Tables, t': Tables, i: nat)
    requires i < |t.fpga| == |t'.fpga| && !t.fpga[i].valid && t'.fpga == t.fpga[i := t'.fpga[i]]
    ensures Filled(t, t', t'.fpga[i].valid, t'.fpga[i].tag)
  {
    forall g ensures TagFilled(t'.fpga, g) <==> TagFilled(t.fpga, g) || (t'.fpga[i].valid && g == t'.fpga[i].tag) {
      FilledAfter(t.fpga, i, t'.fpga[i], g);
    }
  }

  lemma SameFrames(t: Tables)
    ensures KeepsFrames(t, t)
  {
  }

  /** A new page in an unused slot leaves the others their frames. */
  lemma FilledKeeps(t: Tables, t': Tables, i: nat)
    requires TablesOk(t) && i < NR_PTES && !t.shadow[i].used && |t'.fpga| == NR_PTES
    requires t'.fpga == t.fpga[i := t'.fpga[i]] && !HasTag(t.shadow, t'.fpga[i].tag)
    ensures KeepsFrames(t, t')
  {
    forall g, x | HasTag(t.shadow, g) ensures TagFrame(t'.fpga, g, x) <==> TagFrame(t.fpga, g, x) {
      UnusedFrame(t, t'.fpga[i], i, g, x);
    }
  }

  lemma UnusedFrame(t: Tables, p: Pte, i: nat, g: nat, x: int)
    requires TablesOk(t) && i < NR_PTES && !t.shadow[i].used && g != p.tag
    ensures TagFrame(t.fpga[i := p], g, x) <==> TagFrame(t.fpga, g, x)
  {
    SyncedAt(t, i);
    var f, f' := t.fpga, t.fpga[i := p];
    if k :| 0 <= k < |f| && f[k].valid && f[k].tag == g && FrameOf(f[k]) == x {
      assert f'[k] == f[k];
    }
    if k :| 0 <= k < |f'| && f'[k].valid && f'[k].tag == g && FrameOf(f'[k]) == x {
      assert f[k] == f'[k];
    }
  }

  ghost predicate MoreTags(t: Tables, t': Tables) { forall g :: HasTag(t.shadow, g) ==> HasTag(t'.shadow, g) }

  lemma TaggedMore(t0: Tables, t: Tables, t': Tables, added: bool, tag: nat)
    requires MoreTags(t0, t) && Tagged(t, t', added, tag)
    ensures MoreTags(t0, t')
  {
  }

  lemma KeepsTrans(t0: Tables, t1: Tables, t2: Tables)
    requires KeepsFrames(t0, t1) && KeepsFrames(t1, t2) && MoreTags(t0, t1)
    ensures KeepsFrames(t0, t2)
  {
  }

  lemma DropsNone(t: Tables)
    requires TablesOk(t)
    ensures DropsFrames(t, t)
  {
    forall g, x | TagFrame(t.fpga, g, x) ensures HasTag(t.shadow, g) {
      FramesHaveTags(t, g, x);
    }
  }

  /** Clearing a slot takes one page its frame. */
  lemma ClearDrops(t: Tables, t': Tables, i: nat)
    requires TablesOk(t) && TablesOk(t') && i < NR_PTES && t.shadow[i].used && !t'.fpga[i].valid
    requires t'.fpga == t.fpga[i := t'.fpga[i]]
    requires forall g :: HasTag(t'.shadow, g) <==> HasTag(t.shadow, g) && g != t.shadow[i].tag
    ensures DropsFrames(t, t')
  {
    SyncedAt(t, i);
    forall g, x ensures TagFrame(t'.fpga, g, x) <==> TagFrame(t.fpga, g, x) && HasTag(t'.shadow, g) {
      ClearedFrame(t, t', i, g, x);
    }
  }

  lemma ClearedFrame(t: Tables, t': Tables, i: nat, g: nat, x: int)
    requires TablesOk(t) && TablesOk(t') && i < NR_PTES && !t'.fpga[i].valid && t'.fpga == t.fpga[i := t'.fpga[i]]
    requires HasTag(t'.shadow, g) ==> g != t.fpga[i].tag
    ensures TagFrame(t'.fpga, g, x) ==> TagFrame(t.fpga, g, x) && HasTag(t'.shadow, g)
    ensures TagFrame(t.fpga, g, x) && HasTag(t'.shadow, g) ==> TagFrame(t'.fpga, g, x)
  {
    if TagFrame(t'.fpga, g, x) {
      FramesHaveTags(t', g, x);
      var k :| 0 <= k < |t'.fpga| && t'.fpga[k].valid && t'.fpga[k].tag == g && FrameOf(t'.fpga[k]) == x;
      assert t.fpga[k] == t'.fpga[k];
    }
    if TagFrame(t.fpga, g, x) && HasTag(t'.shadow, g) {
      var k :| 0 <= k < |t.fpga| && t.fpga[k].valid && t.fpga[k].tag == g && FrameOf(t.fpga[k]) == x;
      assert t'.fpga[k] == t.fpga[k];
    }
  }

  lemma DropsTrans(t0: Tables, t1: Tables, t2: Tables)
    requires DropsFrames(t0, t1) && DropsFrames(t1, t2) && MoreTags(t2, t1)
    ensures DropsFrames(t0, t2)
  {
  }

  lemma SameConserved(f: seq<Pte>, hs: Blocks)
    ensures Conserved(f, hs, f, hs)
  {
  }

  lemma {:induction false} AllFree(s: seq<Pte>, i: nat, n: nat)
    requires i + n <= |s| && forall k :: 0 <= k < |s| ==> !s[k].used
    ensures FreeSlots(s, i, n) == n
  {
    if n > 0 {
      AllFree(s, i, n - 1);
    }
  }

  function EmptyTables(): Tables {
    var empty := Pte(false, false, 0, 0);
    Tables(seq(NR_PTES, _ => empty), seq(NR_PTES, _ => empty), seq(NR_BUCKETS, _ => NR_SLOTS),
           seq(NR_BUCKETS, _ => []), seq(NR_BUCKETS, _ => 0))
  }

  lemma EmptyOk()
    ensures TablesOk(EmptyTables()) && forall g :: !HasTag(EmptyTables().shadow, g)
  {
    var t := EmptyTables();
    forall b | 0 <= b < NR_BUCKETS ensures BucketOk(t, b) {
      AllFree(t.shadow, b * NR_SLOTS, NR_SLOTS);
    }
  }

  lemma RangeStart(t: Tables, pid: nat, start: nat, end: nat)
    requires TablesSized(t)
    ensures MapsRange(t, t, pid, start, start) && RoomKept(t, t, start, end)
  {
  }

  lemma UnmapStart(t: Tables, pid: nat, start: nat)
    requires TablesSized(t)
    ensures UnmapsRange(t, t, pid, start, start) && Drained(t, t, pid, [])
  {
    DrainedSame(t, pid);
  }

  lemma NotYetMapped(t0: Tables, t: Tables, pid: nat, start: nat, cur: nat, end: nat)
    requires TablesSized(t0) && MapsRange(t0, t, pid, start, cur) && Key(pid, cur) && start <= cur < end
    requires forall y :: InRange(start, end, y) ==> !IsMapped(t0, pid, y)
    ensures !IsMapped(t, pid, cur)
  {
    assert InRange(start, end, cur);
  }

  lemma BucketAt(t: Tables, b: nat)
    requires TablesOk(t) && b < NR_BUCKETS
    ensures t.nrConflicts[b] == |t.conflicts[b]|
  {
    assert BucketOk(t, b);
  }

  lemma FrameTaken(f: seq<Pte>, z: Zone, hs: Blocks, i: nat)
    requires FramesOk(f, z, hs) && z.Ok() && i < |f| && f[i].valid
    ensures FrameOf(f[i]) >= 0 && Fits(z, FrameOf(f[i]), 0) && Taken(hs, FrameOf(f[i]), 0)
    ensures !HeadInside(hs, FrameOf(f[i]), 0)
  {
    var pfn := FrameOf(f[i]);
    forall x | InBlock(pfn, 0, x) ensures !IsFree(hs, x) {
      assert x == pfn;
    }
    forall q | q in hs ensures !InBlock(pfn, 0, q) {
      assert InBlock(q, hs[q], q);
      assert IsFree(hs, q);
    }
  }
}
