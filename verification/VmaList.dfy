/** Virtual memory areas and their doubly linked, address-ordered list. */
module VmaList {
  import opened RbTree
  import opened RbRotate

  datatype Vma = Vma(start: nat, end: nat, flags: nat, next: Ptr, prev: Ptr)

  type VmaPool = map<Ptr, Vma>

  function Nth(list: seq<Ptr>, i: int): Ptr { if 0 <= i < |list| then list[i] else NULL }

  ghost predicate Distinct(list: seq<Ptr>) {
    forall i, j :: 0 <= i < j < |list| ==> list[i] != list[j]
  }

  ghost predicate Linked(v: VmaPool, list: seq<Ptr>, i: int) {
    0 <= i < |list| && list[i] in v && v[list[i]].prev == Nth(list, i - 1) && v[list[i]].next == Nth(list, i + 1)
  }

  /** The list is threaded through the areas in both directions. */
  ghost predicate ListOk(v: VmaPool, mmap: Ptr, list: seq<Ptr>) {
    && Distinct(list) && mmap == Nth(list, 0)
    && (forall i :: 0 <= i < |list| ==> list[i] in v && list[i] != NULL)
    && (forall i :: 0 <= i < |list| ==> Linked(v, list, i))
  }

  // ---- gaps

  /** Bytes between an area and its predecessor, or address 0. */
  function ComputeGap(v: VmaPool, x: Ptr): nat {
    if x !in v then 0
    else if v[x].prev == NULL || v[x].prev !in v then v[x].start
    else if v[x].start > v[v[x].prev].end then v[x].start - v[v[x].prev].end
    else 0
  }

  function GapFn(v: VmaPool): Own { (x: Ptr) => ComputeGap(v, x) }

  /** Areas other than those in wrong have the gap they had. */
  ghost predicate SameGaps(v: VmaPool, v': VmaPool, xs: set<Ptr>, wrong: set<Ptr>) {
    forall x :: x in xs && x !in wrong ==> ComputeGap(v', x) == ComputeGap(v, x)
  }

  lemma GapChange(m: Pool, v: VmaPool, v': VmaPool, xs: set<Ptr>, before: set<Ptr>, wrong: set<Ptr>)
    requires AllLocal(m, GapFn(v), xs - before) && SameGaps(v, v', xs, wrong) && before <= wrong
    ensures AllLocal(m, GapFn(v'), xs - wrong)
  {
    forall x | x in xs - wrong ensures LocalOk(m, GapFn(v'), x) {
      assert LocalOk(m, GapFn(v), x);
      assert GapFn(v')(x) == GapFn(v)(x);
    }
  }

  // ---- the areas in order

  datatype Area = Area(start: nat, end: nat, flags: nat)

  function AreaOf(a: Vma): Area { Area(a.start, a.end, a.flags) }

  ghost predicate Within(v: VmaPool, list: seq<Ptr>) { forall i :: 0 <= i < |list| ==> list[i] in v }

  ghost function View(v: VmaPool, list: seq<Ptr>): (rs: seq<Area>)
    requires Within(v, list)
    ensures |rs| == |list| && forall i :: 0 <= i < |list| ==> rs[i] == AreaOf(v[list[i]])
  {
    seq(|list|, i requires 0 <= i < |list| => AreaOf(v[list[i]]))
  }

  // ---- linking and unlinking

  function SetNext(v: VmaPool, x: Ptr, n: Ptr): VmaPool {
    if x == NULL || x !in v then v else v[x := v[x].(next := n)]
  }

  function SetPrev(v: VmaPool, x: Ptr, p: Ptr): VmaPool {
    if x == NULL || x !in v then v else v[x := v[x].(prev := p)]
  }

  /** x goes behind prev, or to the front. */
  function LinkList(v: VmaPool, mmap: Ptr, x: Ptr, prev: Ptr): (VmaPool, Ptr)
    requires x in v && (prev != NULL ==> prev in v)
  {
    var next := if prev != NULL then v[prev].next else mmap;
    var v1 := SetNext(v[x := v[x].(prev := prev)], prev, x);
    (SetPrev(v1[x := v1[x].(next := next)], next, x), if prev == NULL then x else mmap)
  }

  /** Whatever was between prev and next is bypassed. */
  function Splice(v: VmaPool, mmap: Ptr, prev: Ptr, next: Ptr): (VmaPool, Ptr) {
    (SetPrev(SetNext(v, prev, next), next, prev), if prev == NULL then next else mmap)
  }

  function UnlinkList(v: VmaPool, mmap: Ptr, x: Ptr): (VmaPool, Ptr)
    requires x in v
  {
    Splice(v, mmap, v[x].prev, v[x].next)
  }

  /** Only links differ. */
  ghost predicate SameRanges(v: VmaPool, v': VmaPool) {
    && v'.Keys == v.Keys
    && forall x :: x in v ==> v'[x] == v[x].(next := v'[x].next, prev := v'[x].prev)
  }

  function Inserted<T>(list: seq<T>, i: nat, x: T): seq<T>
    requires i <= |list|
  {
    list[..i] + [x] + list[i..]
  }

  function Removed<T>(list: seq<T>, i: nat, j: nat): seq<T>
    requires i <= j <= |list|
  {
    list[..i] + list[j..]
  }

  lemma LinkFields(v: VmaPool, mmap: Ptr, x: Ptr, prev: Ptr, y: Ptr)
    requires x in v && y in v && x != prev && (prev != NULL ==> prev in v)
    ensures var next := if prev != NULL then v[prev].next else mmap;
            var w := LinkList(v, mmap, x, prev).0;
            next != x && (next == NULL || next != prev) ==>
              && y in w
              && w[y].next == (if y == x then next else if y == prev && y != NULL then x else v[y].next)
              && w[y].prev == (if y == x then prev else if y == next && y != NULL then x else v[y].prev)
              && w[y] == v[y].(next := w[y].next, prev := w[y].prev)
  {
  }

  lemma SpliceFields(v: VmaPool, mmap: Ptr, prev: Ptr, next: Ptr, y: Ptr)
    requires y in v && (next == NULL || next != prev)
    ensures var w := Splice(v, mmap, prev, next).0;
            && y in w
            && w[y].next == (if y == prev && y != NULL then next else v[y].next)
            && w[y].prev == (if y == next && y != NULL then prev else v[y].prev)
            && w[y] == v[y].(next := w[y].next, prev := w[y].prev)
  {
  }

  /** w is v with x put in at position i. */
  ghost predicate LinkedIn(v: VmaPool, list: seq<Ptr>, x: Ptr, i: nat, w: VmaPool) {
    forall y :: y in v ==>
      && y in w && w[y] == v[y].(next := w[y].next, prev := w[y].prev)
      && w[y].next == (if y == x then Nth(list, i) else if y == Nth(list, i - 1) && y != NULL then x else v[y].next)
      && w[y].prev == (if y == x then Nth(list, i - 1) else if y == Nth(list, i) && y != NULL then x else v[y].prev)
  }

  lemma LinkListFields(v: VmaPool, mmap: Ptr, list: seq<Ptr>, x: Ptr, i: nat)
    requires ListOk(v, mmap, list) && x in v && x != NULL && x !in list && i <= |list|
    ensures Nth(list, i - 1) != NULL ==> Nth(list, i - 1) in v
    ensures LinkedIn(v, list, x, i, LinkList(v, mmap, x, Nth(list, i - 1)).0)
    ensures LinkList(v, mmap, x, Nth(list, i - 1)).0.Keys == v.Keys
  {
    var w := LinkList(v, mmap, x, Nth(list, i - 1)).0;
    assert i > 0 ==> Linked(v, list, i - 1);
    forall y | y in v
      ensures y in w && w[y] == v[y].(next := w[y].next, prev := w[y].prev)
      ensures w[y].next == (if y == x then Nth(list, i) else if y == Nth(list, i - 1)
        && y != NULL then x else v[y].next)
      ensures w[y].prev == (if y == x then Nth(list, i - 1) else if y == Nth(list, i)
        && y != NULL then x else v[y].prev)
    {
      LinkFields(v, mmap, x, Nth(list, i - 1), y);
    }
  }

  lemma LinkListOk(v: VmaPool, mmap: Ptr, list: seq<Ptr>, x: Ptr, i: nat)
    requires ListOk(v, mmap, list) && x in v && x != NULL && x !in list && i <= |list|
    requires Nth(list, i - 1) != NULL ==> Nth(list, i - 1) in v
    ensures var (w, mmap') := LinkList(v, mmap, x, Nth(list, i - 1));
            ListOk(w, mmap', Inserted(list, i, x)) && SameRanges(v, w)
  {
    hide Linked, LinkedIn, LinkList;
    LinkListFields(v, mmap, list, x, i);
    var w := LinkList(v, mmap, x, Nth(list, i - 1)).0;
    var list' := Inserted(list, i, x);
    LinkedNew(v, mmap, list, x, i, w);
    LinkedRanges(v, list, x, i, w);
    LinkFirst(v, mmap, list, x, i);
    forall j | 0 <= j < |list'| ensures list'[j] in w && list'[j] != NULL && Linked(w, list', j) {
      if j != i {
        LinkedAt(v, mmap, list, x, i, w, if j < i then j else j - 1);
      }
    }
  }

  lemma LinkedNew(v: VmaPool, mmap: Ptr, list: seq<Ptr>, x: Ptr, i: nat, w: VmaPool)
    requires ListOk(v, mmap, list) && x in v && i <= |list| && LinkedIn(v, list, x, i, w)
    ensures Linked(w, Inserted(list, i, x), i)
  {
  }

  lemma LinkedRanges(v: VmaPool, list: seq<Ptr>, x: Ptr, i: nat, w: VmaPool)
    requires LinkedIn(v, list, x, i, w) && w.Keys == v.Keys
    ensures SameRanges(v, w)
  {
  }

  lemma LinkFirst(v: VmaPool, mmap: Ptr, list: seq<Ptr>, x: Ptr, i: nat)
    requires ListOk(v, mmap, list) && x in v && x !in list && i <= |list|
      && (Nth(list, i - 1) != NULL ==> Nth(list, i - 1) in v)
    ensures LinkList(v, mmap, x, Nth(list, i - 1)).1 == Nth(Inserted(list, i, x), 0) && Distinct(Inserted(list, i, x))
  {
  }

  lemma LinkedAt(v: VmaPool, mmap: Ptr, list: seq<Ptr>, x: Ptr, i: nat, w: VmaPool, j: nat)
    requires ListOk(v, mmap, list) && x != NULL && x !in list && i <= |list| && j < |list| && LinkedIn(v, list, x, i, w)
    ensures var k := if j < i then j else j + 1;
            Inserted(list, i, x)[k] == list[j] && Linked(w, Inserted(list, i, x), k)
  {
    assert Linked(v, list, j);
    assert list[j] in w;
  }

  /** w is v with the elements from position i up to j bypassed. */
  ghost predicate Bypassed(v: VmaPool, list: seq<Ptr>, i: nat, j: nat, w: VmaPool) {
    forall y :: y in v ==>
      && y in w && w[y] == v[y].(next := w[y].next, prev := w[y].prev)
      && w[y].next == (if y == Nth(list, i - 1) && y != NULL then Nth(list, j) else v[y].next)
      && w[y].prev == (if y == Nth(list, j) && y != NULL then Nth(list, i - 1) else v[y].prev)
  }

  /** The list is in order outside positions i up to j. */
  ghost predicate ListOkBut(v: VmaPool, mmap: Ptr, list: seq<Ptr>, i: nat, j: nat) {
    && Distinct(list) && mmap == Nth(list, 0) && i < j <= |list|
    && (forall k :: 0 <= k < |list| ==> list[k] in v && list[k] != NULL)
    && (forall k :: 0 <= k < |list| && !(i <= k < j) ==> Linked(v, list, k))
  }

  lemma SpliceListFields(v: VmaPool, mmap: Ptr, list: seq<Ptr>, i: nat, j: nat)
    requires ListOkBut(v, mmap, list, i, j)
    ensures Bypassed(v, list, i, j, Splice(v, mmap, Nth(list, i - 1), Nth(list, j)).0)
    ensures Splice(v, mmap, Nth(list, i - 1), Nth(list, j)).0.Keys == v.Keys
  {
    var w := Splice(v, mmap, Nth(list, i - 1), Nth(list, j)).0;
    forall y | y in v
      ensures y in w && w[y] == v[y].(next := w[y].next, prev := w[y].prev)
      ensures w[y].next == (if y == Nth(list, i - 1) && y != NULL then Nth(list, j) else v[y].next)
      ensures w[y].prev == (if y == Nth(list, j) && y != NULL then Nth(list, i - 1) else v[y].prev)
    {
      SpliceFields(v, mmap, Nth(list, i - 1), Nth(list, j), y);
    }
  }

  lemma SpliceListOk(v: VmaPool, mmap: Ptr, list: seq<Ptr>, i: nat, j: nat)
    requires ListOkBut(v, mmap, list, i, j)
    ensures var (w, mmap') := Splice(v, mmap, Nth(list, i - 1), Nth(list, j));
            ListOk(w, mmap', Removed(list, i, j)) && SameRanges(v, w)
  {
    SpliceListFields(v, mmap, list, i, j);
    var w := Splice(v, mmap, Nth(list, i - 1), Nth(list, j)).0;
    var list' := Removed(list, i, j);
    forall k | 0 <= k < |list'| ensures list'[k] in w && list'[k] != NULL && Linked(w, list', k) {
      BypassedAt(v, mmap, list, i, j, w, if k < i then k else k + j - i);
    }
  }

  lemma BypassedAt(v: VmaPool, mmap: Ptr, list: seq<Ptr>, i: nat, j: nat, w: VmaPool, k: nat)
    requires ListOkBut(v, mmap, list, i, j) && k < |list| && !(i <= k < j) && Bypassed(v, list, i, j, w)
    ensures var k' := if k < i then k else k + i - j;
            Removed(list, i, j)[k'] == list[k] && Linked(w, Removed(list, i, j), k')
  {
    assert Linked(v, list, k);
    assert list[k] in w;
  }

  // ---- what each change does to the gaps

  lemma SameGap(v: VmaPool, w: VmaPool, x: Ptr)
    requires x in v && x in w && w[x].start == v[x].start && w[x].prev == v[x].prev
    requires var p := v[x].prev; p != NULL ==> p in v && p in w && w[p].end == v[p].end
    ensures ComputeGap(w, x) == ComputeGap(v, x)
  {
  }

  lemma LinkGaps(v: VmaPool, mmap: Ptr, list: seq<Ptr>, x: Ptr, i: nat, w: VmaPool)
    requires ListOk(v, mmap, list) && x != NULL && x !in list && i <= |list| && LinkedIn(v, list, x, i, w)
    ensures SameGaps(v, w, set y | y in list, {Nth(list, i)})
  {
    forall y | y in list && y != Nth(list, i) ensures ComputeGap(w, y) == ComputeGap(v, y) {
      var k :| 0 <= k < |list| && list[k] == y;
      assert Linked(v, list, k);
      SameGap(v, w, y);
    }
  }

  lemma SpliceGaps(v: VmaPool, mmap: Ptr, list: seq<Ptr>, i: nat, j: nat, w: VmaPool)
    requires ListOkBut(v, mmap, list, i, j) && Bypassed(v, list, i, j, w)
    ensures SameGaps(v, w, set y | y in Removed(list, i, j), {Nth(list, j)})
  {
    var list' := Removed(list, i, j);
    forall y | y in list' && y != Nth(list, j) ensures ComputeGap(w, y) == ComputeGap(v, y) {
      var k' :| 0 <= k' < |list'| && list'[k'] == y;
      var k := if k' < i then k' else k' + j - i;
      assert y == list[k];
      assert Linked(v, list, k);
      SameGap(v, w, y);
    }
  }

  /** Moving an area's start or end. */
  lemma RangeGaps(v: VmaPool, mmap: Ptr, list: seq<Ptr>, i: nat, start: nat, end: nat)
    requires ListOk(v, mmap, list) && i < |list|
    ensures var w := v[list[i] := v[list[i]].(start := start, end := end)];
            && ListOk(w, mmap, list)
            && SameGaps(v, w, set y | y in list,
                        (if start == v[list[i]].start then {} else {list[i]})
                        + (if end == v[list[i]].end then {} else {Nth(list, i + 1)}))
  {
    var w := v[list[i] := v[list[i]].(start := start, end := end)];
    forall k | 0 <= k < |list| ensures Linked(w, list, k) {
      assert Linked(v, list, k);
    }
    forall k | 0 <= k < |list| && (k == i ==> start == v[list[i]].start) && (k == i + 1 ==> end == v[list[i]].end)
      ensures ComputeGap(w, list[k]) == ComputeGap(v, list[k])
    {
      assert Linked(v, list, k);
      SameGap(v, w, list[k]);
    }
  }
}
