/** Page table entries, their tags and the buckets they hash to. */
module PageTypes {

  const PAGE_SIZE: nat := 0x40_0000
  const NR_BUCKETS: nat := 0x8000
  const NR_SLOTS: nat := 16
  const NR_PTES: nat := NR_BUCKETS * NR_SLOTS
  const TAG_UNIT: nat := 0x10_0000
  const TAG_PID: nat := 0x1000_0000_0000
  const NR_PIDS: nat := 0x1_0000
  const VA_LIMIT: nat := 0x1_0000_0000_0000_0000
  const MAPPING_BASE: nat := 0x5_0000_0000
  const POPULATE: nat := 2

  datatype Pte = Pte(used: bool, valid: bool, tag: nat, ppa: nat)

  /** An address the page table can hold: page aligned and 64 bits wide. */
  predicate PageAddr(va: nat) { va % PAGE_SIZE == 0 && va < VA_LIMIT }

  function BucketIndex(va: nat): (b: nat)
    ensures b < NR_BUCKETS
  {
    (va / PAGE_SIZE) % NR_BUCKETS
  }

  function GenerateTag(pid: nat, va: nat): nat { (pid % NR_PIDS) * TAG_PID + va / TAG_UNIT }

  /** The address in a tag. */
  function TagVa(tag: nat): nat { (tag % TAG_PID) * TAG_UNIT }

  /** A tag names one page of one process. */
  lemma TagInjective(pid: nat, va: nat, pid': nat, va': nat)
    requires pid < NR_PIDS && pid' < NR_PIDS && PageAddr(va) && PageAddr(va')
    requires GenerateTag(pid, va) == GenerateTag(pid', va')
    ensures pid == pid' && va == va'
  {
    TagParts(pid, va);
    TagParts(pid', va');
  }

  lemma TagParts(pid: nat, va: nat)
    requires pid < NR_PIDS && PageAddr(va)
    ensures TagVa(GenerateTag(pid, va)) == va && GenerateTag(pid, va) / TAG_PID == pid
  {
    var p := va / PAGE_SIZE;
    assert va == TAG_UNIT * (4 * p);
    TagSum(pid, 4 * p);
  }

  lemma TagSum(pid: nat, u: nat)
    requires u < TAG_PID
    ensures (pid * TAG_PID + u) % TAG_PID == u && (pid * TAG_PID + u) / TAG_PID == pid
  {
  }

  /** Pages less than a table's worth of buckets apart never share a bucket. */
  lemma BucketsDistinct(va: nat, va': nat)
    requires PageAddr(va) && PageAddr(va') && va < va' < va + NR_BUCKETS * PAGE_SIZE
    ensures BucketIndex(va) != BucketIndex(va')
  {
    var p, p' := va / PAGE_SIZE, va' / PAGE_SIZE;
    assert 0 < p' - p < NR_BUCKETS;
  }
}
