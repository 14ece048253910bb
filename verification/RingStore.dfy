/** The DRAM ring of unacknowledged packets: 128 fixed-size slots per session,
    each holding the UDP length, the header word and the payload beats. */
module RingStore {
  import opened Options
  import opened GbnTypes

  /** 64-bit words by byte address; an address that was never written is absent. */
  type Dram = map<nat, Word>

  function WindowIdx(n: SeqNum): nat { n % WINDOW_SIZE }

  function SlotAddr(s: Slot, idx: nat): nat {
    BUFF_ADDRESS_START + (s * WINDOW_SIZE + idx) * MAX_PACKET_SIZE
  }

  function WriteWords(d: Dram, addr: nat, ws: seq<Word>): Dram
    decreases |ws|
  {
    if ws == [] then d else WriteWords(d[addr := ws[0]], addr + 8, ws[1..])
  }

  /** n words from addr on, or None when one of them was never written. */
  function ReadWords(d: Dram, addr: nat, n: nat): (r: Option<seq<Word>>)
    ensures r.Some? ==> |r.value| == n
    decreases n
  {
    if n == 0 then Some([])
    else if addr !in d then None
    else
      var rest := ReadWords(d, addr + 8, n - 1);
      if rest.None? then None else Some([d[addr]] + rest.value)
  }

  /** What the write machine puts in a slot. */
  function SlotImage(h: Header, f: Frame): seq<Word>
    requires FrameOk(f)
  {
    [f.len, Pack(h)] + f.payload
  }

  function Store(d: Dram, s: Slot, idx: nat, h: Header, f: Frame): Dram
    requires FrameOk(f)
  {
    WriteWords(d, SlotAddr(s, idx), SlotImage(h, f))
  }

  /** The packet the retransmit machine fetches: it reads the 16-bit length from
      the first word and then length - 8 bytes. */
  function Load(d: Dram, s: Slot, idx: nat): Option<(Header, Frame)> {
    var addr := SlotAddr(s, idx);
    if addr !in d || d[addr] % 0x10000 < 16 then None
    else
      var len := d[addr] % 0x10000;
      var ws := ReadWords(d, addr + 8, (len - 8 + 7) / 8);
      if ws.None? then None
      else Some((Unpack(ws.value[0]), Frame(len, ws.value[1..])))
  }

  /** A slot is untouched or holds a whole packet that fits it. */
  predicate SlotOk(d: Dram, s: Slot, idx: nat) {
    SlotAddr(s, idx) in d ==>
      && Load(d, s, idx).Some?
      && FrameOk(Load(d, s, idx).value.1)
  }

  lemma {:induction false} WriteOutside(d: Dram, addr: nat, ws: seq<Word>, k: nat)
    requires k < addr || k >= addr + 8 * |ws|
    ensures k in WriteWords(d, addr, ws) <==> k in d
    ensures k in d ==> WriteWords(d, addr, ws)[k] == d[k]
    decreases |ws|
  {
    if ws != [] {
      WriteOutside(d[addr := ws[0]], addr + 8, ws[1..], k);
    }
  }

  lemma {:induction false} ReadAfterWrite(d: Dram, addr: nat, ws: seq<Word>)
    ensures ReadWords(WriteWords(d, addr, ws), addr, |ws|) == Some(ws)
    decreases |ws|
  {
    if ws != [] {
      var d1 := d[addr := ws[0]];
      ReadAfterWrite(d1, addr + 8, ws[1..]);
      WriteOutside(d1, addr + 8, ws[1..], addr);
      assert [ws[0]] + ws[1..] == ws;
    }
  }

  lemma {:induction false} ReadFrame(d: Dram, addr: nat, ws: seq<Word>, at: nat, n: nat)
    requires at + 8 * n <= addr || addr + 8 * |ws| <= at
    ensures ReadWords(WriteWords(d, addr, ws), at, n) == ReadWords(d, at, n)
    decreases n
  {
    if n > 0 {
      WriteOutside(d, addr, ws, at);
      ReadFrame(d, addr, ws, at + 8, n - 1);
    }
  }

  lemma {:induction false} ReadTail(d: Dram, addr: nat, ws: seq<Word>)
    requires ReadWords(d, addr, |ws|) == Some(ws) && ws != []
    ensures addr in d && d[addr] == ws[0]
    ensures ReadWords(d, addr + 8, |ws| - 1) == Some(ws[1..])
  {
    var rest := ReadWords(d, addr + 8, |ws| - 1).value;
    assert ([d[addr]] + rest)[1..] == rest;
  }

  /** Distinct ring slots occupy disjoint byte ranges inside the network cache. */
  lemma SlotsDisjoint(s: Slot, i: nat, s': Slot, i': nat)
    requires i < WINDOW_SIZE && i' < WINDOW_SIZE && (s, i) != (s', i')
    ensures || SlotAddr(s, i) + MAX_PACKET_SIZE <= SlotAddr(s', i')
            || SlotAddr(s', i') + MAX_PACKET_SIZE <= SlotAddr(s, i)
    ensures BUFF_ADDRESS_START <= SlotAddr(s, i)
    ensures SlotAddr(s, i) + MAX_PACKET_SIZE <= BUFF_ADDRESS_START + NETCACHE_SIZE
  {
    var k, k' := s * WINDOW_SIZE + i, s' * WINDOW_SIZE + i';
    assert k != k';
  }

  /** Storing a packet leaves every other slot as it was. */
  lemma LoadFrame(d: Dram, s: Slot, i: nat, h: Header, f: Frame, s': Slot, i': nat)
    requires FrameOk(f) && i < WINDOW_SIZE && i' < WINDOW_SIZE && (s, i) != (s', i')
    requires SlotOk(d, s', i')
    ensures Load(Store(d, s, i, h, f), s', i') == Load(d, s', i')
    ensures SlotOk(Store(d, s, i, h, f), s', i')
  {
    SlotsDisjoint(s, i, s', i');
    SlotsDisjoint(s', i', s, i);
    var addr, addr' := SlotAddr(s, i), SlotAddr(s', i');
    var ws := SlotImage(h, f);
    assert 8 * |ws| <= MAX_PACKET_SIZE;
    WriteOutside(d, addr, ws, addr');
    if addr' in d {
      var len := d[addr'] % 0x10000;
      ReadFrame(d, addr, ws, addr' + 8, (len - 8 + 7) / 8);
    }
  }

  /** The slot's words are exactly those of this packet. */
  predicate Holds(d: Dram, s: Slot, idx: nat, h: Header, f: Frame) {
    FrameOk(f) && ReadWords(d, SlotAddr(s, idx), |f.payload| + 2) == Some(SlotImage(h, f))
  }

  lemma HoldsAfterStore(d: Dram, s: Slot, idx: nat, h: Header, f: Frame)
    requires FrameOk(f)
    ensures Holds(Store(d, s, idx, h, f), s, idx, h, f)
  {
    ReadAfterWrite(d, SlotAddr(s, idx), SlotImage(h, f));
  }

  lemma HoldsFrame(d: Dram, s: Slot, i: nat, h: Header, f: Frame, s': Slot, i': nat, h': Header, f': Frame)
    requires FrameOk(f) && i < WINDOW_SIZE && i' < WINDOW_SIZE && (s, i) != (s', i')
    requires Holds(d, s', i', h', f')
    ensures Holds(Store(d, s, i, h, f), s', i', h', f')
  {
    SlotsDisjoint(s, i, s', i');
    ReadFrame(d, SlotAddr(s, i), SlotImage(h, f), SlotAddr(s', i'), |f'.payload| + 2);
  }

  /** A held packet is what a fetch of the slot yields. */
  lemma HoldsLoad(d: Dram, s: Slot, idx: nat, h: Header, f: Frame)
    requires Holds(d, s, idx, h, f)
    ensures Load(d, s, idx) == Some((h, f))
  {
    var ws := SlotImage(h, f);
    ReadTail(d, SlotAddr(s, idx), ws);
    assert ws[1..] == [Pack(h)] + f.payload;
    assert |ws| - 1 == (f.len - 8 + 7) / 8;
    PackRoundTrip(h);
  }

  /** Reading a slot back gives the header and frame that were stored. */
  lemma LoadAfterStore(d: Dram, s: Slot, idx: nat, h: Header, f: Frame)
    requires FrameOk(f)
    ensures Load(Store(d, s, idx, h, f), s, idx) == Some((h, f))
    ensures SlotOk(Store(d, s, idx, h, f), s, idx)
  {
    HoldsAfterStore(d, s, idx, h, f);
    HoldsLoad(Store(d, s, idx, h, f), s, idx, h, f);
  }
}
