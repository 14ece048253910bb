/** Constants, header layout and packet shapes shared by the modules of the
    FPGA go-back-N network stack. */
module GbnTypes {

  import opened Options

  const WINDOW_SIZE := 128
  const MAX_PACKET_SIZE := 1536
  const NR_SESSIONS := 1024
  const NR_BATCHED_PKT_PER_ACK := 99

  /** Start and size of the DRAM range reserved for unacknowledged packets. */
  const BUFF_ADDRESS_START := 0x5_0000_0000
  const NETCACHE_SIZE := 0x2000_0000

  const SEQ_MOD := 0x1_0000_0000
  const WORD_MOD := 0x1_0000_0000_0000_0000

  type Slot = s: nat | s < NR_SESSIONS
  type SeqNum = s: nat | s < SEQ_MOD
  type Word = w: nat | w < WORD_MOD

  /** 32-bit increment and decrement, with wrap-around. */
  function Inc(s: SeqNum): SeqNum { (s + 1) % SEQ_MOD }

  function Dec(s: SeqNum): SeqNum { (s + SEQ_MOD - 1) % SEQ_MOD }

  type PktKind = k: nat | k < 256

  const ACK: PktKind := 1
  const NACK: PktKind := 2
  const DATA: PktKind := 3

  datatype Header = Header(kind: PktKind, seqnum: SeqNum, src: Slot, dst: Slot)

  /** The contents of a packet behind the go-back-N header: the UDP length
      (16 bytes of headers included) and the 64-bit payload beats. */
  datatype Frame = Frame(len: nat, payload: seq<Word>)

  datatype Packet = Packet(srcIp: nat, dstIp: nat, hdr: Header, frame: Frame)

  /** What the transmit path accepts: at least one payload byte, at most the
      MTU, and as many beats as the length announces. */
  predicate FrameOk(f: Frame) {
    && 16 < f.len <= MAX_PACKET_SIZE
    && |f.payload| == (f.len - 16 + 7) / 8
  }

  // ---- the 64-bit header word: kind 0..7, seqnum 8..39, src 40..49, dst 50..59

  /** Bits lo .. lo + width - 1 of a word, where lsb = 2^lo and size = 2^width. */
  function Field(w: Word, lsb: nat, size: nat): nat
    requires lsb > 0 && size > 0
  {
    w / lsb % size
  }

  function Pack(h: Header): Word {
    h.kind + h.seqnum * 0x100 + h.src * 0x100_0000_0000 + h.dst * 0x4_0000_0000_0000
  }

  function Unpack(w: Word): Header {
    Header(Field(w, 1, 0x100), Field(w, 0x100, SEQ_MOD),
           Field(w, 0x100_0000_0000, 0x400), Field(w, 0x4_0000_0000_0000, 0x400))
  }

  lemma PackRoundTrip(h: Header)
    ensures Unpack(Pack(h)) == h
  {
    var w := Pack(h);
    assert w == h.kind + 0x100 * (h.seqnum + SEQ_MOD * (h.src + 0x400 * h.dst));
    assert w / 0x100 == h.seqnum + SEQ_MOD * (h.src + 0x400 * h.dst);
    assert w / 0x100_0000_0000 == h.src + 0x400 * h.dst;
    assert w / 0x4_0000_0000_0000 == h.dst;
  }
}
