/** The unit that keeps unacknowledged packets in DRAM and sends them again.

    Two machines run side by side: one writes every packet handed over by the
    transmit unit to its ring slot, the other serves retransmit requests. The
    data mover between the unit and DRAM stores each beat at the next address
    of the current write command, and answers a read command before the unit is
    called again. */
module UnackedBuffer {
  import opened Options
  import opened GbnTypes
  import opened RingStore
  import opened StreamUnits
  import opened StateTable

  datatype RecvState = RecvInfo | WriteHeader | RecvPayload

  datatype RetransState = RecvReq | ReadLen | RetransHeader | RetransPayload

  /** The write machine with the data mover's write side. */
  datatype Writer = Writer(state: RecvState, beat: Beat, destIp: map<Slot, nat>,
                           route: seq<RouteInfo>, payload: seq<Beat>,
                           wrAddr: nat, dram: Dram)

  function MoverWrite(w: Writer, data: Word): Writer {
    w.(dram := w.dram[w.wrAddr := data], wrAddr := w.wrAddr + 8)
  }

  function WriteCall(w: Writer): Writer {
    match w.state
    case RecvInfo =>
      if w.payload == [] || w.route == [] then w
      else
        var h := Unpack(w.payload[0].data);
        var w' := w.(beat := w.payload[0], payload := w.payload[1..], route := w.route[1..],
                     destIp := w.destIp[h.src := w.route[0].dstIp],
                     wrAddr := SlotAddr(h.src, h.seqnum % WINDOW_SIZE), state := WriteHeader);
        MoverWrite(w', w.route[0].len % WORD_MOD)
    case WriteHeader => MoverWrite(w, w.beat.data).(state := RecvPayload)
    case RecvPayload =>
      if w.payload == [] then w
      else
        var b := w.payload[0];
        MoverWrite(w, b.data).(beat := b, payload := w.payload[1..],
                               state := if b.last then RecvInfo else RecvPayload)
  }

  function WriteCalls(w: Writer, n: nat): Writer
    decreases n
  {
    if n == 0 then w else WriteCalls(WriteCall(w), n - 1)
  }

  lemma {:induction false} WriteCallsAdd(w: Writer, m: nat, n: nat)
    ensures WriteCalls(w, m + n) == WriteCalls(WriteCalls(w, m), n)
    decreases m
  {
    hide WriteCall;
    if m > 0 {
      WriteCallsAdd(WriteCall(w), m - 1, n);
    }
  }

  lemma {:induction false} WritePayloadRun(w: Writer, ws: seq<Word>, rest: seq<Beat>)
    requires w.state == RecvPayload && ws != [] && w.payload == Beats(ws) + rest
    ensures WriteCalls(w, |ws|)
            == w.(state := RecvInfo, beat := Beat(ws[|ws| - 1], true), payload := rest,
                  wrAddr := w.wrAddr + 8 * |ws|, dram := WriteWords(w.dram, w.wrAddr, ws))
    decreases |ws|
  {
    var w1 := WriteCall(w);
    assert w.payload[0] == Beats(ws)[0] == Beat(ws[0], |ws| == 1);
    if |ws| == 1 {
      assert w1.payload == rest;
      assert WriteCalls(w, 1) == WriteCalls(w1, 0) == w1;
      assert WriteWords(w1.dram, w1.wrAddr, ws[1..]) == w1.dram;
    } else {
      assert Beats(ws)[1..] == Beats(ws[1..]);
      assert w1.payload == Beats(ws[1..]) + rest;
      WritePayloadRun(w1, ws[1..], rest);
    }
  }

  /** The slot image is its length, its header word and its payload. */
  lemma ImageSplit(d: Dram, addr: nat, h: Header, f: Frame)
    requires FrameOk(f)
    ensures WriteWords(d, addr, SlotImage(h, f))
            == WriteWords(d[addr := f.len][addr + 8 := Pack(h)], addr + 16, f.payload)
  {
    var img := SlotImage(h, f);
    assert img[1..] == [Pack(h)] + f.payload && img[1..][1..] == f.payload;
    assert WriteWords(d, addr, img) == WriteWords(d[addr := f.len], addr + 8, img[1..]);
  }

  /** The first two calls for a packet store its length and its header. */
  lemma WriteHead(w: Writer, h: Header, ip: nat, f: Frame, routes: seq<RouteInfo>, beats: seq<Beat>)
    requires w.state == RecvInfo && FrameOk(f) && w.route == [RouteInfo(ip, f.len)] + routes
    requires w.payload == [Beat(Pack(h), false)] + beats
    ensures var addr := SlotAddr(h.src, WindowIdx(h.seqnum));
            WriteCalls(w, 2)
            == w.(state := RecvPayload, beat := Beat(Pack(h), false), route := routes, payload := beats,
                  destIp := w.destIp[h.src := ip], wrAddr := addr + 16,
                  dram := w.dram[addr := f.len][addr + 8 := Pack(h)])
  {
    hide Pack;
    PackRoundTrip(h);
    var w1 := WriteCall(w);
    assert w1.payload == beats && w1.route == routes;
    var w2 := WriteCall(w1);
    assert WriteCalls(w, 2) == WriteCalls(w1, 1) == WriteCalls(w2, 0) == w2;
  }

  /** A whole packet from the transmit unit ends up in its ring slot. */
  lemma WritePacket(w: Writer, h: Header, ip: nat, f: Frame, routes: seq<RouteInfo>, rest: seq<Beat>)
    requires w.state == RecvInfo && FrameOk(f)
    requires w.route == [RouteInfo(ip, f.len)] + routes
    requires w.payload == [Beat(Pack(h), false)] + (Beats(f.payload) + rest)
    ensures var w' := WriteCalls(w, |f.payload| + 2);
            && w'.state == RecvInfo && w'.route == routes && w'.payload == rest
            && w'.dram == Store(w.dram, h.src, WindowIdx(h.seqnum), h, f)
            && w'.destIp == w.destIp[h.src := ip]
  {
    WriteHead(w, h, ip, f, routes, Beats(f.payload) + rest);
    WriteCallsAdd(w, 2, |f.payload|);
    WritePayloadRun(WriteCalls(w, 2), f.payload, rest);
    ImageSplit(w.dram, SlotAddr(h.src, WindowIdx(h.seqnum)), h, f);
  }

  // ---- retransmit machine

  datatype Resender = Resender(state: RetransState, req: RetransReq, cur: SeqNum,
                               slotBase: nat, addr: nat, rdData: seq<Beat>,
                               reqs: seq<RetransReq>, header: seq<UdpInfo>, payload: seq<Beat>,
                               timer: seq<TimerReq>)

  /** The data mover's answer to a read command of btt bytes. */
  function MoverRead(d: Dram, addr: nat, btt: nat): seq<Beat> {
    var ws := ReadWords(d, addr, (btt + 7) / 8);
    if ws.None? then [] else Beats(ws.value)
  }

  /** The state after packet r.cur has gone out. */
  function AfterPacket(r: Resender): Resender {
    var next := Inc(r.cur);
    if next > r.req.last then r.(cur := next, timer := r.timer + [Reset(r.req.slot)], state := RecvReq)
    else r.(cur := next, state := ReadLen)
  }

  /** A length has arrived: announce the packet and ask for its words. */
  function HeaderCall(r: Resender, d: Dram, destIp: map<Slot, nat>): Resender
    requires r.rdData != []
  {
    var len := r.rdData[0].data % 0x10000;
    var ip := if r.req.slot in destIp then destIp[r.req.slot] else 0;
    r.(rdData := r.rdData[1..] + MoverRead(d, r.addr + 8, if len < 8 then 0 else len - 8),
       header := r.header + [UdpInfo(0, ip, LEGOMEM_PORT, LEGOMEM_PORT, len)],
       state := RetransPayload)
  }

  /** One call. Asking for a length falls through to the next state, which has
      something to do if beats were left over; the answers of the data mover are
      there before the next call. */
  function RetransCall(r: Resender, d: Dram, destIp: map<Slot, nat>): Resender {
    match r.state
    case RecvReq =>
      if r.reqs == [] then r
      else
        var q := r.reqs[0];
        var r' := r.(reqs := r.reqs[1..], req := q);
        if q.last < q.first then r'
        else r'.(cur := q.first, slotBase := SlotAddr(q.slot, 0), state := ReadLen)
    case ReadLen =>
      var addr := r.slotBase + r.cur % WINDOW_SIZE * MAX_PACKET_SIZE;
      var r' := r.(addr := addr, rdData := r.rdData + MoverRead(d, addr, 8), state := RetransHeader);
      if r.rdData == [] then r' else HeaderCall(r', d, destIp)
    case RetransHeader => if r.rdData == [] then r else HeaderCall(r, d, destIp)
    case RetransPayload =>
      if r.rdData == [] then r
      else
        var b := r.rdData[0];
        var r' := r.(rdData := r.rdData[1..], payload := r.payload + [b]);
        if b.last then AfterPacket(r') else r'
  }

  function RetransCalls(r: Resender, d: Dram, ip: map<Slot, nat>, n: nat): Resender
    decreases n
  {
    if n == 0 then r else RetransCalls(RetransCall(r, d, ip), d, ip, n - 1)
  }

  lemma {:induction false} RetransCallsAdd(r: Resender, d: Dram, ip: map<Slot, nat>, m: nat, n: nat)
    ensures RetransCalls(r, d, ip, m + n) == RetransCalls(RetransCalls(r, d, ip, m), d, ip, n)
    decreases m
  {
    hide RetransCall;
    if m > 0 {
      RetransCallsAdd(RetransCall(r, d, ip), d, ip, m - 1, n);
    }
  }

  lemma {:induction false} RetransPayloadRun(r: Resender, d: Dram, ip: map<Slot, nat>, ws: seq<Word>)
    requires r.state == RetransPayload && ws != [] && r.rdData == Beats(ws)
    ensures RetransCalls(r, d, ip, |ws|)
            == AfterPacket(r).(rdData := [], payload := r.payload + Beats(ws))
    decreases |ws|
  {
    var r1 := RetransCall(r, d, ip);
    assert r.rdData[0] == Beat(ws[0], |ws| == 1);
    if |ws| == 1 {
      assert [r.rdData[0]] == Beats(ws);
      assert RetransCalls(r, d, ip, 1) == RetransCalls(r1, d, ip, 0) == r1;
    } else {
      assert Beats(ws)[1..] == Beats(ws[1..]);
      RetransPayloadRun(r1, d, ip, ws[1..]);
      assert r.payload + [r.rdData[0]] + Beats(ws[1..]) == r.payload + Beats(ws);
    }
  }

  /** The words a stored packet is sent as: header, then payload. */
  function WireWords(h: Header, f: Frame): seq<Word> { [Pack(h)] + f.payload }

  lemma ReadOne(d: Dram, addr: nat, w: Word)
    requires addr in d && d[addr] == w
    ensures MoverRead(d, addr, 8) == [Beat(w, true)]
  {
    assert ReadWords(d, addr + 8, 0) == Some([]);
    assert ReadWords(d, addr, 1) == Some([w] + []);
  }

  /** What a held packet's slot answers to the two read commands. */
  lemma FetchWords(d: Dram, s: Slot, idx: nat, h: Header, f: Frame)
    requires Holds(d, s, idx, h, f)
    ensures MoverRead(d, SlotAddr(s, idx), 8) == [Beat(f.len, true)]
    ensures MoverRead(d, SlotAddr(s, idx) + 8, f.len - 8) == Beats(WireWords(h, f))
  {
    var addr, ws := SlotAddr(s, idx), WireWords(h, f);
    assert SlotImage(h, f) == [f.len] + ws;
    ReadTail(d, addr, [f.len] + ws);
    assert ([f.len] + ws)[1..] == ws;
    ReadOne(d, addr, f.len);
    assert (f.len - 8 + 7) / 8 == |ws|;
  }

  /** The first call for a packet fetches its length. */
  lemma FetchLength(r: Resender, d: Dram, ip: map<Slot, nat>, len: Word)
    requires r.state == ReadLen && r.rdData == [] && r.slotBase == SlotAddr(r.req.slot, 0)
    requires MoverRead(d, SlotAddr(r.req.slot, WindowIdx(r.cur)), 8) == [Beat(len, true)]
    ensures RetransCall(r, d, ip)
            == r.(addr := SlotAddr(r.req.slot, WindowIdx(r.cur)), rdData := [Beat(len, true)], state := RetransHeader)
  {
    hide MoverRead;
  }

  /** The second announces the packet and fetches its words. */
  lemma FetchRest(r: Resender, d: Dram, ip: map<Slot, nat>, len: Word, bs: seq<Beat>)
    requires r.state == RetransHeader && r.rdData == [Beat(len, true)] && r.req.slot in ip && 8 <= len < 0x10000
    requires MoverRead(d, r.addr + 8, len - 8) == bs
    ensures RetransCall(r, d, ip)
            == r.(rdData := bs, header := r.header + [UdpInfo(0, ip[r.req.slot], LEGOMEM_PORT, LEGOMEM_PORT, len)],
                  state := RetransPayload)
  {
    hide MoverRead;
    assert [] + bs == bs;
  }

  /** The first two calls for a packet fetch its length and then its words. */
  lemma RetransFetch(r: Resender, d: Dram, ip: map<Slot, nat>, h: Header, f: Frame)
    requires r.state == ReadLen && r.rdData == [] && r.slotBase == SlotAddr(r.req.slot, 0)
    requires r.req.slot in ip && Holds(d, r.req.slot, WindowIdx(r.cur), h, f)
    ensures RetransCalls(r, d, ip, 2)
            == r.(addr := SlotAddr(r.req.slot, WindowIdx(r.cur)), rdData := Beats(WireWords(h, f)),
                  header := r.header + [UdpInfo(0, ip[r.req.slot], LEGOMEM_PORT, LEGOMEM_PORT, f.len)],
                  state := RetransPayload)
  {
    hide RetransCall, MoverRead, SlotAddr, WireWords;
    FetchWords(d, r.req.slot, WindowIdx(r.cur), h, f);
    FetchLength(r, d, ip, f.len);
    var r1 := RetransCall(r, d, ip);
    FetchRest(r1, d, ip, f.len, Beats(WireWords(h, f)));
    var r2 := RetransCall(r1, d, ip);
    assert RetransCalls(r, d, ip, 2) == RetransCalls(r1, d, ip, 1) == RetransCalls(r2, d, ip, 0) == r2;
  }

  /** One stored packet goes out as it was written. */
  lemma RetransPacket(r: Resender, d: Dram, ip: map<Slot, nat>, h: Header, f: Frame)
    requires r.state == ReadLen && r.rdData == [] && r.slotBase == SlotAddr(r.req.slot, 0)
    requires r.req.slot in ip && Holds(d, r.req.slot, WindowIdx(r.cur), h, f)
    ensures RetransCalls(r, d, ip, |f.payload| + 3)
            == AfterPacket(r).(addr := SlotAddr(r.req.slot, WindowIdx(r.cur)), rdData := [],
                               header := r.header + [UdpInfo(0, ip[r.req.slot], LEGOMEM_PORT, LEGOMEM_PORT, f.len)],
                               payload := r.payload + Beats(WireWords(h, f)))
  {
    RetransFetch(r, d, ip, h, f);
    RetransCallsAdd(r, d, ip, 2, |f.payload| + 1);
    RetransPayloadRun(RetransCalls(r, d, ip, 2), d, ip, WireWords(h, f));
  }

  // ---- whole requests

  /** Headers, beats and number of calls for a sequence of stored packets. */
  function OutHeaders(ip: nat, ps: seq<(Header, Frame)>): seq<UdpInfo> {
    seq(|ps|, j requires 0 <= j < |ps| => UdpInfo(0, ip, LEGOMEM_PORT, LEGOMEM_PORT, ps[j].1.len))
  }

  function OutBeats(ps: seq<(Header, Frame)>): seq<Beat> {
    if ps == [] then [] else Beats(WireWords(ps[0].0, ps[0].1)) + OutBeats(ps[1..])
  }

  function OutCalls(ps: seq<(Header, Frame)>): nat {
    if ps == [] then 0 else |ps[0].1.payload| + 3 + OutCalls(ps[1..])
  }

  ghost predicate AllStored(d: Dram, s: Slot, first: nat, ps: seq<(Header, Frame)>) {
    forall j :: 0 <= j < |ps| && first + j < SEQ_MOD ==> Holds(d, s, WindowIdx(first + j), ps[j].0, ps[j].1)
  }

  lemma AllStoredTail(d: Dram, s: Slot, first: nat, ps: seq<(Header, Frame)>)
    requires ps != [] && AllStored(d, s, first, ps)
    ensures AllStored(d, s, first + 1, ps[1..])
  {
    forall j | 0 <= j < |ps[1..]| && first + 1 + j < SEQ_MOD
      ensures Holds(d, s, WindowIdx(first + 1 + j), ps[1..][j].0, ps[1..][j].1)
    {
      assert Holds(d, s, WindowIdx(first + (j + 1)), ps[j + 1].0, ps[j + 1].1);
    }
  }

  /** Between two packets of a request. */
  predicate Between(r: Resender, ip: map<Slot, nat>) {
    r.state == ReadLen && r.rdData == [] && r.slotBase == SlotAddr(r.req.slot, 0) && r.req.slot in ip
  }

  lemma OutSplit(ip: nat, ps: seq<(Header, Frame)>, hs: seq<UdpInfo>, bs: seq<Beat>)
    requires ps != []
    ensures hs + OutHeaders(ip, ps)
            == hs + [UdpInfo(0, ip, LEGOMEM_PORT, LEGOMEM_PORT, ps[0].1.len)] + OutHeaders(ip, ps[1..])
    ensures bs + OutBeats(ps) == bs + Beats(WireWords(ps[0].0, ps[0].1)) + OutBeats(ps[1..])
  {
    hide WireWords, Beats;
    var first := UdpInfo(0, ip, LEGOMEM_PORT, LEGOMEM_PORT, ps[0].1.len);
    assert OutHeaders(ip, ps) == [first] + OutHeaders(ip, ps[1..]);
    Join(hs, [first], OutHeaders(ip, ps[1..]));
    Join(bs, Beats(WireWords(ps[0].0, ps[0].1)), OutBeats(ps[1..]));
  }

  /** The first packet of what is left of a request. */
  lemma RetransNext(r: Resender, d: Dram, ip: map<Slot, nat>, ps: seq<(Header, Frame)>)
    requires Between(r, ip) && ps != [] && AllStored(d, r.req.slot, r.cur, ps)
    requires r.cur <= r.req.last < SEQ_MOD - 1
    ensures var r1 := RetransCalls(r, d, ip, |ps[0].1.payload| + 3);
            && r1.req == r.req && r1.reqs == r.reqs && r1.rdData == []
            && r1.header == r.header + [UdpInfo(0, ip[r.req.slot], LEGOMEM_PORT, LEGOMEM_PORT, ps[0].1.len)]
            && r1.payload == r.payload + Beats(WireWords(ps[0].0, ps[0].1))
            && (if r.cur < r.req.last then Between(r1, ip) && r1.cur == r.cur + 1 && r1.timer == r.timer
                else r1.state == RecvReq && r1.timer == r.timer + [Reset(r.req.slot)])
  {
    hide RetransCall, Holds, WireWords;
    assert Holds(d, r.req.slot, WindowIdx(r.cur + 0), ps[0].0, ps[0].1);
    RetransPacket(r, d, ip, ps[0].0, ps[0].1);
  }

  lemma {:induction false} RetransRest(r: Resender, d: Dram, ip: map<Slot, nat>, ps: seq<(Header, Frame)>)
    requires Between(r, ip) && AllStored(d, r.req.slot, r.cur, ps)
    requires ps != [] && r.cur + |ps| - 1 == r.req.last < SEQ_MOD - 1
    ensures var r' := RetransCalls(r, d, ip, OutCalls(ps));
            && r'.state == RecvReq && r'.reqs == r.reqs && r'.rdData == []
            && r'.header == r.header + OutHeaders(ip[r.req.slot], ps)
            && r'.payload == r.payload + OutBeats(ps)
            && r'.timer == r.timer + [Reset(r.req.slot)]
    decreases |ps|
  {
    hide RetransCall, AllStored, Holds, SlotAddr, WindowIdx, WireWords;
    var n := |ps[0].1.payload| + 3;
    RetransNext(r, d, ip, ps);
    RetransCallsAdd(r, d, ip, n, OutCalls(ps[1..]));
    OutSplit(ip[r.req.slot], ps, r.header, r.payload);
    if |ps| > 1 {
      AllStoredTail(d, r.req.slot, r.cur, ps);
      RetransRest(RetransCalls(r, d, ip, n), d, ip, ps[1..]);
    }
  }

  /** A request whose packets are all in the ring: the machine comes back to
      rest having sent each packet once, in order, as written, and then one
      timer reset. */
  lemma RetransRequest(r: Resender, d: Dram, ip: map<Slot, nat>, q: RetransReq, ps: seq<(Header, Frame)>)
    requires r.state == RecvReq && r.rdData == [] && r.reqs != [] && r.reqs[0] == q
    requires q.first <= q.last < SEQ_MOD - 1 && |ps| == q.last - q.first + 1
    requires q.slot in ip && AllStored(d, q.slot, q.first, ps)
    ensures var r' := RetransCalls(r, d, ip, OutCalls(ps) + 1);
            && r'.state == RecvReq && r'.reqs == r.reqs[1..]
            && r'.header == r.header + OutHeaders(ip[q.slot], ps)
            && r'.payload == r.payload + OutBeats(ps)
            && r'.timer == r.timer + [Reset(q.slot)]
  {
    RetransRest(RetransCall(r, d, ip), d, ip, ps);
  }

  /** An empty request is dropped without a trace. */
  lemma RetransEmpty(r: Resender, d: Dram, ip: map<Slot, nat>, q: RetransReq)
    requires r.state == RecvReq && r.reqs != [] && r.reqs[0] == q && q.last < q.first
    ensures var r' := RetransCall(r, d, ip);
            && r'.state == RecvReq && r'.reqs == r.reqs[1..]
            && r'.header == r.header && r'.payload == r.payload && r'.timer == r.timer
  {
  }

  /** The streams at the unit's ports and the data mover's read side. */
  datatype BufferStreams = BufferStreams(
    route: seq<RouteInfo>, txPayload: seq<Beat>, rdData: seq<Beat>, reqs: seq<RetransReq>,
    rtHeader: seq<UdpInfo>, rtPayload: seq<Beat>, timer: seq<TimerReq>)

  /** The unit in hardware form, with the data mover's registers. */
  class Buffer {
    var recvState: RecvState
    var buffPacket: Beat
    var destIp: map<Slot, nat>
    var wrAddr: nat
    var dram: Dram

    var retransState: RetransState
    var rtReq: RetransReq
    var rtSeq: SeqNum
    var slotBase: nat
    var startAddr: nat
    var io: BufferStreams

    ghost function WriterView(): Writer
      reads this
    {
      Writer(recvState, buffPacket, destIp, io.route, io.txPayload, wrAddr, dram)
    }

    ghost function ResenderView(): Resender
      reads this
    {
      Resender(retransState, rtReq, rtSeq, slotBase, startAddr, io.rdData, io.reqs, io.rtHeader, io.rtPayload, io.timer)
    }

    constructor ()
      ensures WriterView().state == RecvInfo && WriterView().route == [] && WriterView().payload == []
      ensures WriterView().dram == map[] && WriterView().destIp == map[]
      ensures ResenderView().state == RecvReq && ResenderView().reqs == [] && ResenderView().rdData == []
      ensures ResenderView().header == [] && ResenderView().payload == [] && ResenderView().timer == []
    {
      recvState, buffPacket, destIp := RecvInfo, Beat(0, false), map[];
      wrAddr, dram := 0, map[];
      retransState, rtReq, rtSeq, slotBase, startAddr := RecvReq, RetransReq(0, 0, 0), 0, 0, 0;
      io := BufferStreams([], [], [], [], [], [], []);
    }

    /** The write machine; the data mover stores each beat at the running address. */
    method HandleWrite()
      modifies this
      ensures WriterView() == WriteCall(old(WriterView())) && ResenderView() == old(ResenderView())
    {
      hide Unpack;
      match recvState {
        case RecvInfo =>
          if io.txPayload != [] && io.route != [] {
            buffPacket := io.txPayload[0];
            var r, h := io.route[0], Unpack(buffPacket.data);
            io := io.(txPayload := io.txPayload[1..], route := io.route[1..]);
            destIp := destIp[h.src := r.dstIp];
            wrAddr := SlotAddr(h.src, h.seqnum % WINDOW_SIZE);
            dram, wrAddr := dram[wrAddr := r.len % WORD_MOD], wrAddr + 8;
            recvState := WriteHeader;
          }
        case WriteHeader =>
          dram, wrAddr := dram[wrAddr := buffPacket.data], wrAddr + 8;
          recvState := RecvPayload;
        case RecvPayload =>
          if io.txPayload != [] {
            buffPacket := io.txPayload[0];
            io := io.(txPayload := io.txPayload[1..]);
            dram, wrAddr := dram[wrAddr := buffPacket.data], wrAddr + 8;
            if buffPacket.last {
              recvState := RecvInfo;
            }
          }
      }
    }

    method ReadPacket()
      requires io.rdData != []
      modifies this
      ensures ResenderView() == HeaderCall(old(ResenderView()), dram, destIp) && WriterView() == old(WriterView())
    {
      hide MoverRead;
      var len := io.rdData[0].data % 0x10000;
      var ip := if rtReq.slot in destIp then destIp[rtReq.slot] else 0;
      io := io.(rdData := io.rdData[1..] + MoverRead(dram, startAddr + 8, if len < 8 then 0 else len - 8),
                rtHeader := io.rtHeader + [UdpInfo(0, ip, LEGOMEM_PORT, LEGOMEM_PORT, len)]);
      retransState := RetransPayload;
    }

    /** The retransmit machine. */
    method HandleRetrans()
      modifies this
      ensures ResenderView() == RetransCall(old(ResenderView()), dram, destIp) && WriterView() == old(WriterView())
    {
      hide MoverRead, HeaderCall;
      match retransState {
        case RecvReq =>
          if io.reqs != [] {
            rtReq := io.reqs[0];
            io := io.(reqs := io.reqs[1..]);
            if rtReq.first <= rtReq.last {
              rtSeq := rtReq.first;
              slotBase := SlotAddr(rtReq.slot, 0);
              retransState := ReadLen;
            }
          }
        case ReadLen =>
          var ready := io.rdData != [];
          startAddr := slotBase + rtSeq % WINDOW_SIZE * MAX_PACKET_SIZE;
          io := io.(rdData := io.rdData + MoverRead(dram, startAddr, 8));
          retransState := RetransHeader;
          if ready {
            ReadPacket();
          }
        case RetransHeader =>
          if io.rdData != [] {
            ReadPacket();
          }
        case RetransPayload =>
          if io.rdData != [] {
            var b := io.rdData[0];
            io := io.(rdData := io.rdData[1..], rtPayload := io.rtPayload + [b]);
            if b.last {
              rtSeq := Inc(rtSeq);
              if rtSeq > rtReq.last {
                io := io.(timer := io.timer + [Reset(rtReq.slot)]);
                retransState := RecvReq;
              } else {
                retransState := ReadLen;
              }
            }
          }
      }
    }

    /** One call: both machines move, the write machine first. */
    method Call()
      modifies this
      ensures WriterView() == WriteCall(old(WriterView()))
      ensures ResenderView() == RetransCall(old(ResenderView()), dram, destIp)
    {
      HandleWrite();
      HandleRetrans();
    }
  }
}
