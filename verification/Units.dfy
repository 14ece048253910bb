/** A whole node out of its units. Each action of the packet level is carried out by
    calls of the state table, the transmit and receive units and the buffer, which
    hand each other the contents of the streams between them. */
module Units {
  import opened Options
  import opened GbnTypes
  import opened StateTable
  import opened RingStore
  import opened StreamUnits
  import opened UnackedBuffer
  import T = Transport

  // ---- what the units hold of a node

  /** The header of the packet the user hands over. */
  predicate UserHeader(i: UdpInfo, u: T.User) {
    i.srcPort == u.srcPort && i.dstPort == u.dstPort && i.dstIp == u.dstIp && i.len + 16 == u.frame.len
  }

  /** The transmit unit waits for the number of u. */
  ghost predicate Waiting(v: TxUnit, u: T.User) {
    && v.state == TxGbnHeader && v.hdr == T.DataHeader(u, v.hdr.seqnum)
    && v.info == UdpInfo(v.info.srcIp, u.dstIp, LEGOMEM_PORT, LEGOMEM_PORT, u.frame.len)
    && Beats(u.frame.payload) <= v.usrPayload
  }

  ghost predicate TxHolds(v: TxUnit, nd: T.Nod) {
    && v.checkReq == nd.checkReq && v.finish == nd.finish && v.checkRsp == [] && v.bufPayload == [] && v.bufRoute == []
    && (nd.txPkt.None? ==> v.state == TxUdpHeader)
    && (nd.txPkt.Some? ==> Waiting(v, nd.txPkt.value))
  }

  /** The receive unit waits for the verdict on p. */
  ghost predicate Asked(v: RxUnit, p: Packet) {
    && v.state == RxWaitRsp && !v.pkt.last && p.frame.payload != [] && Beats(p.frame.payload) <= v.rxPayload
    && v.info == UserInfo(UdpInfo(p.srcIp, p.dstIp, LEGOMEM_PORT, LEGOMEM_PORT, p.frame.len), p.hdr)
  }

  ghost predicate RxHolds(v: RxUnit, nd: T.Nod) {
    && v.queryReq == nd.queryReq && v.queryRsp == nd.queryRsp
    && (nd.rxPkt.None? ==> v.state == RxUdpHeader)
    && (nd.rxPkt.Some? ==> Asked(v, nd.rxPkt.value))
  }

  /** Nothing is being written. */
  ghost predicate WriterHolds(w: Writer, nd: T.Nod) {
    w.state == RecvInfo && w.route == [] && w.payload == [] && w.dram == nd.dram && w.destIp == nd.destIp
  }

  ghost predicate ResenderHolds(r: Resender, nd: T.Nod) {
    && r.reqs == nd.retransReq && r.rdData == []
    && (nd.retrans.None? ==> r.state == RecvReq)
    && (nd.retrans.Some? ==>
          var q := nd.retrans.value;
          r.state == ReadLen && r.cur == q.first && r.req.slot == q.slot && r.req.last == q.last
            && r.slotBase == SlotAddr(q.slot, 0))
  }

  /** The beats a packet is on the wire. */
  function WireBeats(p: Packet): seq<Beat> { [Beat(Pack(p.hdr), false)] + Beats(p.frame.payload) }

  // ---- unit by unit

  lemma Prefix(ws: seq<Word>, bs: seq<Beat>)
    requires Beats(ws) <= bs
    ensures bs == Beats(ws) + bs[|ws|..]
  {
  }

  /** A granted number sends the waiting packet. */
  lemma TxSends(v: TxUnit, u: T.User, n: SeqNum)
    requires Waiting(v, u) && v.checkRsp == [n] && v.bufPayload == [] && v.bufRoute == []
    ensures var v', h := TxCalls(v, |u.frame.payload| + 1), T.DataHeader(u, n);
            && v'.state == TxUdpHeader && v'.checkRsp == [] && v'.checkReq == v.checkReq
              && v'.finish == v.finish + [true]
            && v'.txHeader == v.txHeader + [v.info] && v'.txPayload == v.txPayload + ([Beat(Pack(h), false)]
              + Beats(u.frame.payload))
            && v'.bufPayload == [Beat(Pack(h), false)] + Beats(u.frame.payload)
            && v'.bufRoute == [RouteInfo(u.dstIp, u.frame.len)]
            && v'.usrHeader == v.usrHeader
  {
    hide Pack, TxCalls, Beats;
    Prefix(u.frame.payload, v.usrPayload);
    assert [n] + [] == [n];
    TxGranted(v, u.frame.payload, n, v.usrPayload[|u.frame.payload|..], []);
  }

  /** The buffer writes the packet the transmit unit handed it. */
  lemma BufferWrites(w: Writer, h: Header, ip: nat, f: Frame)
    requires w.state == RecvInfo && FrameOk(f) && w.route == [RouteInfo(ip, f.len)]
    requires w.payload == [Beat(Pack(h), false)] + Beats(f.payload)
    ensures var w' := WriteCalls(w, |f.payload| + 2);
            && w'.state == RecvInfo && w'.route == [] && w'.payload == []
            && w'.dram == Store(w.dram, h.src, WindowIdx(h.seqnum), h, f) && w'.destIp == w.destIp[h.src := ip]
  {
    hide Pack, WriteCalls, Beats, Store;
    assert w.route == [RouteInfo(ip, f.len)] + [];
    assert Beats(f.payload) + [] == Beats(f.payload);
    WritePacket(w, h, ip, f, [], []);
  }

  /** A unit with nothing to write stays as it is. */
  lemma {:induction false} WriterIdle(w: Writer, n: nat)
    requires w.state == RecvInfo && w.payload == []
    ensures WriteCalls(w, n) == w
    decreases n
  {
    if n > 0 {
      WriterIdle(w, n - 1);
    }
  }

  lemma {:induction false} TxLast(v: TxUnit, n: nat)
    ensures TxCalls(v, n + 1) == TxCall(TxCalls(v, n))
    decreases n
  {
    hide TxCall;
    TxCallsAdd(v, n, 1);
    assert TxCalls(TxCalls(v, n), 1) == TxCalls(TxCall(TxCalls(v, n)), 0);
  }

  lemma {:induction false} RxLast(v: RxUnit, n: nat)
    ensures RxCalls(v, n + 1) == RxCall(RxCalls(v, n))
    decreases n
  {
    hide RxCall;
    RxCallsAdd(v, n, 1);
    assert RxCalls(RxCalls(v, n), 1) == RxCalls(RxCall(RxCalls(v, n)), 0);
  }

  lemma {:induction false} WriteLast(w: Writer, n: nat)
    ensures WriteCalls(w, n + 1) == WriteCall(WriteCalls(w, n))
    decreases n
  {
    hide WriteCall;
    WriteCallsAdd(w, n, 1);
    assert WriteCalls(WriteCalls(w, n), 1) == WriteCalls(WriteCall(WriteCalls(w, n)), 0);
  }

  lemma {:induction false} RetransLast(r: Resender, d: Dram, ip: map<Slot, nat>, n: nat)
    ensures RetransCalls(r, d, ip, n + 1) == RetransCall(RetransCalls(r, d, ip, n), d, ip)
    decreases n
  {
    hide RetransCall;
    RetransCallsAdd(r, d, ip, n, 1);
    assert RetransCalls(RetransCalls(r, d, ip, n), d, ip, 1)
      == RetransCalls(RetransCall(RetransCalls(r, d, ip, n), d, ip), d, ip, 0);
  }

  // ---- many calls

  predicate Idle(r: Resender) { r.state == RecvReq && r.reqs == [] }

  method RunTx(tx: Tx64, n: nat)
    modifies tx
    ensures tx.View() == TxCalls(old(tx.View()), n)
  {
    hide TxCall;
    ghost var v := tx.View();
    for i := 0 to n
      invariant tx.View() == TxCalls(v, i)
    {
      TxLast(v, i);
      tx.Call();
    }
  }

  method RunRx(rx: Rx64, n: nat)
    modifies rx
    ensures rx.View() == RxCalls(old(rx.View()), n)
  {
    hide RxCall;
    ghost var v := rx.View();
    for i := 0 to n
      invariant rx.View() == RxCalls(v, i)
    {
      RxLast(v, i);
      rx.Call();
    }
  }

  /** Calls of the buffer. What is written does not depend on the retransmit machine,
      which stays idle if there is no request. */
  method RunWriter(buf: Buffer, n: nat)
    modifies buf
    ensures buf.WriterView() == WriteCalls(old(buf.WriterView()), n)
    ensures old(Idle(buf.ResenderView())) ==> buf.ResenderView() == old(buf.ResenderView())
  {
    hide WriteCall;
    ghost var w, idle := buf.WriterView(), Idle(buf.ResenderView());
    for i := 0 to n
      invariant buf.WriterView() == WriteCalls(w, i) && (idle ==> buf.ResenderView() == old(buf.ResenderView()))
    {
      WriteLast(w, i);
      buf.Call();
    }
  }

  /** The write machine's part of the buffer's calls: it writes the same, and the
      retransmit machine is left where it is. */
  method RunWriteMachine(buf: Buffer, n: nat)
    modifies buf
    ensures buf.WriterView() == WriteCalls(old(buf.WriterView()), n) && buf.ResenderView() == old(buf.ResenderView())
  {
    hide WriteCall;
    ghost var w := buf.WriterView();
    for i := 0 to n
      invariant buf.WriterView() == WriteCalls(w, i) && buf.ResenderView() == old(buf.ResenderView())
    {
      WriteLast(w, i);
      buf.HandleWrite();
    }
  }

  /** Calls of the buffer while nothing is there to write. */
  method RunResender(buf: Buffer, n: nat)
    requires buf.WriterView().state == RecvInfo && buf.WriterView().payload == []
    modifies buf
    ensures buf.WriterView() == old(buf.WriterView())
    ensures buf.ResenderView() == RetransCalls(old(buf.ResenderView()), buf.dram, buf.destIp, n)
  {
    hide RetransCall;
    ghost var r, d, ip := buf.ResenderView(), buf.dram, buf.destIp;
    for i := 0 to n
      invariant buf.WriterView() == old(buf.WriterView()) && buf.ResenderView() == RetransCalls(r, d, ip, i)
    {
      RetransLast(r, d, ip, i);
      buf.Call();
    }
  }

  // ---- the packet level, action by action

  /** Taking a packet over from the user. */
  lemma TxTakes(v: TxUnit, nd: T.Nod, u: T.User)
    requires TxHolds(v, nd) && nd.txPkt.None? && u.srcPort > 0 && u.dstPort > 0
    requires v.usrHeader != [] && UserHeader(v.usrHeader[0], u) && Beats(u.frame.payload) <= v.usrPayload
    ensures TxHolds(TxCall(v), nd.(txPkt := Some(u), checkReq := nd.checkReq + [u.SrcSlot()]))
  {
    hide Pack, Beats;
  }

  lemma TxPasses(v: TxUnit, nd: T.Nod, u: T.User)
    requires TxHolds(v, nd) && nd.txPkt.None? && !(u.srcPort > 0 && u.dstPort > 0)
    requires v.usrHeader != [] && UserHeader(v.usrHeader[0], u) && Beats(u.frame.payload) <= v.usrPayload
    ensures var v' := TxCalls(v, |u.frame.payload| + 1);
            && TxHolds(v', nd)
            && v'.txPayload == v.txPayload + ([Beat(Pack(T.DataHeader(u, 0)), false)] + Beats(u.frame.payload))
  {
    hide Pack, Beats, TxCalls;
    Prefix(u.frame.payload, v.usrPayload);
    assert v.usrHeader == [v.usrHeader[0]] + v.usrHeader[1..];
    TxPassed(v, v.usrHeader[0], u.frame.payload, v.usrHeader[1..], v.usrPayload[|u.frame.payload|..]);
  }

  /** All a session-0 packet changes. */
  lemma TxPassed(v: TxUnit, i: UdpInfo, ws: seq<Word>, headers: seq<UdpInfo>, rest: seq<Beat>)
    requires v.state == TxUdpHeader && ws != [] && !(i.srcPort > 0 && i.dstPort > 0)
    requires v.usrHeader == [i] + headers && v.usrPayload == Beats(ws) + rest
    ensures var v' := TxCalls(v, |ws| + 1);
            && v'.state == TxUdpHeader && v'.checkReq == v.checkReq && v'.checkRsp == v.checkRsp
              && v'.finish == v.finish
            && v'.bufPayload == v.bufPayload && v'.bufRoute == v.bufRoute
            && v'.txPayload == v.txPayload + ([Beat(Pack(SlotHeader(i, 0)), false)] + Beats(ws))
  {
    TxManagementPacket(v, i, ws, headers, rest);
  }

  lemma SetupHolds(v: TxUnit, x: RxUnit, nd: T.Nod, timeout: Option<Slot>, conn: Option<ConnReq>)
    requires TxHolds(v, nd) && RxHolds(x, nd)
    ensures TxHolds(v, T.NodeSetup(nd, timeout, conn)) && RxHolds(x, T.NodeSetup(nd, timeout, conn))
  {
    hide Beats, Waiting, Asked, InitStep, TimeoutReq;
  }

  /** What a node hands to the table's transmit stage, and what is left. */
  function CheckOf(nd: T.Nod): Option<Slot> {
    if nd.table.tx.state.RecvTxReq? then T.Head(nd.checkReq) else None
  }

  predicate DoneOf(nd: T.Nod) { nd.table.tx.state.UpdTxInfo? && nd.finish != [] }

  function AfterCheck(v: TxUnit, nd: T.Nod): TxUnit
    requires v.checkReq == nd.checkReq && v.finish == nd.finish
  {
    v.(checkReq := if CheckOf(nd).None? then v.checkReq else v.checkReq[1..],
       finish := if DoneOf(nd) then v.finish[1..] else v.finish)
  }

  /** Without a grant the transmit stage moves only queues. */
  lemma TxUngranted(ip: nat, v: TxUnit, nd: T.Nod)
    requires TxHolds(v, nd) && TxStep(nd.table, CheckOf(nd), DoneOf(nd)).1.grant.None?
    ensures var (nd', ps) := T.NodeTx(ip, nd);
            && ps == {} && nd'.table == TxStep(nd.table, CheckOf(nd), DoneOf(nd)).0 && TxHolds(AfterCheck(v, nd), nd')
            && nd'.timerReq == nd.timerReq + T.OptSeq(TxStep(nd.table, CheckOf(nd), DoneOf(nd)).1.timer)
            && nd' == nd.(table := nd'.table, checkReq := nd'.checkReq, finish := nd'.finish, timerReq := nd'.timerReq)
  {
    hide TxStep, Beats;
  }

  /** The node with the waiting packet sent under number n. */
  function Sent(nd: T.Nod, n: SeqNum): T.Nod
    requires nd.txPkt.Some?
  {
    var u, h := nd.txPkt.value, T.DataHeader(nd.txPkt.value, n);
    nd.(txPkt := None, finish := nd.finish + [true], dram := Store(nd.dram, h.src, WindowIdx(n), h, u.frame),
        destIp := nd.destIp[h.src := u.dstIp])
  }

  /** With a grant the packet is stamped, sent and stored in one step. */
  lemma TxGrants(ip: nat, nd: T.Nod)
    requires nd.txPkt.Some? && TxStep(nd.table, CheckOf(nd), DoneOf(nd)).1.grant.Some?
    ensures var u, n := nd.txPkt.value, TxStep(nd.table, CheckOf(nd), DoneOf(nd)).1.grant.value;
            var (nd', ps) := T.NodeTx(ip, nd);
            && ps == {Packet(ip, u.dstIp, T.DataHeader(u, n), u.frame)}
            && nd'.timerReq == nd.timerReq + T.OptSeq(TxStep(nd.table, CheckOf(nd), DoneOf(nd)).1.timer)
            && nd' == Sent(nd, n).(table := TxStep(nd.table, CheckOf(nd), DoneOf(nd)).0, hist := nd'.hist,
                                   timerReq := nd'.timerReq)
  {
    hide Store, Beats;
  }

  /** What the units hold of a node does not depend on its table and history. */
  lemma HoldsAlike(v: TxUnit, x: RxUnit, w: Writer, r: Resender, nd: T.Nod, nd': T.Nod)
    requires TxHolds(v, nd) && RxHolds(x, nd) && WriterHolds(w, nd) && ResenderHolds(r, nd)
    requires nd' == nd.(table := nd'.table, hist := nd'.hist, timerReq := nd'.timerReq)
    ensures TxHolds(v, nd') && RxHolds(x, nd') && WriterHolds(w, nd') && ResenderHolds(r, nd')
  {
    hide Beats, Waiting, Asked;
  }

  lemma HoldsQueues(x: RxUnit, w: Writer, r: Resender, nd: T.Nod, nd': T.Nod)
    requires RxHolds(x, nd) && WriterHolds(w, nd) && ResenderHolds(r, nd)
    requires nd' == nd.(table := nd'.table, checkReq := nd'.checkReq, finish := nd'.finish, timerReq := nd'.timerReq)
    ensures RxHolds(x, nd') && WriterHolds(w, nd') && ResenderHolds(r, nd')
  {
    hide Beats, Asked;
  }

  /** Without a waiting packet more or less the other units are the same. */
  lemma HoldsSent(x: RxUnit, r: Resender, nd: T.Nod, n: SeqNum)
    requires RxHolds(x, nd) && ResenderHolds(r, nd) && nd.txPkt.Some?
    ensures RxHolds(x, Sent(nd, n)) && ResenderHolds(r, Sent(nd, n))
  {
    hide Beats, Asked, Store;
  }

  /** Receiving a packet: its header is read and the table is asked. */
  lemma RxTakes(v: RxUnit, nd: T.Nod, p: Packet, i: UdpInfo, rest: seq<Beat>)
    requires RxHolds(v, nd) && nd.rxPkt.None? && p.frame.payload != []
    requires i == UdpInfo(p.srcIp, p.dstIp, LEGOMEM_PORT, LEGOMEM_PORT, p.frame.len)
    requires v.rxHeader != [] && v.rxHeader[0] == i && v.rxPayload == [Beat(Pack(p.hdr), false)]
      + (Beats(p.frame.payload) + rest)
    ensures RxHolds(RxCall(v), nd.(rxPkt := Some(p), queryReq := nd.queryReq + [T.QueryOf(p)]))
  {
    hide Pack, Beats, RxCall;
    assert v.rxHeader == [i] + v.rxHeader[1..];
    RxTaken(v, i, p.hdr, Beats(p.frame.payload) + rest, v.rxHeader[1..]);
  }

  /** The verdict: the packet is passed on whole or dropped whole. */
  lemma RxVerdict(v: RxUnit, nd: T.Nod)
    requires RxHolds(v, nd) && nd.rxPkt.Some? && nd.queryRsp != []
    ensures var v', p := RxCalls(v, |nd.rxPkt.value.frame.payload| + 1), nd.rxPkt.value;
            && RxHolds(v', T.NodeVerdict(nd))
            && v'.usrPayload == v.usrPayload + (if nd.queryRsp[0] then Beats(p.frame.payload) else [])
            && v'.usrHeader == v.usrHeader + (if nd.queryRsp[0] then [v.info] else [])
  {
    hide Beats, RxCall, RxCalls, UserInfo;
    var ws := nd.rxPkt.value.frame.payload;
    Prefix(ws, v.rxPayload);
    assert nd.queryRsp == [nd.queryRsp[0]] + nd.queryRsp[1..];
    RxJudged(v, ws, nd.queryRsp[0], v.rxPayload[|ws|..], nd.queryRsp[1..]);
  }

  /** The receive stage of the table, seen from the streams. */
  function QueryTaken(nd: T.Nod): Option<Query> {
    if nd.table.rx.state.RecvRxReq? then T.Head(nd.queryReq) else None
  }

  lemma RxStage(ip: nat, v: RxUnit, r: Resender, nd: T.Nod)
    requires RxHolds(v, nd) && ResenderHolds(r, nd)
    ensures var (t, out) := RxStep(nd.table, QueryTaken(nd)); var (nd', ps) := T.NodeRx(ip, nd);
            && nd'.table == t
            && RxHolds(v.(queryReq := if QueryTaken(nd).None? then v.queryReq else v.queryReq[1..],
                          queryRsp := v.queryRsp + T.OptSeq(out.verdict)), nd')
            && ResenderHolds(r.(reqs := r.reqs + T.OptSeq(out.retrans)), nd')
            && nd'.dram == nd.dram && nd'.destIp == nd.destIp && nd'.timerReq == nd.timerReq + T.OptSeq(out.timer)
            && nd'.txPkt == nd.txPkt && nd'.checkReq == nd.checkReq && nd'.finish == nd.finish
            && ps == if out.response.None? then {} else
                 {Packet(ip, out.response.value.dstIp, out.response.value.hdr, T.RESPONSE_FRAME)}
  {
    hide RxStep, Beats, UserInfo;
  }

  /** What the receive stage leaves alone. */
  lemma RxLeaves(v: TxUnit, w: Writer, nd: T.Nod, nd': T.Nod)
    requires TxHolds(v, nd) && WriterHolds(w, nd) && nd'.dram == nd.dram && nd'.destIp == nd.destIp
    requires nd'.txPkt == nd.txPkt && nd'.checkReq == nd.checkReq && nd'.finish == nd.finish
    ensures TxHolds(v, nd') && WriterHolds(w, nd')
  {
    hide Beats, Waiting;
  }

  /** The next request is taken, or dropped if it is empty. */
  lemma ResendTakes(ip: nat, r: Resender, nd: T.Nod)
    requires ResenderHolds(r, nd) && nd.retrans.None?
    ensures ResenderHolds(RetransCalls(r, nd.dram, nd.destIp, 1), T.NodeRetrans(ip, nd).0)
    ensures RetransCalls(r, nd.dram, nd.destIp, 1).payload == r.payload && T.NodeRetrans(ip, nd).1 == {}
  {
    hide MoverRead;
    var r1 := RetransCall(r, nd.dram, nd.destIp);
    assert RetransCalls(r, nd.dram, nd.destIp, 1) == RetransCalls(r1, nd.dram, nd.destIp, 0);
  }

  /** One stored packet goes out again. */
  lemma ResendSends(ip: nat, r: Resender, nd: T.Nod, h: Header, f: Frame)
    requires ResenderHolds(r, nd) && nd.retrans.Some? && nd.retrans.value.slot in nd.destIp
    requires Holds(nd.dram, nd.retrans.value.slot, WindowIdx(nd.retrans.value.first), h, f)
    ensures var r', p := RetransCalls(r, nd.dram, nd.destIp, |f.payload| + 3),
      Packet(ip, nd.destIp[nd.retrans.value.slot], h, f);
            && ResenderHolds(r', T.NodeRetrans(ip, nd).0) && T.NodeRetrans(ip, nd).1 == {p}
            && r'.payload == r.payload + Beats(WireWords(h, f))
            && r'.header == r.header + [UdpInfo(0, p.dstIp, LEGOMEM_PORT, LEGOMEM_PORT, f.len)]
  {
    hide Holds, Load, RetransCalls, Beats, WireWords, SlotAddr;
    HoldsLoad(nd.dram, nd.retrans.value.slot, WindowIdx(nd.retrans.value.first), h, f);
    RetransPacket(r, nd.dram, nd.destIp, h, f);
  }

  // ---- the node

  class NodeUnits {
    const tab: StateTable64
    const tx: Tx64
    const rx: Rx64
    const buf: Buffer
    /** What the table has written to the timer. */
    var timer: seq<TimerReq>

    constructor ()
      ensures fresh(tab) && fresh(tx) && fresh(rx) && fresh(buf) && tab.Valid() && Models(T.PoweredUp(tab.View()))
      ensures forall i: Slot :: tab.View().entries[i] == Entry(false, 0, 0, 0, 0)
    {
      tab := new StateTable64();
      tx := new Tx64();
      rx := new Rx64();
      buf := new Buffer();
      timer := [];
    }

    /** The units are in the state nd of the packet level. */
    ghost predicate Models(nd: T.Nod)
      reads this, tab, tab.ackEnable, tab.expected, tab.lastAckd, tab.lastSent, tab.countdown, tx, rx, buf
    {
      && tab.Valid() && tab.View() == nd.table && TxHolds(tx.View(), nd) && RxHolds(rx.View(), nd)
      && WriterHolds(buf.WriterView(), nd) && ResenderHolds(buf.ResenderView(), nd) && timer == nd.timerReq
    }

    method Submit(ghost nd: T.Nod, ghost u: T.User)
      requires Models(nd) && nd.txPkt.None? && u.srcPort > 0 && u.dstPort > 0
      requires tx.io.usrHeader != [] && UserHeader(tx.io.usrHeader[0], u) && Beats(u.frame.payload) <= tx.io.usrPayload
      modifies tx
      ensures Models(nd.(txPkt := Some(u), checkReq := nd.checkReq + [u.SrcSlot()]))
    {
      hide TxCall, TxHolds, Beats, UserHeader;
      TxTakes(tx.View(), nd, u);
      tx.Call();
    }

    /** A packet of session 0 is sent at once; words + 1 calls. */
    method SubmitManagement(words: nat, ghost nd: T.Nod, ghost u: T.User)
      requires Models(nd) && nd.txPkt.None? && !(u.srcPort > 0 && u.dstPort > 0) && words == |u.frame.payload|
      requires tx.io.usrHeader != [] && UserHeader(tx.io.usrHeader[0], u) && Beats(u.frame.payload) <= tx.io.usrPayload
      modifies tx
      ensures Models(nd)
      ensures tx.View().txPayload == old(tx.View().txPayload)
                + ([Beat(Pack(T.DataHeader(u, 0)), false)] + Beats(u.frame.payload))
    {
      hide TxCalls, Beats, UserHeader, TxHolds, Pack;
      TxPasses(tx.View(), nd, u);
      RunTx(tx, words + 1);
    }

    /** The timeout and set-up stages of a table call. */
    method Setup(timeout: Option<Slot>, conn: Option<ConnReq>, ghost nd: T.Nod)
      requires Models(nd)
      modifies tab.ackEnable, tab.expected, tab.lastAckd, tab.lastSent, tab.countdown, buf
      ensures Models(T.NodeSetup(nd, timeout, conn))
    {
      hide InitStep, TimeoutReq, TxHolds, RxHolds;
      SetupHolds(tx.View(), rx.View(), nd, timeout, conn);
      if timeout.Some? {
        var req := tab.HandleTimeout(timeout.value);
        buf.io := buf.io.(reqs := buf.io.reqs + [req]);
      }
      if conn.Some? {
        tab.HandleInit(conn.value);
      }
    }

    /** The transmit stage of a table call. On a grant the transmit unit is called for
        each of the words of the waiting packet, and then the buffer's write machine. */
    method Transmit(words: nat, ghost ip: nat, ghost nd: T.Nod)
      requires Models(nd)
      requires nd.table.tx.state == ReplTxReq ==> nd.txPkt.Some? && words == |nd.txPkt.value.frame.payload|
      modifies this, tab, tab.lastSent, tx, buf
      ensures Models(T.NodeTx(ip, nd).0)
      ensures T.NodeTx(ip, nd).1 == {} ==> tx.View().txPayload == old(tx.View().txPayload)
      ensures forall p :: p in T.NodeTx(ip, nd).1 ==> tx.View().txPayload == old(tx.View().txPayload) + WireBeats(p)
    {
      hide TxStep, Beats, Pack, Store, T.NodeTx, T.DataHeader, Sent, RxHolds, WriterHolds, ResenderHolds, Waiting;
      var check := if tab.tx.state.RecvTxReq? && tx.io.checkReq != [] then Some(tx.io.checkReq[0]) else None;
      var done := tab.tx.state.UpdTxInfo? && tx.io.finish != [];
      assert check == CheckOf(nd) && done == DoneOf(nd);
      if check.Some? {
        tx.io := tx.io.(checkReq := tx.io.checkReq[1..]);
      }
      if done {
        tx.io := tx.io.(finish := tx.io.finish[1..]);
      }
      var out := tab.HandleTx(check, done);
      timer := timer + T.OptSeq(out.timer);
      if out.grant.None? {
        TxUngranted(ip, old(tx.View()), nd);
        HoldsQueues(rx.View(), buf.WriterView(), buf.ResenderView(), nd, T.NodeTx(ip, nd).0);
        return;
      }
      GrantWaits(nd);
      TxGrants(ip, nd);
      HoldsSent(rx.View(), buf.ResenderView(), nd, out.grant.value);
      Send(out.grant.value, words, nd);
      HoldsAlike(tx.View(), rx.View(), buf.WriterView(), buf.ResenderView(), Sent(nd, out.grant.value),
        T.NodeTx(ip, nd).0);
    }

    /** The transmit unit sends the waiting packet and the buffer stores it. */
    method Send(n: SeqNum, words: nat, ghost nd: T.Nod)
      requires TxHolds(tx.View(), nd) && nd.txPkt.Some? && words == |nd.txPkt.value.frame.payload|
      requires WriterHolds(buf.WriterView(), nd)
      modifies tx, buf
      ensures TxHolds(tx.View(), Sent(nd, n)) && WriterHolds(buf.WriterView(), Sent(nd, n))
      ensures buf.ResenderView() == old(buf.ResenderView())
      ensures tx.View().txPayload == old(tx.View().txPayload)
                + ([Beat(Pack(T.DataHeader(nd.txPkt.value, n)), false)] + Beats(nd.txPkt.value.frame.payload))
    {
      hide TxCall, TxCalls, WriteCalls, Beats, Pack, Store, T.DataHeader;
      tx.io := tx.io.(checkRsp := tx.io.checkRsp + [n]);
      TxSends(tx.View(), nd.txPkt.value, n);
      RunTx(tx, words + 1);
      HandOver(n, nd);
      RunWriteMachine(buf, words + 2);
    }

    /** The streams between the transmit unit and the buffer. */
    method HandOver(ghost n: SeqNum, ghost nd: T.Nod)
      requires WriterHolds(buf.WriterView(), nd) && nd.txPkt.Some?
      requires tx.View().bufPayload == [Beat(Pack(T.DataHeader(nd.txPkt.value, n)), false)]
        + Beats(nd.txPkt.value.frame.payload)
      requires tx.View().bufRoute == [RouteInfo(nd.txPkt.value.dstIp, nd.txPkt.value.frame.len)]
      modifies tx, buf
      ensures tx.View() == old(tx.View()).(bufPayload := [], bufRoute := [])
      ensures buf.ResenderView() == old(buf.ResenderView())
      ensures var w', u, h := WriteCalls(buf.WriterView(), |nd.txPkt.value.frame.payload| + 2), nd.txPkt.value,
        T.DataHeader(nd.txPkt.value, n);
              && w'.state == RecvInfo && w'.route == [] && w'.payload == []
              && w'.dram == Store(nd.dram, h.src, WindowIdx(n), h, u.frame) && w'.destIp == nd.destIp[h.src := u.dstIp]
    {
      hide WriteCalls, Beats, Pack, Store;
      buf.io := buf.io.(route := buf.io.route + tx.io.bufRoute, txPayload := buf.io.txPayload + tx.io.bufPayload);
      tx.io := tx.io.(bufRoute := [], bufPayload := []);
      BufferWrites(buf.WriterView(), T.DataHeader(nd.txPkt.value, n), nd.txPkt.value.dstIp, nd.txPkt.value.frame);
    }

    method Receive(ghost nd: T.Nod, ghost p: Packet, ghost rest: seq<Beat>)
      requires Models(nd) && nd.rxPkt.None? && p.frame.payload != [] && rx.io.rxHeader != []
      requires rx.io.rxHeader[0] == UdpInfo(p.srcIp, p.dstIp, LEGOMEM_PORT, LEGOMEM_PORT, p.frame.len)
      requires rx.io.rxPayload == [Beat(Pack(p.hdr), false)] + (Beats(p.frame.payload) + rest)
      modifies rx
      ensures Models(nd.(rxPkt := Some(p), queryReq := nd.queryReq + [T.QueryOf(p)]))
    {
      hide RxCall, RxHolds, Beats, Pack;
      RxTakes(rx.View(), nd, p, rx.io.rxHeader[0], rest);
      rx.Call();
    }

    /** The receive stage of a table call. */
    method TableReceive(ghost ip: nat, ghost nd: T.Nod) returns (response: Option<Response>)
      requires Models(nd)
      modifies this, tab, tab.ackEnable, tab.expected, tab.countdown, tab.lastAckd, rx, buf
      ensures Models(T.NodeRx(ip, nd).0)
      ensures T.NodeRx(ip, nd).1 == Responded(ip, response)
    {
      hide RxStep, RxHolds, ResenderHolds, TxHolds, WriterHolds, T.NodeRx;
      RxStage(ip, rx.View(), buf.ResenderView(), nd);
      RxLeaves(tx.View(), buf.WriterView(), nd, T.NodeRx(ip, nd).0);
      var query := if tab.rx.state.RecvRxReq? && rx.io.queryReq != [] then Some(rx.io.queryReq[0]) else None;
      SameQueries(rx.View(), nd);
      assert query == QueryTaken(nd);
      if query.Some? {
        rx.io := rx.io.(queryReq := rx.io.queryReq[1..]);
      }
      var out := tab.HandleRx(query);
      timer := timer + T.OptSeq(out.timer);
      rx.io := rx.io.(queryRsp := rx.io.queryRsp + T.OptSeq(out.verdict));
      buf.io := buf.io.(reqs := buf.io.reqs + T.OptSeq(out.retrans));
      response := out.response;
    }

    /** A call of the state table with all its stages is the table action of node n: the
        node it leaves, and the response and the packet it sends. */
    method TableCall(words: nat, timeout: Option<Slot>, conn: Option<ConnReq>, ghost s: T.System, ghost n: nat)
      returns (response: Option<Response>)
      requires n in s.nodes && Models(s.nodes[n])
      requires s.nodes[n].table.tx.state == ReplTxReq ==>
                 s.nodes[n].txPkt.Some? && words == |s.nodes[n].txPkt.value.frame.payload|
      modifies this, tab, tab.ackEnable, tab.expected, tab.countdown, tab.lastAckd, tab.lastSent, tx, rx, buf
      ensures Models(T.TablePart(s, n, timeout, conn).nodes[n])
      ensures T.TablePart(s, n, timeout, conn).net == s.net + Responded(n, response) + Sends(n, s.nodes[n])
      ensures Sends(n, s.nodes[n]) == {} ==> tx.View().txPayload == old(tx.View().txPayload)
      ensures forall p :: p in Sends(n, s.nodes[n]) ==>
                tx.View().txPayload == old(tx.View().txPayload) + WireBeats(p)
    {
      hide T.NodeRx, T.NodeTx, T.NodeSetup, WireBeats;
      ghost var nd := s.nodes[n];
      ghost var nd1 := T.NodeRx(n, nd).0;
      ReceiveKeepsTx(n, nd);
      response := TableReceive(n, nd);
      Transmit(words, n, nd1);
      Setup(timeout, conn, T.NodeTx(n, nd1).0);
      TableParts(s, n, timeout, conn);
    }

    /** The receive unit acts on the verdict: words + 1 calls. */
    method ReadVerdict(words: nat, ghost nd: T.Nod)
      requires Models(nd) && nd.rxPkt.Some? && nd.queryRsp != [] && words == |nd.rxPkt.value.frame.payload|
      modifies rx
      ensures Models(T.NodeVerdict(nd))
      ensures rx.View().usrPayload
              == old(rx.View().usrPayload) + (if nd.queryRsp[0] then Beats(nd.rxPkt.value.frame.payload) else [])
    {
      hide RxCalls, RxHolds, Beats;
      RxVerdict(rx.View(), nd);
      RunRx(rx, words + 1);
    }

    /** The retransmit machine takes a request. */
    method TakeRequest(ghost ip: nat, ghost nd: T.Nod)
      requires Models(nd) && nd.retrans.None?
      modifies buf
      ensures Models(T.NodeRetrans(ip, nd).0) && buf.ResenderView().payload == old(buf.ResenderView().payload)
    {
      hide RetransCalls, ResenderHolds;
      ResendTakes(ip, buf.ResenderView(), nd);
      RunResender(buf, 1);
    }

    /** The retransmit machine sends the packet of words payload words in its slot. */
    method Resend(words: nat, ghost ip: nat, ghost nd: T.Nod, ghost h: Header, ghost f: Frame)
      requires Models(nd) && nd.retrans.Some? && nd.retrans.value.slot in nd.destIp && words == |f.payload|
      requires Holds(nd.dram, nd.retrans.value.slot, WindowIdx(nd.retrans.value.first), h, f)
      modifies buf
      ensures Models(T.NodeRetrans(ip, nd).0)
      ensures T.NodeRetrans(ip, nd).1 == {Packet(ip, nd.destIp[nd.retrans.value.slot], h, f)}
      ensures buf.ResenderView().payload == old(buf.ResenderView().payload) + Beats(WireWords(h, f))
    {
      hide RetransCalls, ResenderHolds, Beats, WireWords, Holds, T.NodeRetrans;
      ResendSends(ip, buf.ResenderView(), nd, h, f);
      RetransFrame(ip, nd);
      RunResender(buf, words + 3);
    }
  }

  /** The packet that carries a response. */
  function Responded(ip: nat, response: Option<Response>): set<Packet> {
    if response.None? then {} else {Packet(ip, response.value.dstIp, response.value.hdr, T.RESPONSE_FRAME)}
  }

  /** What the transmit stage sends in a table call. */
  function Sends(ip: nat, nd: T.Nod): set<Packet> { T.NodeTx(ip, T.NodeRx(ip, nd).0).1 }

  lemma ReceiveKeepsTx(ip: nat, nd: T.Nod)
    ensures T.NodeRx(ip, nd).0.table.tx == nd.table.tx && T.NodeRx(ip, nd).0.txPkt == nd.txPkt
  {
  }

  lemma TableParts(s: T.System, n: nat, timeout: Option<Slot>, conn: Option<ConnReq>)
    requires n in s.nodes
    ensures var s', nd := T.TablePart(s, n, timeout, conn), s.nodes[n];
            && n in s'.nodes && s'.nodes[n] == T.NodeSetup(T.NodeTx(n, T.NodeRx(n, nd).0).0, timeout, conn)
            && s'.net == s.net + T.NodeRx(n, nd).1 + Sends(n, nd)
  {
    hide T.NodeRx, T.NodeTx, T.NodeSetup;
  }

  /** A grant is given only to a waiting packet. */
  lemma GrantWaits(nd: T.Nod)
    requires TxStep(nd.table, CheckOf(nd), DoneOf(nd)).1.grant.Some?
    ensures nd.table.tx.state == ReplTxReq
  {
  }

  lemma SameQueries(v: RxUnit, nd: T.Nod)
    requires RxHolds(v, nd)
    ensures v.queryReq == nd.queryReq
  {
  }

  /** Retransmitting touches nothing else of a node. */
  lemma RetransFrame(ip: nat, nd: T.Nod)
    ensures var nd' := T.NodeRetrans(ip, nd).0;
            && nd'.table == nd.table && nd'.txPkt == nd.txPkt && nd'.checkReq == nd.checkReq && nd'.finish == nd.finish
            && nd'.rxPkt == nd.rxPkt && nd'.queryReq == nd.queryReq && nd'.queryRsp == nd.queryRsp
            && nd'.dram == nd.dram && nd'.destIp == nd.destIp && nd'.timerReq == nd.timerReq
  {
  }
}
