/** The transmit and receive units, beat by beat.

    A unit is called over and over; a call finding the stream it needs empty
    changes nothing. For one whole packet the calls add up to what the packet
    level takes as one action. */
module StreamUnits {
  import opened Options
  import opened GbnTypes
  import StateTable

  datatype Beat = Beat(data: Word, last: bool)

  datatype UdpInfo = UdpInfo(srcIp: nat, dstIp: nat, srcPort: nat, dstPort: nat, len: nat)

  datatype RouteInfo = RouteInfo(dstIp: nat, len: nat)

  const LEGOMEM_PORT := 1234

  /** The beats of a payload: only the final one is marked last. */
  function Beats(ws: seq<Word>): (bs: seq<Beat>)
    ensures |bs| == |ws|
  {
    seq(|ws|, i requires 0 <= i < |ws| => Beat(ws[i], i == |ws| - 1))
  }

  /** The first beat of a payload, and the others. */
  lemma FirstBeat(ws: seq<Word>, rest: seq<Beat>)
    requires ws != []
    ensures Beats(ws) + rest == [Beat(ws[0], |ws| == 1)] + (Beats(ws[1..]) + rest)
    ensures Beats(ws) == [Beat(ws[0], |ws| == 1)] + Beats(ws[1..])
  {
  }

  lemma Join<T>(a: seq<T>, b: seq<T>, c: seq<T>)
    ensures (a + b) + c == a + (b + c)
  {
  }

  // ---- receive unit

  datatype RxUnitState = RxUdpHeader | RxWaitRsp | RxDeliverData

  datatype RxUnit = RxUnit(
    state: RxUnitState, pkt: Beat, info: UdpInfo, deliver: bool,
    rxHeader: seq<UdpInfo>, rxPayload: seq<Beat>,
    queryReq: seq<StateTable.Query>, queryRsp: seq<bool>,
    usrHeader: seq<UdpInfo>, usrPayload: seq<Beat>)

  /** The header passed on to the pipeline: slots as ports, headers taken off. */
  function UserInfo(i: UdpInfo, h: Header): UdpInfo {
    i.(srcPort := h.src, dstPort := h.dst, len := if i.len < 16 then i.len + 0x10000 - 16 else i.len - 16)
  }

  function RxCall(u: RxUnit): RxUnit {
    match u.state
    case RxUdpHeader =>
      if u.rxHeader == [] || u.rxPayload == [] then u
      else
        var h := Unpack(u.rxPayload[0].data);
        u.(state := RxWaitRsp, pkt := u.rxPayload[0], info := UserInfo(u.rxHeader[0], h),
           rxHeader := u.rxHeader[1..], rxPayload := u.rxPayload[1..],
           queryReq := u.queryReq + [StateTable.Query(u.rxHeader[0].srcIp, u.rxHeader[0].dstIp, h)])
    case RxWaitRsp =>
      if u.queryRsp == [] then u
      else
        var u' := u.(deliver := u.queryRsp[0], queryRsp := u.queryRsp[1..]);
        if u.pkt.last then u'.(state := RxUdpHeader)
        else u'.(state := RxDeliverData,
                 usrHeader := if u'.deliver then u.usrHeader + [u.info] else u.usrHeader)
    case RxDeliverData =>
      if u.rxPayload == [] then u
      else
        var b := u.rxPayload[0];
        var u' := u.(pkt := b, rxPayload := u.rxPayload[1..],
                     usrPayload := if u.deliver then u.usrPayload + [b] else u.usrPayload);
        if b.last then u'.(state := RxUdpHeader, deliver := false) else u'
  }

  function RxCalls(u: RxUnit, n: nat): RxUnit
    decreases n
  {
    if n == 0 then u else RxCalls(RxCall(u), n - 1)
  }

  lemma {:induction false} RxCallsAdd(u: RxUnit, m: nat, n: nat)
    ensures RxCalls(u, m + n) == RxCalls(RxCalls(u, m), n)
    decreases m
  {
    hide RxCall;
    if m > 0 {
      RxCallsAdd(RxCall(u), m - 1, n);
    }
  }

  /** The delivery state passes on, or swallows, exactly the packet's beats. */
  lemma {:induction false} RxPayloadRun(u: RxUnit, ws: seq<Word>, rest: seq<Beat>)
    requires u.state == RxDeliverData && ws != [] && u.rxPayload == Beats(ws) + rest
    ensures var u' := RxCalls(u, |ws|);
            u' == u.(state := RxUdpHeader, deliver := false, pkt := Beat(ws[|ws| - 1], true), rxPayload := rest,
                     usrPayload := if u.deliver then u.usrPayload + Beats(ws) else u.usrPayload)
    decreases |ws|
  {
    var u1 := RxCall(u);
    assert u.rxPayload[0] == Beats(ws)[0] == Beat(ws[0], |ws| == 1);
    if |ws| == 1 {
      assert u1.rxPayload == rest;
      assert u.usrPayload + [u.rxPayload[0]] == u.usrPayload + Beats(ws);
      assert RxCalls(u, 1) == RxCalls(u1, 0) == u1;
    } else {
      assert Beats(ws)[1..] == Beats(ws[1..]);
      assert u1.rxPayload == Beats(ws[1..]) + rest;
      RxPayloadRun(u1, ws[1..], rest);
      assert u.usrPayload + [u.rxPayload[0]] + Beats(ws[1..]) == u.usrPayload + Beats(ws);
    }
  }

  /** A whole packet at the front of the streams, with verdict v at hand: it is
      queried once and then delivered whole or dropped whole. */
  lemma RxPacket(u: RxUnit, i: UdpInfo, h: Header, ws: seq<Word>, v: bool,
                 headers: seq<UdpInfo>, rest: seq<Beat>, verdicts: seq<bool>)
    requires u.state == RxUdpHeader && ws != []
    requires u.rxHeader == [i] + headers
    requires u.rxPayload == [Beat(Pack(h), false)] + Beats(ws) + rest
    requires u.queryRsp == [v] + verdicts
    ensures var u' := RxCalls(u, |ws| + 2);
            && u'.state == RxUdpHeader
            && u'.rxHeader == headers && u'.rxPayload == rest && u'.queryRsp == verdicts
            && u'.queryReq == u.queryReq + [StateTable.Query(i.srcIp, i.dstIp, h)]
            && u'.usrHeader == (if v then u.usrHeader + [UserInfo(i, h)] else u.usrHeader)
            && u'.usrPayload == (if v then u.usrPayload + Beats(ws) else u.usrPayload)
  {
    RxTaken(u, i, h, Beats(ws) + rest, headers);
    var u1 := RxCall(u);
    RxJudged(u1, ws, v, rest, verdicts);
    assert RxCalls(u, |ws| + 2) == RxCalls(u1, |ws| + 1);
  }

  /** The first call takes the header and asks the state table. */
  lemma RxTaken(u: RxUnit, i: UdpInfo, h: Header, beats: seq<Beat>, headers: seq<UdpInfo>)
    requires u.state == RxUdpHeader && u.rxHeader == [i] + headers
    requires u.rxPayload == [Beat(Pack(h), false)] + beats
    ensures RxCall(u) == u.(state := RxWaitRsp, pkt := Beat(Pack(h), false), info := UserInfo(i, h),
                            rxHeader := headers, rxPayload := beats,
                            queryReq := u.queryReq + [StateTable.Query(i.srcIp, i.dstIp, h)])
  {
    hide Pack;
    PackRoundTrip(h);
    assert u.rxPayload[1..] == beats && u.rxHeader[1..] == headers;
  }

  /** With the verdict there, the rest of the packet is delivered or dropped. */
  lemma RxJudged(u: RxUnit, ws: seq<Word>, v: bool, rest: seq<Beat>, verdicts: seq<bool>)
    requires u.state == RxWaitRsp && !u.pkt.last && ws != []
    requires u.rxPayload == Beats(ws) + rest && u.queryRsp == [v] + verdicts
    ensures RxCalls(u, |ws| + 1)
            == u.(state := RxUdpHeader, deliver := false, pkt := Beat(ws[|ws| - 1], true), rxPayload := rest,
              queryRsp := verdicts,
                  usrHeader := if v then u.usrHeader + [u.info] else u.usrHeader,
                  usrPayload := if v then u.usrPayload + Beats(ws) else u.usrPayload)
  {
    var u1 := RxCall(u);
    assert u.queryRsp[1..] == verdicts;
    assert RxCalls(u, 1) == RxCalls(u1, 0) == u1;
    RxCallsAdd(u, 1, |ws|);
    RxPayloadRun(u1, ws, rest);
  }

  /** The streams at the unit's ports. */
  datatype RxStreams = RxStreams(
    rxHeader: seq<UdpInfo>, rxPayload: seq<Beat>,
    queryReq: seq<StateTable.Query>, queryRsp: seq<bool>,
    usrHeader: seq<UdpInfo>, usrPayload: seq<Beat>)

  /** The unit in hardware form. */
  class Rx64 {
    var state: RxUnitState
    var pkt: Beat
    var info: UdpInfo
    var deliver: bool
    var io: RxStreams

    ghost function View(): RxUnit
      reads this
    {
      RxUnit(state, pkt, info, deliver, io.rxHeader, io.rxPayload, io.queryReq, io.queryRsp, io.usrHeader,
        io.usrPayload)
    }

    constructor ()
      ensures View().state == RxUdpHeader && !View().deliver
      ensures View().usrHeader == [] && View().usrPayload == [] && View().queryReq == []
      ensures View().rxHeader == [] && View().rxPayload == [] && View().queryRsp == []
    {
      state, pkt, info, deliver := RxUdpHeader, Beat(0, false), UdpInfo(0, 0, 0, 0, 0), false;
      io := RxStreams([], [], [], [], [], []);
    }

    method Call()
      modifies this
      ensures View() == RxCall(old(View()))
    {
      hide Unpack;
      match state {
        case RxUdpHeader =>
          if io.rxHeader == [] || io.rxPayload == [] { return; }
          var i := io.rxHeader[0];
          pkt := io.rxPayload[0];
          var h := Unpack(pkt.data);
          io := io.(rxHeader := io.rxHeader[1..], rxPayload := io.rxPayload[1..],
                    queryReq := io.queryReq + [StateTable.Query(i.srcIp, i.dstIp, h)]);
          info := UserInfo(i, h);
          state := RxWaitRsp;
        case RxWaitRsp =>
          if io.queryRsp == [] { return; }
          deliver := io.queryRsp[0];
          io := io.(queryRsp := io.queryRsp[1..]);
          if pkt.last {
            state := RxUdpHeader;
          } else {
            if deliver {
              io := io.(usrHeader := io.usrHeader + [info]);
            }
            state := RxDeliverData;
          }
        case RxDeliverData =>
          if io.rxPayload == [] { return; }
          pkt := io.rxPayload[0];
          io := io.(rxPayload := io.rxPayload[1..]);
          if deliver {
            io := io.(usrPayload := io.usrPayload + [pkt]);
          }
          if pkt.last {
            state := RxUdpHeader;
            deliver := false;
          }
      }
    }
  }

  // ---- transmit unit

  datatype TxUnitState = TxUdpHeader | TxGbnHeader | TxPayload

  datatype TxUnit = TxUnit(
    state: TxUnitState, info: UdpInfo, hdr: Header, buffered: bool,
    usrHeader: seq<UdpInfo>, usrPayload: seq<Beat>, checkRsp: seq<SeqNum>,
    txHeader: seq<UdpInfo>, txPayload: seq<Beat>, checkReq: seq<Slot>, finish: seq<bool>,
    bufPayload: seq<Beat>, bufRoute: seq<RouteInfo>)

  /** The streams at the unit's ports. */
  datatype TxStreams = TxStreams(
    usrHeader: seq<UdpInfo>, usrPayload: seq<Beat>, checkRsp: seq<SeqNum>,
    txHeader: seq<UdpInfo>, txPayload: seq<Beat>, checkReq: seq<Slot>, finish: seq<bool>,
    bufPayload: seq<Beat>, bufRoute: seq<RouteInfo>)

  /** The UDP header on the wire: fixed ports and 16 bytes of headers added. */
  function WireInfo(i: UdpInfo): UdpInfo {
    i.(srcPort := LEGOMEM_PORT, dstPort := LEGOMEM_PORT, len := (i.len + 16) % 0x10000)
  }

  function SlotHeader(i: UdpInfo, n: SeqNum): Header {
    Header(DATA, n, i.srcPort % NR_SESSIONS, i.dstPort % NR_SESSIONS)
  }

  function TxCall(u: TxUnit): TxUnit {
    match u.state
    case TxUdpHeader =>
      if u.usrHeader == [] then u
      else
        var i := u.usrHeader[0];
        var h := SlotHeader(i, u.hdr.seqnum);
        var u' := u.(usrHeader := u.usrHeader[1..], info := WireInfo(i), hdr := h);
        if i.srcPort > 0 && i.dstPort > 0 then
          u'.(checkReq := u.checkReq + [h.src], state := TxGbnHeader)
        else
          u'.(hdr := h.(seqnum := 0), txHeader := u.txHeader + [WireInfo(i)],
              txPayload := u.txPayload + [Beat(Pack(h.(seqnum := 0)), false)],
              buffered := false, state := TxPayload)
    case TxGbnHeader =>
      if u.checkRsp == [] then u
      else
        var h := u.hdr.(seqnum := u.checkRsp[0]);
        u.(checkRsp := u.checkRsp[1..], hdr := h,
           txHeader := u.txHeader + [u.info], txPayload := u.txPayload + [Beat(Pack(h), false)],
           bufRoute := u.bufRoute + [RouteInfo(u.info.dstIp, u.info.len)],
           bufPayload := u.bufPayload + [Beat(Pack(h), false)],
           buffered := true, state := TxPayload)
    case TxPayload =>
      if u.usrPayload == [] then u
      else
        var b := u.usrPayload[0];
        var u' := u.(usrPayload := u.usrPayload[1..], txPayload := u.txPayload + [b],
                     bufPayload := if u.buffered then u.bufPayload + [b] else u.bufPayload);
        if b.last then
          u'.(state := TxUdpHeader, buffered := true,
              finish := if u.buffered then u.finish + [true] else u.finish)
        else u'
  }

  function TxCalls(u: TxUnit, n: nat): TxUnit
    decreases n
  {
    if n == 0 then u else TxCalls(TxCall(u), n - 1)
  }

  lemma {:induction false} TxCallsAdd(u: TxUnit, m: nat, n: nat)
    ensures TxCalls(u, m + n) == TxCalls(TxCalls(u, m), n)
    decreases m
  {
    hide TxCall;
    if m > 0 {
      TxCallsAdd(TxCall(u), m - 1, n);
    }
  }

  /** One beat of the payload. */
  lemma TxBeat(u: TxUnit, b: Beat, rest: seq<Beat>)
    requires u.state == TxPayload && u.usrPayload == [b] + rest
    ensures TxCall(u) == u.(state := if b.last then TxUdpHeader else TxPayload, buffered := u.buffered || b.last,
                            usrPayload := rest, txPayload := u.txPayload + [b],
                            bufPayload := if u.buffered then u.bufPayload + [b] else u.bufPayload,
                            finish := if u.buffered && b.last then u.finish + [true] else u.finish)
  {
    hide Pack, WireInfo, SlotHeader;
    assert u.usrPayload[1..] == rest;
  }

  lemma {:induction false} TxPayloadRun(u: TxUnit, ws: seq<Word>, rest: seq<Beat>)
    requires u.state == TxPayload && ws != [] && u.usrPayload == Beats(ws) + rest
    ensures TxCalls(u, |ws|)
            == u.(state := TxUdpHeader, buffered := true, usrPayload := rest,
                  txPayload := u.txPayload + Beats(ws),
                  bufPayload := if u.buffered then u.bufPayload + Beats(ws) else u.bufPayload,
                  finish := if u.buffered then u.finish + [true] else u.finish)
    decreases |ws|
  {
    hide TxCall, Beats;
    var b := Beat(ws[0], |ws| == 1);
    FirstBeat(ws, rest);
    TxBeat(u, b, Beats(ws[1..]) + rest);
    var u1 := TxCall(u);
    if |ws| == 1 {
      NoBeats(ws[1..], rest, [b]);
      assert TxCalls(u, 1) == TxCalls(u1, 0) == u1;
    } else {
      TxPayloadRun(u1, ws[1..], rest);
      Join(u.txPayload, [b], Beats(ws[1..]));
      Join(u.bufPayload, [b], Beats(ws[1..]));
    }
  }

  lemma NoBeats(ws: seq<Word>, rest: seq<Beat>, bs: seq<Beat>)
    requires ws == []
    ensures Beats(ws) + rest == rest && bs + Beats(ws) == bs
  {
  }

  /** A session packet that is granted number n goes out whole, stamped with n;
      the buffer gets the same header and beats, and completion is signalled
      once, after the last beat. */
  lemma TxSessionPacket(u: TxUnit, i: UdpInfo, ws: seq<Word>, n: SeqNum,
                        headers: seq<UdpInfo>, rest: seq<Beat>, grants: seq<SeqNum>)
    requires u.state == TxUdpHeader && ws != [] && i.srcPort > 0 && i.dstPort > 0
    requires u.usrHeader == [i] + headers && u.usrPayload == Beats(ws) + rest && u.checkRsp == [n] + grants
    ensures var u' := TxCalls(u, |ws| + 2);
            var out := [Beat(Pack(SlotHeader(i, n)), false)] + Beats(ws);
            && u'.state == TxUdpHeader
            && u'.usrHeader == headers && u'.usrPayload == rest && u'.checkRsp == grants
            && u'.checkReq == u.checkReq + [SlotHeader(i, n).src]
            && u'.txHeader == u.txHeader + [WireInfo(i)]
            && u'.txPayload == u.txPayload + out
            && u'.bufPayload == u.bufPayload + out
            && u'.bufRoute == u.bufRoute + [RouteInfo(i.dstIp, WireInfo(i).len)]
            && u'.finish == u.finish + [true]
  {
    hide Pack;
    var u1 := TxCall(u);
    assert u1.usrHeader == headers;
    TxGranted(u1, ws, n, rest, grants);
    assert TxCalls(u, |ws| + 2) == TxCalls(u1, |ws| + 1);
  }

  /** With the number granted, the waiting packet goes out. */
  lemma TxGranted(u: TxUnit, ws: seq<Word>, n: SeqNum, rest: seq<Beat>, grants: seq<SeqNum>)
    requires u.state == TxGbnHeader && ws != [] && u.usrPayload == Beats(ws) + rest && u.checkRsp == [n] + grants
    ensures var h := u.hdr.(seqnum := n);
            var out := [Beat(Pack(h), false)] + Beats(ws);
            TxCalls(u, |ws| + 1)
            == u.(state := TxUdpHeader, hdr := h, buffered := true, usrPayload := rest, checkRsp := grants,
                  txHeader := u.txHeader + [u.info], txPayload := u.txPayload + out, bufPayload := u.bufPayload + out,
                  bufRoute := u.bufRoute + [RouteInfo(u.info.dstIp, u.info.len)], finish := u.finish + [true])
  {
    hide Pack, TxCall, Beats;
    TxStamped(u, n, grants);
    var u1, b := TxCall(u), Beat(Pack(u.hdr.(seqnum := n)), false);
    assert TxCalls(u, 1) == TxCalls(u1, 0) == u1;
    TxCallsAdd(u, 1, |ws|);
    TxPayloadRun(u1, ws, rest);
    Join(u.txPayload, [b], Beats(ws));
    Join(u.bufPayload, [b], Beats(ws));
  }

  lemma TxStamped(u: TxUnit, n: SeqNum, grants: seq<SeqNum>)
    requires u.state == TxGbnHeader && u.checkRsp == [n] + grants
    ensures var h := u.hdr.(seqnum := n);
            TxCall(u) == u.(state := TxPayload, hdr := h, buffered := true, checkRsp := grants,
                            txHeader := u.txHeader + [u.info], txPayload := u.txPayload + [Beat(Pack(h), false)],
                            bufPayload := u.bufPayload + [Beat(Pack(h), false)],
                            bufRoute := u.bufRoute + [RouteInfo(u.info.dstIp, u.info.len)])
  {
    hide Pack, WireInfo, SlotHeader;
    assert u.checkRsp[1..] == grants;
  }

  /** A connection-management packet (port 0 at either end) is sent with number
      0 and leaves no trace in the buffer or the state table. */
  lemma TxManagementPacket(u: TxUnit, i: UdpInfo, ws: seq<Word>, headers: seq<UdpInfo>, rest: seq<Beat>)
    requires u.state == TxUdpHeader && ws != [] && !(i.srcPort > 0 && i.dstPort > 0)
    requires u.usrHeader == [i] + headers && u.usrPayload == Beats(ws) + rest
    ensures var u' := TxCalls(u, |ws| + 1);
            && u'.state == TxUdpHeader && u'.usrHeader == headers && u'.usrPayload == rest
            && u'.txHeader == u.txHeader + [WireInfo(i)]
            && u'.txPayload == u.txPayload + ([Beat(Pack(SlotHeader(i, 0)), false)] + Beats(ws))
            && u'.checkReq == u.checkReq && u'.checkRsp == u.checkRsp && u'.finish == u.finish
            && u'.bufPayload == u.bufPayload && u'.bufRoute == u.bufRoute
  {
    var u1 := TxCall(u);
    assert TxCalls(u, 1) == TxCalls(u1, 0) == u1;
    TxCallsAdd(u, 1, |ws|);
    TxPayloadRun(u1, ws, rest);
    var b := Beat(Pack(SlotHeader(i, 0)), false);
    assert u.txPayload + [b] + Beats(ws) == u.txPayload + ([b] + Beats(ws));
  }

  /** The unit in hardware form. */
  class Tx64 {
    var state: TxUnitState
    var info: UdpInfo
    var hdr: Header
    var buffered: bool
    var io: TxStreams

    ghost function View(): TxUnit
      reads this
    {
      TxUnit(state, info, hdr, buffered, io.usrHeader, io.usrPayload, io.checkRsp,
             io.txHeader, io.txPayload, io.checkReq, io.finish, io.bufPayload, io.bufRoute)
    }

    constructor ()
      ensures View().state == TxUdpHeader
      ensures View().usrHeader == [] && View().usrPayload == [] && View().checkRsp == []
      ensures View().txHeader == [] && View().txPayload == [] && View().checkReq == [] && View().finish == []
      ensures View().bufPayload == [] && View().bufRoute == []
    {
      state, info, hdr, buffered := TxUdpHeader, UdpInfo(0, 0, 0, 0, 0), Header(0, 0, 0, 0), true;
      io := TxStreams([], [], [], [], [], [], [], [], []);
    }

    method Call()
      modifies this
      ensures View() == TxCall(old(View()))
    {
      hide Pack, WireInfo;
      match state {
        case TxUdpHeader =>
          if io.usrHeader == [] { return; }
          var i := io.usrHeader[0];
          hdr := SlotHeader(i, hdr.seqnum);
          info := WireInfo(i);
          if i.srcPort > 0 && i.dstPort > 0 {
            io := io.(usrHeader := io.usrHeader[1..], checkReq := io.checkReq + [hdr.src]);
            state := TxGbnHeader;
          } else {
            hdr := hdr.(seqnum := 0);
            io := io.(usrHeader := io.usrHeader[1..], txHeader := io.txHeader + [info],
                      txPayload := io.txPayload + [Beat(Pack(hdr), false)]);
            buffered := false;
            state := TxPayload;
          }
        case TxGbnHeader =>
          if io.checkRsp == [] { return; }
          hdr := hdr.(seqnum := io.checkRsp[0]);
          var first := Beat(Pack(hdr), false);
          io := io.(checkRsp := io.checkRsp[1..], txHeader := io.txHeader + [info],
                    bufRoute := io.bufRoute + [RouteInfo(info.dstIp, info.len)],
                    txPayload := io.txPayload + [first], bufPayload := io.bufPayload + [first]);
          buffered := true;
          state := TxPayload;
        case TxPayload =>
          if io.usrPayload == [] { return; }
          var b := io.usrPayload[0];
          io := io.(usrPayload := io.usrPayload[1..], txPayload := io.txPayload + [b]);
          if buffered {
            io := io.(bufPayload := io.bufPayload + [b]);
          }
          if b.last {
            state := TxUdpHeader;
            if buffered {
              io := io.(finish := io.finish + [true]);
            }
            buffered := true;
          }
      }
    }
  }

  // ---- from one unit to the other

  /** What the receiving user gets as header is what the sending user handed over. */
  lemma HeaderRoundTrip(i: UdpInfo, n: SeqNum)
    requires i.srcPort < NR_SESSIONS && i.dstPort < NR_SESSIONS && i.len + 16 < 0x10000
    ensures UserInfo(WireInfo(i), SlotHeader(i, n)) == i
  {
  }

  /** A session packet through the transmit unit, over the wire and, with a positive
      verdict, through the receive unit: addresses, ports, length and payload arrive as
      they were handed over, and the table is asked about the slots of the ports. */
  lemma WireRoundTrip(t: TxUnit, r: RxUnit, i: UdpInfo, ws: seq<Word>, n: SeqNum, headers: seq<UdpInfo>,
                      rest: seq<Beat>, grants: seq<SeqNum>)
    requires t.state == TxUdpHeader && ws != [] && 0 < i.srcPort < NR_SESSIONS && 0 < i.dstPort < NR_SESSIONS
    requires i.len + 16 < 0x10000
    requires t.usrHeader == [i] + headers && t.usrPayload == Beats(ws) + rest && t.checkRsp == [n] + grants
    requires r.state == RxUdpHeader && r.queryRsp == [true]
    requires var t' := TxCalls(t, |ws| + 2);
             && t.txHeader <= t'.txHeader && t.txPayload <= t'.txPayload
             && r.rxHeader == t'.txHeader[|t.txHeader|..] && r.rxPayload == t'.txPayload[|t.txPayload|..]
    ensures var r' := RxCalls(r, |ws| + 2);
            && r'.state == RxUdpHeader && r'.rxHeader == [] && r'.rxPayload == []
            && r'.usrHeader == r.usrHeader + [i] && r'.usrPayload == r.usrPayload + Beats(ws)
            && r'.queryReq == r.queryReq
                 + [StateTable.Query(i.srcIp, i.dstIp, Header(DATA, n, i.srcPort, i.dstPort))]
  {
    hide TxCalls, RxCalls, Beats, Pack;
    TxSessionPacket(t, i, ws, n, headers, rest, grants);
    HeaderRoundTrip(i, n);
    var h := SlotHeader(i, n);
    assert r.rxHeader == [WireInfo(i)] + [];
    assert r.rxPayload == [Beat(Pack(h), false)] + Beats(ws) + [];
    assert r.queryRsp == [true] + [];
    RxPacket(r, WireInfo(i), h, ws, true, [], [], []);
  }
}
