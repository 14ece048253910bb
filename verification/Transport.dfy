/** Whole nodes of the go-back-N stack, joined by a network that may drop,
    duplicate and reorder packets.

    A node is the state table with the units around it and the FIFO streams
    between them. One action is one hardware call of one unit of one node; for
    the transmit path, handing out a sequence number, sending the packet and
    copying it to DRAM is a single action. The network is the set of packets
    ever sent: receiving takes any member and leaves it there. */
module Transport {
  import opened Options
  import opened GbnTypes
  import opened StateTable
  import opened RingStore

  /** A packet handed to the transmit unit; ports select the session slots. */
  datatype UserPacket = UserPacket(srcPort: nat, dstPort: nat, dstIp: nat, frame: Frame) {
    function SrcSlot(): Slot { srcPort % NR_SESSIONS }
    function DstSlot(): Slot { dstPort % NR_SESSIONS }
  }

  type User = u: UserPacket | FrameOk(u.frame)
    witness UserPacket(0, 0, 0, Frame(17, [0]))

  /** A data packet that was handled, and what was sent back. */
  datatype Answer = Answer(query: Query, response: Option<Response>)

  /** What happened to one slot so far: frames sent and delivered, the number in
      the latest ACK or NACK sent back, how many NACKs were sent, whether all before it
      was acknowledged when the latest frame was accepted, and the data packets out of
      turn since the last one in turn, with their answers. */
  datatype History = History(accepted: seq<Frame>, delivered: seq<Frame>, acked: nat, nacks: nat,
                             fromEmpty: bool, since: seq<Answer>)

  const NOTHING_YET := History([], [], 0, 0, false, [])

  datatype Node = Node(
    table: Tab,
    rxPkt: Option<Packet>, queryReq: seq<Query>, queryRsp: seq<bool>,
    txPkt: Option<User>, checkReq: seq<Slot>, finish: seq<bool>,
    retransReq: seq<RetransReq>, retrans: Option<RetransReq>,
    dram: Dram, destIp: map<Slot, nat>,
    timerReq: seq<TimerReq>, control: seq<Packet>,
    hist: seq<History>)

  type Nod = n: Node | |n.hist| == NR_SESSIONS
    witness Node(Table(seq(NR_SESSIONS, _ => OPENED),
                       RxRegs(RecvRxReq, Query(0, 0, Header(0, 0, 0, 0)), 0, 0, 0, 0),
                       TxRegs(RecvTxReq, 0, 0, 0)),
                 None, [], [], None, [], [], [], None, map[], map[], [], [],
                 seq(NR_SESSIONS, _ => NOTHING_YET))

  datatype System = System(nodes: map<nat, Nod>, net: set<Packet>)

  datatype Action =
    | Submit(n: nat, user: User)
    | Receive(n: nat, pkt: Packet)
    | ReadVerdict(n: nat)
    | TableCall(n: nat, timeout: Option<Slot>, conn: Option<ConnReq>)
    | RetransCall(n: nat)

  /** The arbiter closes every ACK and NACK with one zero beat. */
  const RESPONSE_FRAME := Frame(24, [0])

  function QueryOf(p: Packet): Query { Query(p.srcIp, p.dstIp, p.hdr) }

  function Head<T>(s: seq<T>): Option<T> { if s == [] then None else Some(s[0]) }

  function OptSeq<T>(o: Option<T>): seq<T> { if o.None? then [] else [o.value] }

  /** A packet of an open session, as opposed to connection management. */
  predicate OfSession(h: Header) { h.src > 0 && h.dst > 0 }

  // ---- one node

  /** The record of slot q.hdr.dst after the data packet q met expected number n. */
  function Logged(h: History, q: Query, n: SeqNum, response: Option<Response>): History {
    h.(since := if q.hdr.seqnum == n then [] else h.since + [Answer(q, response)])
  }

  /** The receive stage of a table call, and the packets it sends. */
  function NodeRx(ip: nat, nd: Nod): (Nod, set<Packet>) {
    var q := if nd.table.rx.state.RecvRxReq? then Head(nd.queryReq) else None;
    var (t, out) := RxStep(nd.table, q);
    var nd' := nd.(table := t,
                   queryReq := if q.None? then nd.queryReq else nd.queryReq[1..],
                   queryRsp := nd.queryRsp + OptSeq(out.verdict),
                   retransReq := nd.retransReq + OptSeq(out.retrans),
                   timerReq := nd.timerReq + OptSeq(out.timer),
                   hist := LogRx(nd, out.response));
    if out.response.None? then (nd', {})
    else
      var h := out.response.value.hdr;
      var e := nd'.hist[h.src];
      (nd'.(hist := nd'.hist[h.src := e.(acked := h.seqnum,
                                         nacks := e.nacks + if h.kind == NACK then 1 else 0)]),
       {Packet(ip, out.response.value.dstIp, h, RESPONSE_FRAME)})
  }

  function LogRx(nd: Nod, response: Option<Response>): (r: seq<History>)
    ensures |r| == NR_SESSIONS
  {
    var q, i := nd.table.rx.query, nd.table.rx.query.hdr.dst;
    if !nd.table.rx.state.HandleData? then nd.hist
    else nd.hist[i := Logged(nd.hist[i], q, nd.table.entries[i].expected, response)]
  }

  function DataHeader(u: User, n: SeqNum): Header {
    Header(DATA, n, u.SrcSlot(), u.DstSlot())
  }

  /** The transmit stage of a table call. A grant stamps the waiting packet,
      sends it, copies it to the ring and signals completion. */
  function NodeTx(ip: nat, nd: Nod): (Nod, set<Packet>) {
    var check := if nd.table.tx.state.RecvTxReq? then Head(nd.checkReq) else None;
    var done := nd.table.tx.state.UpdTxInfo? && nd.finish != [];
    var (t, out) := TxStep(nd.table, check, done);
    var nd' := nd.(table := t,
                   checkReq := if check.None? then nd.checkReq else nd.checkReq[1..],
                   finish := if done then nd.finish[1..] else nd.finish,
                   timerReq := nd.timerReq + OptSeq(out.timer));
    if out.grant.None? || nd.txPkt.None? then (nd', {})
    else
      var u, h := nd.txPkt.value, DataHeader(nd.txPkt.value, out.grant.value);
      var e := nd.hist[h.src];
      (nd'.(txPkt := None, finish := nd.finish + [true],
            dram := Store(nd.dram, h.src, WindowIdx(h.seqnum), h, u.frame),
            destIp := nd.destIp[h.src := u.dstIp],
            hist := nd.hist[h.src := e.(accepted := e.accepted + [u.frame],
                                        fromEmpty := nd.table.entries[h.src].lastAckd == |e.accepted|)]),
       {Packet(ip, u.dstIp, h, u.frame)})
  }

  /** The timeout and set-up stages of a table call. */
  function NodeSetup(nd: Nod, timeout: Option<Slot>, conn: Option<ConnReq>): Nod {
    var nd1 := if timeout.None? then nd
               else nd.(retransReq := nd.retransReq + [TimeoutReq(nd.table, timeout.value)]);
    if conn.None? then nd1 else nd1.(table := InitStep(nd.table, conn.value))
  }

  function NodeVerdict(nd: Nod): Nod {
    if nd.rxPkt.None? || nd.queryRsp == [] then nd
    else
      var p := nd.rxPkt.value;
      var nd' := nd.(rxPkt := None, queryRsp := nd.queryRsp[1..]);
      if nd.queryRsp[0] && OfSession(p.hdr) then
        var e := nd.hist[p.hdr.dst];
        nd'.(hist := nd.hist[p.hdr.dst := e.(delivered := e.delivered + [p.frame])])
      else if nd.queryRsp[0] then nd'.(control := nd.control + [p])
      else nd'
  }

  /** One packet's worth of the retransmit machine: take a request, or send the
      packet in the current ring slot and move on. */
  function NodeRetrans(ip: nat, nd: Nod): (Nod, set<Packet>) {
    if nd.retrans.None? then
      if nd.retransReq == [] then (nd, {})
      else
        var r := nd.retransReq[0];
        (nd.(retransReq := nd.retransReq[1..], retrans := if r.last < r.first then None else Some(r)), {})
    else
      var r := nd.retrans.value;
      var next := Inc(r.first);
      var nd' := nd.(retrans := if next > r.last then None else Some(r.(first := next)));
      var stored := Load(nd.dram, r.slot, WindowIdx(r.first));
      if stored.None? || r.slot !in nd.destIp then (nd', {})
      else (nd', {Packet(ip, nd.destIp[r.slot], stored.value.0, stored.value.1)})
  }

  // ---- the system

  function Put(s: System, n: nat, r: (Nod, set<Packet>)): System {
    System(s.nodes[n := r.0], s.net + r.1)
  }

  function RxPart(s: System, n: nat): System requires n in s.nodes { Put(s, n, NodeRx(n, s.nodes[n])) }

  function TxPart(s: System, n: nat): System requires n in s.nodes { Put(s, n, NodeTx(n, s.nodes[n])) }

  function SubmitPart(s: System, n: nat, u: User): System
    requires n in s.nodes
  {
    var nd := s.nodes[n];
    if nd.txPkt.Some? then s
    else if u.srcPort > 0 && u.dstPort > 0 then
      Put(s, n, (nd.(txPkt := Some(u), checkReq := nd.checkReq + [u.SrcSlot()]), {}))
    else
      Put(s, n, (nd, {Packet(n, u.dstIp, DataHeader(u, 0), u.frame)}))
  }

  function ReceivePart(s: System, n: nat, p: Packet): System
    requires n in s.nodes
  {
    var nd := s.nodes[n];
    if nd.rxPkt.Some? || p !in s.net || !(p.dstIp == n || IsBroadcast(p.dstIp)) then s
    else Put(s, n, (nd.(rxPkt := Some(p), queryReq := nd.queryReq + [QueryOf(p)]), {}))
  }

  /** One call of the state table: receive, transmit, timeout, set-up. */
  function TablePart(s: System, n: nat, timeout: Option<Slot>, conn: Option<ConnReq>): System
    requires n in s.nodes
  {
    var s1 := TxPart(RxPart(s, n), n);
    Put(s1, n, (NodeSetup(s1.nodes[n], timeout, conn), {}))
  }

  function Step(s: System, a: Action): System
    requires a.n in s.nodes
  {
    match a
    case Submit(n, u) => SubmitPart(s, n, u)
    case Receive(n, p) => ReceivePart(s, n, p)
    case ReadVerdict(n) => Put(s, n, (NodeVerdict(s.nodes[n]), {}))
    case TableCall(n, timeout, conn) => TablePart(s, n, timeout, conn)
    case RetransCall(n) => Put(s, n, NodeRetrans(n, s.nodes[n]))
  }

  // ---- sessions and the rules their users keep

  type Peers = map<(nat, Slot), (nat, Slot)>

  /** Every session joins two slots, neither of them slot 0, of two nodes. */
  ghost predicate Sessions(peers: Peers) {
    forall k :: k in peers ==>
      && peers[k] in peers && peers[peers[k]] == k
      && k.1 > 0 && k.0 != peers[k].0 && !IsBroadcast(k.0)
  }

  /** Packets for a slot go to that slot's peer, ports are slot numbers, and
      only slots without a session are opened or closed during the run. */
  ghost predicate Allowed(peers: Peers, s: System, a: Action) {
    && a.n in s.nodes
    && (a.Submit? ==>
          && a.user.srcPort < NR_SESSIONS && a.user.dstPort < NR_SESSIONS
          && (a.user.srcPort > 0 && a.user.dstPort > 0 ==>
                && (a.n, a.user.srcPort) in peers
                && peers[(a.n, a.user.srcPort)] == (a.user.dstIp, a.user.dstPort)))
    && (a.TableCall? && a.conn.Some? ==> (a.n, a.conn.value.slot) !in peers)
  }

  /** A node with idle units around a table. */
  function PoweredUp(t: Tab): Nod {
    Node(t, None, [], [], None, [], [], [], None, map[], map[], [], [], seq(NR_SESSIONS, _ => NOTHING_YET))
  }

  /** Sessions are opened, one after the other. */
  function OpenAll(nd: Nod, slots: seq<Slot>): Nod {
    if slots == [] then nd
    else NodeSetup(OpenAll(nd, slots[..|slots| - 1]), None, Some(Open(slots[|slots| - 1])))
  }

  ghost predicate NodeIdle(nd: Nod) {
    && nd.rxPkt == None && nd.queryReq == [] && nd.queryRsp == []
    && nd.txPkt == None && nd.checkReq == [] && nd.finish == []
    && nd.retransReq == [] && nd.retrans == None
    && nd.table.rx.state == RecvRxReq && nd.table.tx.state == RecvTxReq
    && nd.dram == map[] && nd.timerReq == [] && nd.control == []
  }

  /** Freshly opened sessions and idle units. */
  ghost predicate Initial(peers: Peers, s: System) {
    && s.net == {}
    && (forall k :: k in peers ==>
          && k.0 in s.nodes
          && s.nodes[k.0].table.entries[k.1] == OPENED
          && s.nodes[k.0].hist[k.1] == NOTHING_YET)
    && (forall n :: n in s.nodes ==> NodeIdle(s.nodes[n]))
  }
}
