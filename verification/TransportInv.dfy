/** What every action of the go-back-N system keeps. */
module TransportInv {
  import opened Options
  import opened GbnTypes
  import opened StateTable
  import opened RingStore
  import opened Transport

  // ---- node-local invariants

  /** Between the receive unit and the table there is at most one packet, at one
      of three places: queried, being handled, or judged. */
  ghost predicate RxWf(n: nat, nd: Nod, net: set<Packet>) {
    var rx := nd.table.rx;
    if nd.rxPkt.None? then
      nd.queryReq == [] && nd.queryRsp == [] && rx.state == RecvRxReq
    else
      var p := nd.rxPkt.value;
      && p in net
      && (p.dstIp == n || IsBroadcast(p.dstIp))
      && (|| (nd.queryReq == [QueryOf(p)] && nd.queryRsp == [] && rx.state == RecvRxReq)
          || (nd.queryReq == [] && nd.queryRsp == [] && Handling(n, rx, p))
          || (nd.queryReq == [] && |nd.queryRsp| == 1 && rx.state == RecvRxReq))
  }

  ghost predicate Handling(n: nat, rx: RxRegs, p: Packet) {
    && rx.query == QueryOf(p) && p.dstIp == n && OfSession(p.hdr)
    && (|| (rx.state == HandleData && p.hdr.kind == DATA)
        || (rx.state == HandleAck && (p.hdr.kind == ACK || p.hdr.kind == NACK)))
  }

  /** The transmit unit waits exactly while its slot is queued at, or held by,
      the table's transmit machine. */
  ghost predicate TxWf(peers: Peers, n: nat, nd: Nod) {
    var tx := nd.table.tx;
    && nd.finish == (if tx.state == UpdTxInfo then [true] else [])
    && (if nd.txPkt.None? then nd.checkReq == [] && tx.state != ReplTxReq
        else
          var u := nd.txPkt.value;
          && (n, u.SrcSlot()) in peers
          && peers[(n, u.SrcSlot())] == (u.dstIp, u.DstSlot())
          && (|| (nd.checkReq == [u.SrcSlot()] && tx.state != ReplTxReq)
              || (nd.checkReq == [] && tx.state == ReplTxReq && tx.slot == u.SrcSlot())))
  }

  /** Whatever the ring holds was sent before, to where it would be resent. */
  ghost predicate RingWf(peers: Peers, n: nat, nd: Nod, net: set<Packet>) {
    forall c: Slot, i: nat :: i < WINDOW_SIZE ==>
      && SlotOk(nd.dram, c, i)
      && (Load(nd.dram, c, i).Some? ==>
            && (n, c) in peers && c in nd.destIp && nd.destIp[c] == peers[(n, c)].0
            && Packet(n, nd.destIp[c], Load(nd.dram, c, i).value.0, Load(nd.dram, c, i).value.1) in net)
  }

  /** Session packets travel only between the two ends of a session. */
  ghost predicate NetWf(peers: Peers, net: set<Packet>) {
    forall p :: p in net && OfSession(p.hdr) ==>
      && (p.srcIp, p.hdr.src) in peers
      && peers[(p.srcIp, p.hdr.src)] == (p.dstIp, p.hdr.dst)
  }

  ghost predicate Wf(peers: Peers, s: System) {
    && Sessions(peers)
    && NetWf(peers, s.net)
    && (forall k :: k in peers ==> k.0 in s.nodes)
    && (forall n :: n in s.nodes ==> NodeWf(peers, n, s.nodes[n], s.net))
  }

  ghost predicate NodeWf(peers: Peers, n: nat, nd: Nod, net: set<Packet>) {
    RxWf(n, nd, net) && TxWf(peers, n, nd) && RingWf(peers, n, nd, net)
  }

  // ---- per-session invariants; k is the sending end

  /** Ring slot of every packet not older than the window. */
  ghost predicate RingHolds(dram: Dram, a: Slot, b: Slot, acc: seq<Frame>) {
    forall n: SeqNum :: 1 <= n <= |acc| && |acc| < n + WINDOW_SIZE ==>
      Holds(dram, a, WindowIdx(n), Header(DATA, n, a, b), acc[n - 1])
  }

  predicate ReqOk(r: RetransReq, a: Slot, sent: nat) {
    r.slot == a ==> 1 <= r.first && r.last <= sent
  }

  ghost predicate SenderOk(nd: Nod, a: Slot, b: Slot) {
    var e, acc := nd.table.entries[a], nd.hist[a].accepted;
    && |acc| < SEQ_MOD - 1
    && e.lastSent == |acc|
    && e.lastAckd <= e.lastSent <= e.lastAckd + WINDOW_SIZE
    && (nd.table.tx.state == ReplTxReq && nd.table.tx.slot == a ==> nd.table.tx.lastSent == e.lastSent)
    && (nd.table.rx.state == HandleAck && nd.table.rx.query.hdr.dst == a ==>
          nd.table.rx.lastAckd == e.lastAckd && nd.table.rx.lastSent <= e.lastSent)
    && RingHolds(nd.dram, a, b, acc)
    && (forall r :: r in nd.retransReq ==> ReqOk(r, a, |acc|))
    && (nd.retrans.Some? ==> ReqOk(nd.retrans.value, a, |acc|) && nd.retrans.value.first <= nd.retrans.value.last)
  }

  /** A positive verdict that the receive unit has not read yet. */
  ghost function Pending(nd: Nod, b: Slot): seq<Frame> {
    if nd.rxPkt.Some? && nd.queryRsp == [true] && OfSession(nd.rxPkt.value.hdr)
       && nd.rxPkt.value.hdr.dst == b
    then [nd.rxPkt.value.frame] else []
  }

  ghost predicate ReceiverOk(nd: Nod, b: Slot, acc: seq<Frame>) {
    var e, h := nd.table.entries[b], nd.hist[b];
    && 1 <= e.expected <= |acc| + 1
    && h.delivered + Pending(nd, b) == acc[..e.expected - 1]
    && (nd.table.rx.state == HandleData && nd.table.rx.query.hdr.dst == b ==>
          nd.table.rx.expt == e.expected && nd.table.rx.countdown == e.countdown)
    && h.acked < e.expected
    && e.expected - 1 - h.acked + e.countdown <= NR_BATCHED_PKT_PER_ACK
    && h.nacks + (if e.ackEnable then 1 else 0) <= e.expected
  }

  ghost predicate LinkOk(net: set<Packet>, k: (nat, Slot), acc: seq<Frame>, acked: nat) {
    forall p :: p in net && OfSession(p.hdr) ==>
      && ((p.srcIp, p.hdr.src) == k && p.hdr.kind == DATA ==>
            1 <= p.hdr.seqnum <= |acc| && p.frame == acc[p.hdr.seqnum - 1])
      && ((p.dstIp, p.hdr.dst) == k && (p.hdr.kind == ACK || p.hdr.kind == NACK) ==>
            p.hdr.seqnum <= acked)
  }

  ghost predicate SessionOk(peers: Peers, s: System, k: (nat, Slot))
    requires Wf(peers, s) && k in peers
  {
    var X, Y := s.nodes[k.0], s.nodes[peers[k].0];
    && SenderOk(X, k.1, peers[k].1)
    && ReceiverOk(Y, peers[k].1, X.hist[k.1].accepted)
    && LinkOk(s.net, k, X.hist[k.1].accepted, Y.hist[peers[k].1].acked)
    && X.table.entries[k.1].lastAckd <= Y.hist[peers[k].1].acked
  }

  // ---- receive stage

  lemma RxKeepsRxWf(n: nat, nd: Nod, net: set<Packet>)
    requires RxWf(n, nd, net)
    ensures RxWf(n, NodeRx(n, nd).0, net + NodeRx(n, nd).1)
  {
  }

  /** A response goes back along the session its query came from. */
  lemma ResponseIsReply(peers: Peers, n: nat, nd: Nod, net: set<Packet>, p: Packet)
    requires Sessions(peers) && NetWf(peers, net) && RxWf(n, nd, net) && p in NodeRx(n, nd).1
    ensures nd.table.rx.state == HandleData && nd.rxPkt.Some?
    ensures var q := nd.rxPkt.value;
            && p.srcIp == n == q.dstIp && p.hdr.src == q.hdr.dst
            && p.dstIp == q.srcIp && p.hdr.dst == q.hdr.src
            && OfSession(p.hdr) && (p.hdr.kind == ACK || p.hdr.kind == NACK)
            && (n, p.hdr.src) in peers && peers[(n, p.hdr.src)] == (p.dstIp, p.hdr.dst)
  {
  }

  /** A node change that leaves the sending side of slot a alone. */
  lemma SenderFrame(nd: Nod, nd': Nod, a: Slot, b: Slot)
    requires SenderOk(nd, a, b)
    requires nd'.hist[a].accepted == nd.hist[a].accepted
    requires RingHolds(nd'.dram, a, b, nd.hist[a].accepted)
    requires nd'.table.entries[a].lastAckd == nd.table.entries[a].lastAckd
    requires nd'.table.entries[a].lastSent == nd.table.entries[a].lastSent
    requires nd'.table.tx == nd.table.tx || nd'.table.tx.state != ReplTxReq || nd'.table.tx.slot != a
             || nd'.table.tx.lastSent == nd.table.entries[a].lastSent
    requires nd'.retransReq == nd.retransReq && nd'.retrans == nd.retrans
    requires nd'.table.rx == nd.table.rx || nd'.table.rx.state != HandleAck || nd'.table.rx.query.hdr.dst != a
             || (nd'.table.rx.lastAckd == nd.table.entries[a].lastAckd
                 && nd'.table.rx.lastSent == nd.table.entries[a].lastSent)
    ensures SenderOk(nd', a, b)
  {
  }

  lemma AckKeepsSender(n: nat, nd: Nod, net: set<Packet>, a: Slot, b: Slot, acked: nat)
    requires RxWf(n, nd, net) && nd.table.rx.state == HandleAck && SenderOk(nd, a, b)
    requires nd.table.entries[a].lastAckd <= acked <= |nd.hist[a].accepted|
    requires LinkOk(net, (n, a), nd.hist[a].accepted, acked)
    ensures SenderOk(NodeRx(n, nd).0, a, b)
    ensures NodeRx(n, nd).0.table.entries[a].lastAckd <= acked
  {
    hide RingHolds, Holds;
    var nd', p := NodeRx(n, nd).0, nd.rxPkt.value;
    assert p in net && OfSession(p.hdr);
    var (t, out) := RxAck(nd.table);
    if p.hdr.dst == a {
      assert p.hdr.seqnum <= acked;
      assert out.retrans.Some? ==> ReqOk(out.retrans.value, a, |nd.hist[a].accepted|);
    }
    assert nd'.retransReq == nd.retransReq + OptSeq(out.retrans);
  }

  lemma RxKeepsSender(n: nat, nd: Nod, net: set<Packet>, a: Slot, b: Slot, acked: nat)
    requires RxWf(n, nd, net) && SenderOk(nd, a, b)
    requires nd.table.entries[a].lastAckd <= acked <= |nd.hist[a].accepted|
    requires LinkOk(net, (n, a), nd.hist[a].accepted, acked)
    ensures var nd' := NodeRx(n, nd).0;
            && SenderOk(nd', a, b)
            && nd'.hist[a].accepted == nd.hist[a].accepted
            && nd'.table.entries[a].lastAckd <= acked
  {
    hide NodeRx, SenderOk, LinkOk, RxWf;
    RxKeepsAccepted(n, nd, a);
    if nd.table.rx.state == HandleAck {
      AckKeepsSender(n, nd, net, a, b, acked);
    } else {
      OtherRx(n, nd, a);
      SenderRing(nd, a, b);
      SenderFrame(nd, NodeRx(n, nd).0, a, b);
    }
  }

  lemma RxKeepsAccepted(n: nat, nd: Nod, a: Slot)
    ensures NodeRx(n, nd).0.hist[a].accepted == nd.hist[a].accepted
  {
  }

  lemma SenderRing(nd: Nod, a: Slot, b: Slot)
    requires SenderOk(nd, a, b)
    ensures RingHolds(nd.dram, a, b, nd.hist[a].accepted)
  {
  }

  /** A receive stage that handles no ACK or NACK leaves the sending side alone. */
  lemma OtherRx(n: nat, nd: Nod, a: Slot)
    requires nd.table.rx.state != HandleAck
    ensures var nd' := NodeRx(n, nd).0;
            && nd'.dram == nd.dram && nd'.table.tx == nd.table.tx
            && nd'.retransReq == nd.retransReq && nd'.retrans == nd.retrans
            && nd'.table.entries[a].lastAckd == nd.table.entries[a].lastAckd
            && nd'.table.entries[a].lastSent == nd.table.entries[a].lastSent
            && (nd'.table.rx == nd.table.rx || nd'.table.rx.state != HandleAck || nd'.table.rx.query.hdr.dst != a
                || (nd'.table.rx.lastAckd == nd.table.entries[a].lastAckd
                  && nd'.table.rx.lastSent == nd.table.entries[a].lastSent))
  {
    assert nd.retransReq + [] == nd.retransReq;
  }

  /** A node change that leaves the receiving side of slot b alone. */
  lemma ReceiverFrame(nd: Nod, nd': Nod, b: Slot, acc: seq<Frame>)
    requires ReceiverOk(nd, b, acc)
    requires nd'.table.entries[b].expected == nd.table.entries[b].expected
    requires nd'.table.entries[b].countdown == nd.table.entries[b].countdown
    requires nd'.table.entries[b].ackEnable == nd.table.entries[b].ackEnable
    requires nd'.hist[b].delivered == nd.hist[b].delivered
    requires nd'.hist[b].acked == nd.hist[b].acked && nd'.hist[b].nacks == nd.hist[b].nacks
    requires Pending(nd', b) == Pending(nd, b)
    requires nd'.table.rx == nd.table.rx || nd'.table.rx.state != HandleData
             || nd'.table.rx.query.hdr.dst != b
             || (nd'.table.rx.expt == nd.table.entries[b].expected
                 && nd'.table.rx.countdown == nd.table.entries[b].countdown)
    ensures ReceiverOk(nd', b, acc)
  {
  }

  /** A data packet for slot b is being handled; its frame is the one accepted under
      its number. */
  ghost predicate DataAtSlot(n: nat, nd: Nod, b: Slot, acc: seq<Frame>) {
    && |acc| < SEQ_MOD - 1 && nd.table.rx.state == HandleData && nd.rxPkt.Some?
    && nd.queryRsp == [] && Handling(n, nd.table.rx, nd.rxPkt.value)
    && nd.rxPkt.value.hdr.dst == b && ReceiverOk(nd, b, acc)
    && 1 <= nd.rxPkt.value.hdr.seqnum <= |acc| && nd.rxPkt.value.frame == acc[nd.rxPkt.value.hdr.seqnum - 1]
  }

  lemma DataAccepted(n: nat, nd: Nod, b: Slot, acc: seq<Frame>)
    requires DataAtSlot(n, nd, b, acc) && nd.rxPkt.value.hdr.seqnum == nd.table.entries[b].expected
    ensures var nd' := NodeRx(n, nd).0;
            && ReceiverOk(nd', b, acc) && nd.hist[b].acked <= nd'.hist[b].acked
            && (forall p :: p in NodeRx(n, nd).1 ==> p.hdr.seqnum == nd'.hist[b].acked)
  {
    var p, e, nd' := nd.rxPkt.value, nd.table.entries[b], NodeRx(n, nd).0;
    assert nd'.queryRsp == [true];
    assert Pending(nd', b) == [p.frame];
    assert acc[..e.expected] == acc[..e.expected - 1] + [p.frame];
  }

  /** A packet out of turn leaves the receiving side alone; it is answered at most
      once, with the number before the expected one. */
  lemma RefusedStep(n: nat, nd: Nod, b: Slot)
    requires nd.table.rx.state == HandleData && nd.table.rx.query.hdr.dst == b && nd.queryRsp == []
    requires nd.table.rx.query.hdr.seqnum != nd.table.rx.expt
    ensures var nd', e, h := NodeRx(n, nd).0, nd.table.entries[b], nd.hist[b];
            var e', h' := nd'.table.entries[b], nd'.hist[b];
            && nd'.queryRsp == [false] && nd'.rxPkt == nd.rxPkt && nd'.table.rx.state == RecvRxReq
            && e'.expected == e.expected && e'.countdown == e.countdown && h'.delivered == h.delivered
            && h'.nacks + (if e'.ackEnable then 1 else 0) <= h.nacks + (if e.ackEnable then 1 else 0)
            && (NodeRx(n, nd).1 == {} ==> h'.acked == h.acked)
            && (NodeRx(n, nd).1 != {} ==> h'.acked == Dec(nd.table.rx.expt))
            && (forall p :: p in NodeRx(n, nd).1 ==> p.hdr.seqnum == h'.acked)
  {
    assert nd.queryRsp + [false] == [false];
  }

  lemma DataRefused(n: nat, nd: Nod, b: Slot, acc: seq<Frame>)
    requires DataAtSlot(n, nd, b, acc) && nd.rxPkt.value.hdr.seqnum != nd.table.entries[b].expected
    ensures var nd' := NodeRx(n, nd).0;
            && ReceiverOk(nd', b, acc) && nd.hist[b].acked <= nd'.hist[b].acked
            && (forall p :: p in NodeRx(n, nd).1 ==> p.hdr.seqnum == nd'.hist[b].acked)
  {
    hide NodeRx, RxStep, RxData;
    RefusedStep(n, nd, b);
    var nd' := NodeRx(n, nd).0;
    assert Pending(nd', b) == [] == Pending(nd, b);
  }

  lemma DataKeepsReceiver(n: nat, nd: Nod, net: set<Packet>, k: (nat, Slot), b: Slot, acc: seq<Frame>)
    requires RxWf(n, nd, net) && |acc| < SEQ_MOD - 1 && nd.table.rx.state == HandleData
    requires ReceiverOk(nd, b, acc) && LinkOk(net, k, acc, nd.hist[b].acked)
    requires NodeRxFrom(nd, b, k) && !IsBroadcast(n)
    ensures var nd' := NodeRx(n, nd).0;
            && ReceiverOk(nd', b, acc)
            && nd.hist[b].acked <= nd'.hist[b].acked
            && (forall p :: p in NodeRx(n, nd).1 && p.hdr.src == b ==> p.hdr.seqnum <= nd'.hist[b].acked)
  {
    var p := nd.rxPkt.value;
    if p.hdr.dst == b {
      assert p in net && OfSession(p.hdr);
      if p.hdr.seqnum == nd.table.entries[b].expected {
        DataAccepted(n, nd, b, acc);
      } else {
        DataRefused(n, nd, b, acc);
      }
    } else {
      ReceiverFrame(nd, NodeRx(n, nd).0, b, acc);
    }
  }

  lemma RxKeepsReceiver(n: nat, nd: Nod, net: set<Packet>, k: (nat, Slot), b: Slot, acc: seq<Frame>)
    requires RxWf(n, nd, net) && |acc| < SEQ_MOD - 1
    requires ReceiverOk(nd, b, acc) && LinkOk(net, k, acc, nd.hist[b].acked)
    requires NodeRxFrom(nd, b, k) && !IsBroadcast(n)
    ensures var nd' := NodeRx(n, nd).0;
            && ReceiverOk(nd', b, acc)
            && nd.hist[b].acked <= nd'.hist[b].acked
            && (forall p :: p in NodeRx(n, nd).1 && p.hdr.src == b ==> p.hdr.seqnum <= nd'.hist[b].acked)
  {
    hide NodeRx, ReceiverOk, LinkOk, Pending, RxWf;
    if nd.table.rx.state == HandleData {
      DataKeepsReceiver(n, nd, net, k, b, acc);
    } else {
      QuietPending(n, nd, net, b);
      QuietRx(n, nd, b);
      ReceiverFrame(nd, NodeRx(n, nd).0, b, acc);
    }
  }

  /** A receive stage that handles no data packet leaves the receiving side alone. */
  lemma QuietRx(n: nat, nd: Nod, b: Slot)
    requires nd.table.rx.state != HandleData
    ensures var (nd', out) := NodeRx(n, nd);
            && out == {} && nd'.hist == nd.hist
            && nd'.table.entries[b].expected == nd.table.entries[b].expected
            && nd'.table.entries[b].countdown == nd.table.entries[b].countdown
            && nd'.table.entries[b].ackEnable == nd.table.entries[b].ackEnable
            && (nd'.table.rx == nd.table.rx || nd'.table.rx.state != HandleData || nd'.table.rx.query.hdr.dst != b
                || (nd'.table.rx.expt == nd.table.entries[b].expected
                  && nd'.table.rx.countdown == nd.table.entries[b].countdown))
  {
  }

  lemma QuietPending(n: nat, nd: Nod, net: set<Packet>, b: Slot)
    requires RxWf(n, nd, net) && nd.table.rx.state != HandleData && !IsBroadcast(n)
    ensures Pending(NodeRx(n, nd).0, b) == Pending(nd, b)
  {
    assert nd.queryRsp + [] == nd.queryRsp;
    assert forall v: bool :: [] + [v] == [v];
  }

  /** Session packets that reach slot b come from k. */
  ghost predicate NodeRxFrom(nd: Nod, b: Slot, k: (nat, Slot)) {
    (nd.rxPkt.Some? && OfSession(nd.rxPkt.value.hdr) && nd.rxPkt.value.hdr.dst == b
     && !IsBroadcast(nd.rxPkt.value.dstIp)) ==>
      (nd.rxPkt.value.srcIp, nd.rxPkt.value.hdr.src) == k
  }

  // ---- monotonicity in what the network has carried

  lemma NodeWfMono(peers: Peers, n: nat, nd: Nod, net: set<Packet>, net': set<Packet>)
    requires NodeWf(peers, n, nd, net) && net <= net'
    ensures NodeWf(peers, n, nd, net')
  {
  }

  /** Replacing one node keeps well-formedness. */
  lemma PutWf(peers: Peers, s: System, n: nat, r: (Nod, set<Packet>))
    requires Wf(peers, s) && n in s.nodes
    requires NodeWf(peers, n, r.0, s.net + r.1) && NetWf(peers, s.net + r.1)
    ensures Wf(peers, Put(s, n, r))
  {
    forall m | m in s.nodes && m != n ensures NodeWf(peers, m, s.nodes[m], s.net + r.1) {
      NodeWfMono(peers, m, s.nodes[m], s.net, s.net + r.1);
    }
  }

  lemma LinkMono(net: set<Packet>, more: set<Packet>, k: (nat, Slot), acc: seq<Frame>, acked: nat,
                 acc': seq<Frame>, acked': nat)
    requires LinkOk(net, k, acc, acked) && acc <= acc' && acked <= acked'
    requires LinkOk(more, k, acc', acked')
    ensures LinkOk(net + more, k, acc', acked')
  {
  }

  lemma ReceiverMono(nd: Nod, b: Slot, acc: seq<Frame>, acc': seq<Frame>)
    requires ReceiverOk(nd, b, acc) && acc <= acc'
    ensures ReceiverOk(nd, b, acc')
  {
    assert acc'[..nd.table.entries[b].expected - 1] == acc[..nd.table.entries[b].expected - 1];
  }

  /** Session k after node n was replaced, put together from its two ends and
      the packets that were added. */
  lemma SessionPut(peers: Peers, s: System, n: nat, r: (Nod, set<Packet>), k: (nat, Slot))
    requires Wf(peers, s) && Wf(peers, Put(s, n, r)) && n in s.nodes && k in peers && SessionOk(peers, s, k)
    requires n == k.0 ==>
               && SenderOk(r.0, k.1, peers[k].1)
               && s.nodes[n].hist[k.1].accepted <= r.0.hist[k.1].accepted
               && r.0.table.entries[k.1].lastAckd <= s.nodes[peers[k].0].hist[peers[k].1].acked
    requires n == peers[k].0 ==>
               && ReceiverOk(r.0, peers[k].1, s.nodes[k.0].hist[k.1].accepted)
               && s.nodes[n].hist[peers[k].1].acked <= r.0.hist[peers[k].1].acked
    requires LinkOk(r.1, k, Put(s, n, r).nodes[k.0].hist[k.1].accepted,
                    Put(s, n, r).nodes[peers[k].0].hist[peers[k].1].acked)
    ensures SessionOk(peers, Put(s, n, r), k)
  {
    var s' := Put(s, n, r);
    var acc, acc' := s.nodes[k.0].hist[k.1].accepted, s'.nodes[k.0].hist[k.1].accepted;
    var y, b := peers[k].0, peers[k].1;
    LinkMono(s.net, r.1, k, acc, s.nodes[y].hist[b].acked, acc', s'.nodes[y].hist[b].acked);
    ReceiverMono(s'.nodes[y], b, acc, acc');
  }

  /** A unit's call that adds no session packet and keeps both of its ends. */
  lemma UnitKeeps(peers: Peers, s: System, n: nat, r: (Nod, set<Packet>), k: (nat, Slot))
    requires Wf(peers, s) && n in s.nodes && k in peers && SessionOk(peers, s, k)
    requires NodeWf(peers, n, r.0, s.net + r.1)
    requires forall p :: p in r.1 && OfSession(p.hdr) ==> p in s.net
    requires n == k.0 ==>
               && SenderOk(r.0, k.1, peers[k].1)
               && r.0.hist[k.1].accepted == s.nodes[n].hist[k.1].accepted
               && r.0.table.entries[k.1].lastAckd == s.nodes[n].table.entries[k.1].lastAckd
    requires n == peers[k].0 ==>
               && ReceiverOk(r.0, peers[k].1, s.nodes[k.0].hist[k.1].accepted)
               && r.0.hist[peers[k].1].acked == s.nodes[n].hist[peers[k].1].acked
    ensures Wf(peers, Put(s, n, r)) && SessionOk(peers, Put(s, n, r), k)
  {
    PutWf(peers, s, n, r);
    SessionPut(peers, s, n, r, k);
  }

  /** A node change behind which transmit unit and ring are as before. */
  lemma NodeWfFrame(peers: Peers, n: nat, nd: Nod, nd': Nod, net: set<Packet>, net': set<Packet>)
    requires NodeWf(peers, n, nd, net) && net <= net' && RxWf(n, nd', net')
    requires nd'.dram == nd.dram && nd'.destIp == nd.destIp && nd'.table.tx == nd.table.tx
    requires nd'.txPkt == nd.txPkt && nd'.checkReq == nd.checkReq && nd'.finish == nd.finish
    ensures NodeWf(peers, n, nd', net')
  {
    assert TxWf(peers, n, nd');
  }

  lemma RxTouches(n: nat, nd: Nod)
    ensures var nd' := NodeRx(n, nd).0;
            && nd'.dram == nd.dram && nd'.destIp == nd.destIp && nd'.table.tx == nd.table.tx
            && nd'.txPkt == nd.txPkt && nd'.checkReq == nd.checkReq && nd'.finish == nd.finish
  {
  }

  lemma RxPartWf(peers: Peers, s: System, n: nat)
    requires Wf(peers, s) && n in s.nodes
    ensures Wf(peers, RxPart(s, n))
  {
    var nd, r := s.nodes[n], NodeRx(n, s.nodes[n]);
    RxKeepsRxWf(n, nd, s.net);
    forall p | p in r.1 ensures OfSession(p.hdr) ==>
        (p.srcIp, p.hdr.src) in peers && peers[(p.srcIp, p.hdr.src)] == (p.dstIp, p.hdr.dst) {
      ResponseIsReply(peers, n, nd, s.net, p);
    }
    RxTouches(n, nd);
    NodeWfFrame(peers, n, nd, r.0, s.net, s.net + r.1);
    PutWf(peers, s, n, r);
  }

  /** The responses of a receive stage, seen by session k. */
  lemma ResponseLink(peers: Peers, n: nat, nd: Nod, net: set<Packet>, k: (nat, Slot),
                     acc: seq<Frame>, acked: nat)
    requires Sessions(peers) && NetWf(peers, net) && RxWf(n, nd, net) && k in peers
    requires n == peers[k].0 ==>
               forall p :: p in NodeRx(n, nd).1 && p.hdr.src == peers[k].1 ==> p.hdr.seqnum <= acked
    ensures LinkOk(NodeRx(n, nd).1, k, acc, acked)
  {
    forall p | p in NodeRx(n, nd).1 ensures p.hdr.kind != DATA
        && ((p.dstIp, p.hdr.dst) == k ==> p.hdr.seqnum <= acked) {
      ResponseIsReply(peers, n, nd, net, p);
    }
  }

  lemma RxPartKeeps(peers: Peers, s: System, n: nat, k: (nat, Slot))
    requires Wf(peers, s) && n in s.nodes && k in peers && SessionOk(peers, s, k)
    ensures Wf(peers, RxPart(s, n)) && SessionOk(peers, RxPart(s, n), k)
  {
    RxPartWf(peers, s, n);
    var X, Y, b := s.nodes[k.0], s.nodes[peers[k].0], peers[k].1;
    var acc := X.hist[k.1].accepted;
    var r := NodeRx(n, s.nodes[n]);
    if n == k.0 {
      RxKeepsSender(n, X, s.net, k.1, b, Y.hist[b].acked);
    } else if n == peers[k].0 {
      assert NodeRxFrom(Y, b, k);
      RxKeepsReceiver(n, Y, s.net, k, b, acc);
    }
    ResponseLink(peers, n, s.nodes[n], s.net, k, acc, Put(s, n, r).nodes[peers[k].0].hist[b].acked);
    SessionPut(peers, s, n, r, k);
  }

  // ---- transmit stage

  /** The call that hands out a sequence number. */
  predicate Granting(nd: Nod) {
    && nd.table.tx.state == ReplTxReq && nd.txPkt.Some?
    && WindowOpen(nd.table.entries[nd.table.tx.slot].lastAckd, nd.table.tx.lastSent)
  }

  function GrantHeader(nd: Nod): Header
    requires nd.txPkt.Some?
  {
    DataHeader(nd.txPkt.value, Inc(nd.table.tx.lastSent))
  }

  /** Away from a grant, a transmit stage only moves the transmit machine. */
  ghost predicate IdleShape(nd: Nod, r: (Nod, set<Packet>)) {
    && r.0 == nd.(table := nd.table.(tx := r.0.table.tx), checkReq := r.0.checkReq, finish := r.0.finish,
                  timerReq := r.0.timerReq)
    && (r.0.table.tx.state == ReplTxReq && nd.table.tx.state != ReplTxReq ==>
          r.0.table.tx.lastSent == nd.table.entries[r.0.table.tx.slot].lastSent)
    && (r.0.table.tx.state == ReplTxReq && nd.table.tx.state == ReplTxReq ==>
          r.0.table.tx == nd.table.tx.(lastAckd := r.0.table.tx.lastAckd))
    && r.1 == {}
  }

  /** At a grant, the waiting packet is stamped, sent, stored and recorded. */
  ghost predicate GrantShape(n: nat, nd: Nod, r: (Nod, set<Packet>))
    requires Granting(nd)
  {
    var u, h, nd' := nd.txPkt.value, GrantHeader(nd), r.0;
    && h.src == nd.table.tx.slot
    && nd'.table == nd.table.(tx := nd'.table.tx, entries :=
         nd.table.entries[h.src := nd.table.entries[h.src].(lastSent := h.seqnum)])
    && nd'.table.tx.state == UpdTxInfo
    && nd'.dram == Store(nd.dram, h.src, WindowIdx(h.seqnum), h, u.frame)
    && nd'.destIp == nd.destIp[h.src := u.dstIp]
    && nd'.hist == nd.hist[h.src := nd.hist[h.src].(accepted := nd.hist[h.src].accepted + [u.frame],
                                                    fromEmpty := nd'.hist[h.src].fromEmpty)]
    && nd'.rxPkt == nd.rxPkt && nd'.queryReq == nd.queryReq && nd'.queryRsp == nd.queryRsp
    && nd'.retransReq == nd.retransReq && nd'.retrans == nd.retrans
    && r.1 == {Packet(n, u.dstIp, h, u.frame)}
  }

  ghost predicate TxShape(n: nat, nd: Nod, r: (Nod, set<Packet>)) {
    if Granting(nd) then GrantShape(n, nd, r) else IdleShape(nd, r)
  }

  lemma TxHasShape(peers: Peers, n: nat, nd: Nod)
    requires TxWf(peers, n, nd)
    ensures TxWf(peers, n, NodeTx(n, nd).0) && TxShape(n, nd, NodeTx(n, nd))
  {
  }

  lemma TxKeepsRing(peers: Peers, n: nat, nd: Nod, net: set<Packet>, r: (Nod, set<Packet>))
    requires TxWf(peers, n, nd) && RingWf(peers, n, nd, net) && TxShape(n, nd, r)
    ensures RingWf(peers, n, r.0, net + r.1)
  {
    if Granting(nd) {
      var u, h, nd' := nd.txPkt.value, GrantHeader(nd), r.0;
      forall c: Slot, i: nat | i < WINDOW_SIZE ensures
          && SlotOk(nd'.dram, c, i)
          && Load(nd'.dram, c, i) == (if (c, i) == (h.src, WindowIdx(h.seqnum))
                                      then Some((h, u.frame)) else Load(nd.dram, c, i)) {
        if (c, i) == (h.src, WindowIdx(h.seqnum)) {
          LoadAfterStore(nd.dram, c, i, h, u.frame);
        } else {
          LoadFrame(nd.dram, h.src, WindowIdx(h.seqnum), h, u.frame, c, i);
        }
      }
    }
  }

  lemma TxPutWf(peers: Peers, s: System, n: nat, r: (Nod, set<Packet>))
    requires Wf(peers, s) && n in s.nodes && TxShape(n, s.nodes[n], r) && TxWf(peers, n, r.0)
    ensures Wf(peers, Put(s, n, r))
  {
    hide RingWf, Handling;
    TxKeepsRing(peers, n, s.nodes[n], s.net, r);
    PutWf(peers, s, n, r);
  }

  /** Storing packet |acc| + 1 keeps the window's older packets in place. */
  lemma GrantKeepsRing(d: Dram, a: Slot, b: Slot, acc: seq<Frame>, h: Header, f: Frame)
    requires RingHolds(d, a, b, acc) && |acc| + 1 < SEQ_MOD && FrameOk(f)
    requires h == Header(DATA, |acc| + 1, a, b)
    ensures RingHolds(Store(d, a, WindowIdx(h.seqnum), h, f), a, b, acc + [f])
  {
    HoldsAfterStore(d, a, WindowIdx(h.seqnum), h, f);
    forall n: SeqNum | 1 <= n <= |acc| && |acc| + 1 < n + WINDOW_SIZE
      ensures Holds(Store(d, a, WindowIdx(h.seqnum), h, f), a, WindowIdx(n), Header(DATA, n, a, b), acc[n - 1])
    {
      assert WindowIdx(n) != WindowIdx(h.seqnum);
      HoldsFrame(d, a, WindowIdx(h.seqnum), h, f, a, WindowIdx(n), Header(DATA, n, a, b), acc[n - 1]);
    }
  }

  /** Storing a packet of another slot keeps this slot's ring. */
  lemma OtherGrantKeepsRing(d: Dram, a: Slot, b: Slot, acc: seq<Frame>, c: Slot, h: Header, f: Frame)
    requires RingHolds(d, a, b, acc) && c != a && FrameOk(f)
    ensures RingHolds(Store(d, c, WindowIdx(h.seqnum), h, f), a, b, acc)
  {
    forall n: SeqNum | 1 <= n <= |acc| && |acc| < n + WINDOW_SIZE
      ensures Holds(Store(d, c, WindowIdx(h.seqnum), h, f), a, WindowIdx(n), Header(DATA, n, a, b), acc[n - 1])
    {
      HoldsFrame(d, c, WindowIdx(h.seqnum), h, f, a, WindowIdx(n), Header(DATA, n, a, b), acc[n - 1]);
    }
  }

  /** The grant of a's own packet, on the fields the sending side reads. */
  lemma SenderGrant(nd: Nod, nd': Nod, a: Slot, b: Slot, f: Frame)
    requires SenderOk(nd, a, b) && |nd.hist[a].accepted| + 1 < SEQ_MOD - 1
    requires WindowOpen(nd.table.entries[a].lastAckd, nd.table.entries[a].lastSent)
    requires nd'.hist[a].accepted == nd.hist[a].accepted + [f]
    requires RingHolds(nd'.dram, a, b, nd'.hist[a].accepted)
    requires nd'.table.entries[a].lastAckd == nd.table.entries[a].lastAckd
    requires nd'.table.entries[a].lastSent == nd.table.entries[a].lastSent + 1
    requires nd'.table.tx.state != ReplTxReq && nd'.table.rx == nd.table.rx
    requires nd'.retransReq == nd.retransReq && nd'.retrans == nd.retrans
    ensures SenderOk(nd', a, b)
  {
    forall r | r in nd'.retransReq ensures ReqOk(r, a, |nd'.hist[a].accepted|) {
      assert ReqOk(r, a, |nd.hist[a].accepted|);
    }
  }

  lemma TxGrantKeepsSender(n: nat, nd: Nod, a: Slot, b: Slot, r: (Nod, set<Packet>))
    requires Granting(nd) && GrantShape(n, nd, r) && SenderOk(nd, a, b)
    requires GrantHeader(nd).src == a ==> GrantHeader(nd).dst == b
    requires |r.0.hist[a].accepted| < SEQ_MOD - 1
    ensures SenderOk(r.0, a, b)
  {
    var h, f, acc := GrantHeader(nd), nd.txPkt.value.frame, nd.hist[a].accepted;
    if h.src == a {
      GrantKeepsRing(nd.dram, a, b, acc, h, f);
      SenderGrant(nd, r.0, a, b, f);
    } else {
      OtherGrantKeepsRing(nd.dram, a, b, acc, h.src, h, f);
      SenderFrame(nd, r.0, a, b);
    }
  }

  lemma TxKeepsSender(peers: Peers, n: nat, nd: Nod, net: set<Packet>, a: Slot, r: (Nod, set<Packet>))
    requires Sessions(peers) && NodeWf(peers, n, nd, net) && (n, a) in peers && TxShape(n, nd, r)
    requires SenderOk(nd, a, peers[(n, a)].1) && |r.0.hist[a].accepted| < SEQ_MOD - 1
    ensures SenderOk(r.0, a, peers[(n, a)].1)
  {
    var b := peers[(n, a)].1;
    if Granting(nd) {
      TxGrantKeepsSender(n, nd, a, b, r);
    } else {
      SenderFrame(nd, r.0, a, b);
    }
  }

  lemma TxKeepsReceiver(n: nat, nd: Nod, b: Slot, acc: seq<Frame>, r: (Nod, set<Packet>))
    requires ReceiverOk(nd, b, acc) && TxShape(n, nd, r)
    ensures ReceiverOk(r.0, b, acc) && r.0.hist[b].acked == nd.hist[b].acked
  {
    ReceiverFrame(nd, r.0, b, acc);
  }

  /** What a transmit stage sends, seen by session k. */
  lemma GrantLink(peers: Peers, n: nat, nd: Nod, k: (nat, Slot), acc: seq<Frame>, acked: nat, r: (Nod, set<Packet>))
    requires Sessions(peers) && k in peers && TxWf(peers, n, nd) && TxShape(n, nd, r)
    requires n == k.0 ==> SenderOk(nd, k.1, peers[k].1) && acc == r.0.hist[k.1].accepted
    ensures LinkOk(r.1, k, acc, acked)
  {
  }

  lemma TxPutKeeps(peers: Peers, s: System, n: nat, k: (nat, Slot), r: (Nod, set<Packet>))
    requires Wf(peers, s) && n in s.nodes && k in peers && SessionOk(peers, s, k)
    requires TxShape(n, s.nodes[n], r) && Wf(peers, Put(s, n, r))
    requires |Put(s, n, r).nodes[k.0].hist[k.1].accepted| < SEQ_MOD - 1
    ensures SessionOk(peers, Put(s, n, r), k)
  {
    var X, Y, b := s.nodes[k.0], s.nodes[peers[k].0], peers[k].1;
    var s' := Put(s, n, r);
    if n == k.0 {
      TxKeepsSender(peers, n, X, s.net, k.1, r);
    } else if n == peers[k].0 {
      TxKeepsReceiver(n, Y, b, X.hist[k.1].accepted, r);
    }
    GrantLink(peers, n, s.nodes[n], k, s'.nodes[k.0].hist[k.1].accepted, s'.nodes[peers[k].0].hist[b].acked, r);
    SessionPut(peers, s, n, r, k);
  }

  lemma TxPartKeeps(peers: Peers, s: System, n: nat, k: (nat, Slot))
    requires Wf(peers, s) && n in s.nodes && k in peers && SessionOk(peers, s, k)
    requires |TxPart(s, n).nodes[k.0].hist[k.1].accepted| < SEQ_MOD - 1
    ensures Wf(peers, TxPart(s, n)) && SessionOk(peers, TxPart(s, n), k)
  {
    TxHasShape(peers, n, s.nodes[n]);
    TxPutWf(peers, s, n, NodeTx(n, s.nodes[n]));
    TxPutKeeps(peers, s, n, k, NodeTx(n, s.nodes[n]));
  }

  // ---- timeout and set-up stages

  lemma SetupKeepsSender(nd: Nod, a: Slot, b: Slot, timeout: Option<Slot>, conn: Option<ConnReq>)
    requires SenderOk(nd, a, b) && (conn.Some? ==> conn.value.slot != a)
    ensures SenderOk(NodeSetup(nd, timeout, conn), a, b)
  {
    var nd1 := NodeSetup(nd, timeout, None);
    assert timeout.Some? ==> ReqOk(TimeoutReq(nd.table, timeout.value), a, |nd.hist[a].accepted|);
    assert SenderOk(nd1, a, b);
    SenderFrame(nd1, NodeSetup(nd, timeout, conn), a, b);
  }

  lemma SetupKeepsReceiver(nd: Nod, b: Slot, acc: seq<Frame>, timeout: Option<Slot>, conn: Option<ConnReq>)
    requires ReceiverOk(nd, b, acc) && (conn.Some? ==> conn.value.slot != b)
    ensures ReceiverOk(NodeSetup(nd, timeout, conn), b, acc)
  {
    ReceiverFrame(nd, NodeSetup(nd, timeout, conn), b, acc);
  }

  lemma SetupKeeps(peers: Peers, s: System, n: nat, k: (nat, Slot), timeout: Option<Slot>, conn: Option<ConnReq>)
    requires Wf(peers, s) && n in s.nodes && k in peers && SessionOk(peers, s, k)
    requires conn.Some? ==> (n, conn.value.slot) !in peers
    ensures var s' := Put(s, n, (NodeSetup(s.nodes[n], timeout, conn), {}));
            Wf(peers, s') && SessionOk(peers, s', k)
  {
    hide RingWf, TxWf, NetWf, LinkOk, RingHolds, Handling, SenderOk, ReceiverOk;
    var nd, nd' := s.nodes[n], NodeSetup(s.nodes[n], timeout, conn);
    NodeWfFrame(peers, n, nd, nd', s.net, s.net + {});
    if n == k.0 {
      SetupKeepsSender(nd, k.1, peers[k].1, timeout, conn);
    } else if n == peers[k].0 {
      assert peers[k] in peers;
      SetupKeepsReceiver(nd, peers[k].1, s.nodes[k.0].hist[k.1].accepted, timeout, conn);
    }
    UnitKeeps(peers, s, n, (nd', {}), k);
  }

  // ---- the receive, transmit and retransmit units

  /** Reading a verdict moves a pending frame to the delivered ones. */
  lemma VerdictKeepsReceiver(n: nat, nd: Nod, net: set<Packet>, b: Slot, acc: seq<Frame>)
    requires RxWf(n, nd, net) && ReceiverOk(nd, b, acc)
    ensures ReceiverOk(NodeVerdict(nd), b, acc) && NodeVerdict(nd).hist[b].acked == nd.hist[b].acked
  {
    var nd' := NodeVerdict(nd);
    assert nd'.hist[b].delivered + Pending(nd', b) == nd.hist[b].delivered + Pending(nd, b);
  }

  lemma VerdictTouches(n: nat, nd: Nod, net: set<Packet>)
    requires RxWf(n, nd, net)
    ensures var nd' := NodeVerdict(nd);
            && RxWf(n, nd', net)
            && nd' == nd.(rxPkt := nd'.rxPkt, queryRsp := nd'.queryRsp, hist := nd'.hist, control := nd'.control)
            && forall a: Slot :: nd'.hist[a].accepted == nd.hist[a].accepted
  {
  }

  lemma VerdictKeeps(peers: Peers, s: System, n: nat, k: (nat, Slot))
    requires Wf(peers, s) && n in s.nodes && k in peers && SessionOk(peers, s, k)
    ensures var s' := Put(s, n, (NodeVerdict(s.nodes[n]), {}));
            Wf(peers, s') && SessionOk(peers, s', k)
  {
    hide RingWf, TxWf, NetWf, LinkOk, RingHolds, Handling;
    var nd, nd' := s.nodes[n], NodeVerdict(s.nodes[n]);
    VerdictTouches(n, nd, s.net);
    assert s.net + {} == s.net;
    NodeWfFrame(peers, n, nd, nd', s.net, s.net + {});
    if n == k.0 {
      SenderFrame(nd, nd', k.1, peers[k].1);
    } else if n == peers[k].0 {
      VerdictKeepsReceiver(n, nd, s.net, peers[k].1, s.nodes[k.0].hist[k.1].accepted);
    }
    UnitKeeps(peers, s, n, (nd', {}), k);
  }

  /** A node change that leaves table, history, ring and retransmissions alone
      keeps both sides. */
  lemma QuietKeeps(peers: Peers, s: System, n: nat, r: (Nod, set<Packet>), k: (nat, Slot))
    requires Wf(peers, s) && n in s.nodes && k in peers && SessionOk(peers, s, k)
    requires NodeWf(peers, n, r.0, s.net + r.1)
    requires forall p :: p in r.1 && OfSession(p.hdr) ==> p in s.net
    requires var nd, nd' := s.nodes[n], r.0;
             && nd'.table == nd.table && nd'.hist == nd.hist && nd'.dram == nd.dram
             && nd'.retransReq == nd.retransReq && nd'.retrans == nd.retrans
             && nd'.queryRsp == nd.queryRsp && (nd'.rxPkt == nd.rxPkt || nd.queryRsp == [])
    ensures Wf(peers, Put(s, n, r)) && SessionOk(peers, Put(s, n, r), k)
  {
    var nd := s.nodes[n];
    if n == k.0 {
      SenderFrame(nd, r.0, k.1, peers[k].1);
    } else if n == peers[k].0 {
      ReceiverFrame(nd, r.0, peers[k].1, s.nodes[k.0].hist[k.1].accepted);
    }
    UnitKeeps(peers, s, n, r, k);
  }

  lemma SubmitWf(peers: Peers, n: nat, nd: Nod, net: set<Packet>, u: User)
    requires NodeWf(peers, n, nd, net) && nd.txPkt.None?
    requires (n, u.SrcSlot()) in peers && peers[(n, u.SrcSlot())] == (u.dstIp, u.DstSlot())
    ensures NodeWf(peers, n, nd.(txPkt := Some(u), checkReq := nd.checkReq + [u.SrcSlot()]), net)
  {
    var nd' := nd.(txPkt := Some(u), checkReq := nd.checkReq + [u.SrcSlot()]);
    assert nd'.checkReq == [u.SrcSlot()];
    assert RingWf(peers, n, nd', net);
  }

  lemma PortsAreSlots(u: User)
    requires u.srcPort < NR_SESSIONS && u.dstPort < NR_SESSIONS
    ensures u.SrcSlot() == u.srcPort && u.DstSlot() == u.dstPort
  {
  }

  /** Connection management: sent at once, outside every session. */
  lemma ManagementKeeps(peers: Peers, s: System, n: nat, p: Packet, k: (nat, Slot))
    requires Wf(peers, s) && n in s.nodes && k in peers && SessionOk(peers, s, k)
    requires !OfSession(p.hdr)
    ensures Wf(peers, Put(s, n, (s.nodes[n], {p}))) && SessionOk(peers, Put(s, n, (s.nodes[n], {p})), k)
  {
    NodeWfMono(peers, n, s.nodes[n], s.net, s.net + {p});
    QuietKeeps(peers, s, n, (s.nodes[n], {p}), k);
  }

  lemma QueueKeeps(peers: Peers, s: System, n: nat, nd': Nod, u: User, k: (nat, Slot))
    requires Wf(peers, s) && n in s.nodes && k in peers && SessionOk(peers, s, k)
    requires s.nodes[n].txPkt.None?
    requires nd' == s.nodes[n].(txPkt := Some(u), checkReq := s.nodes[n].checkReq + [u.SrcSlot()])
    requires (n, u.SrcSlot()) in peers && peers[(n, u.SrcSlot())] == (u.dstIp, u.DstSlot())
    ensures Wf(peers, Put(s, n, (nd', {}))) && SessionOk(peers, Put(s, n, (nd', {})), k)
  {
    SubmitWf(peers, n, s.nodes[n], s.net, u);
    assert s.net + {} == s.net;
    QuietKeeps(peers, s, n, (nd', {}), k);
  }

  lemma SubmitKeeps(peers: Peers, s: System, n: nat, u: User, k: (nat, Slot))
    requires Wf(peers, s) && n in s.nodes && k in peers && SessionOk(peers, s, k)
    requires Allowed(peers, s, Submit(n, u))
    ensures Wf(peers, SubmitPart(s, n, u)) && SessionOk(peers, SubmitPart(s, n, u), k)
  {
    var nd := s.nodes[n];
    PortsAreSlots(u);
    if nd.txPkt.Some? {
    } else if u.srcPort > 0 && u.dstPort > 0 {
      QueueKeeps(peers, s, n, nd.(txPkt := Some(u), checkReq := nd.checkReq + [u.SrcSlot()]), u, k);
    } else {
      ManagementKeeps(peers, s, n, Packet(n, u.dstIp, DataHeader(u, 0), u.frame), k);
    }
  }

  lemma TakeKeeps(peers: Peers, s: System, n: nat, nd': Nod, p: Packet, k: (nat, Slot))
    requires Wf(peers, s) && n in s.nodes && k in peers && SessionOk(peers, s, k)
    requires s.nodes[n].rxPkt.None? && p in s.net && (p.dstIp == n || IsBroadcast(p.dstIp))
    requires nd' == s.nodes[n].(rxPkt := Some(p), queryReq := s.nodes[n].queryReq + [QueryOf(p)])
    ensures Wf(peers, Put(s, n, (nd', {}))) && SessionOk(peers, Put(s, n, (nd', {})), k)
  {
    assert RxWf(n, s.nodes[n], s.net);
    assert nd'.queryReq == [QueryOf(p)];
    NodeWfFrame(peers, n, s.nodes[n], nd', s.net, s.net + {});
    QuietKeeps(peers, s, n, (nd', {}), k);
  }

  lemma ReceiveKeeps(peers: Peers, s: System, n: nat, p: Packet, k: (nat, Slot))
    requires Wf(peers, s) && n in s.nodes && k in peers && SessionOk(peers, s, k)
    ensures Wf(peers, ReceivePart(s, n, p)) && SessionOk(peers, ReceivePart(s, n, p), k)
  {
    var nd := s.nodes[n];
    if nd.rxPkt.None? && p in s.net && (p.dstIp == n || IsBroadcast(p.dstIp)) {
      TakeKeeps(peers, s, n, nd.(rxPkt := Some(p), queryReq := nd.queryReq + [QueryOf(p)]), p, k);
    }
  }

  /** Retransmitting sends only what was sent before. */
  lemma RetransSends(peers: Peers, n: nat, nd: Nod, net: set<Packet>)
    requires RingWf(peers, n, nd, net)
    ensures NodeRetrans(n, nd).1 <= net
  {
  }

  lemma RetransTouches(n: nat, nd: Nod)
    ensures var nd' := NodeRetrans(n, nd).0;
            nd' == nd.(retransReq := nd'.retransReq, retrans := nd'.retrans)
  {
  }

  lemma RetransKeepsSender(n: nat, nd: Nod, a: Slot, b: Slot)
    requires SenderOk(nd, a, b)
    ensures SenderOk(NodeRetrans(n, nd).0, a, b)
  {
    var nd' := NodeRetrans(n, nd).0;
    assert forall r :: r in nd'.retransReq ==> r in nd.retransReq;
    RetransTouches(n, nd);
  }

  lemma RetransKeeps(peers: Peers, s: System, n: nat, k: (nat, Slot))
    requires Wf(peers, s) && n in s.nodes && k in peers && SessionOk(peers, s, k)
    ensures var s' := Put(s, n, NodeRetrans(n, s.nodes[n]));
            Wf(peers, s') && SessionOk(peers, s', k)
  {
    var nd, r := s.nodes[n], NodeRetrans(n, s.nodes[n]);
    RetransSends(peers, n, nd, s.net);
    RetransTouches(n, nd);
    NodeWfFrame(peers, n, nd, r.0, s.net, s.net + r.1);
    if n == k.0 {
      RetransKeepsSender(n, nd, k.1, peers[k].1);
    } else if n == peers[k].0 {
      ReceiverFrame(nd, r.0, peers[k].1, s.nodes[k.0].hist[k.1].accepted);
    }
    UnitKeeps(peers, s, n, r, k);
  }

  lemma SetupTouches(nd: Nod, timeout: Option<Slot>, conn: Option<ConnReq>)
    ensures NodeSetup(nd, timeout, conn).hist == nd.hist
  {
  }

  lemma TableKeeps(peers: Peers, s: System, n: nat, k: (nat, Slot), timeout: Option<Slot>, conn: Option<ConnReq>)
    requires Wf(peers, s) && n in s.nodes && k in peers && SessionOk(peers, s, k)
    requires conn.Some? ==> (n, conn.value.slot) !in peers
    requires |TablePart(s, n, timeout, conn).nodes[k.0].hist[k.1].accepted| < SEQ_MOD - 1
    ensures Wf(peers, TablePart(s, n, timeout, conn)) && SessionOk(peers, TablePart(s, n, timeout, conn), k)
  {
    RxPartKeeps(peers, s, n, k);
    var s1 := RxPart(s, n);
    SetupTouches(TxPart(s1, n).nodes[n], timeout, conn);
    TxPartKeeps(peers, s1, n, k);
    SetupKeeps(peers, TxPart(s1, n), n, k, timeout, conn);
  }

  // ---- growth of the histories

  lemma NodesGrow(n: nat, nd: Nod, a: Slot)
    ensures nd.hist[a].accepted <= NodeRx(n, nd).0.hist[a].accepted
    ensures nd.hist[a].accepted <= NodeVerdict(nd).hist[a].accepted
    ensures nd.hist[a].accepted <= NodeRetrans(n, nd).0.hist[a].accepted
  {
  }

  lemma TxGrows(n: nat, nd: Nod, a: Slot)
    ensures nd.hist[a].accepted <= NodeTx(n, nd).0.hist[a].accepted
  {
  }

  lemma TableGrows(s: System, n: nat, timeout: Option<Slot>, conn: Option<ConnReq>, k: (nat, Slot))
    requires n in s.nodes && k.0 in s.nodes
    ensures k.0 in TablePart(s, n, timeout, conn).nodes
    ensures s.nodes[k.0].hist[k.1].accepted <= TablePart(s, n, timeout, conn).nodes[k.0].hist[k.1].accepted
  {
    NodesGrow(n, s.nodes[n], k.1);
    TxGrows(n, RxPart(s, n).nodes[n], k.1);
    SetupTouches(TxPart(RxPart(s, n), n).nodes[n], timeout, conn);
  }

  // ---- what the two ends' predicates say

  lemma ReceiverPrefix(nd: Nod, b: Slot, acc: seq<Frame>)
    requires ReceiverOk(nd, b, acc)
    ensures nd.hist[b].delivered <= acc
    ensures nd.table.entries[b].expected - 1 - |nd.hist[b].delivered| == |Pending(nd, b)|
  {
    var d, upto := nd.hist[b].delivered, acc[..nd.table.entries[b].expected - 1];
    assert d == (d + Pending(nd, b))[..|d|] == upto[..|d|] == acc[..|d|];
  }

  lemma LinkFaithful(peers: Peers, net: set<Packet>, k: (nat, Slot), acc: seq<Frame>, acked: nat, p: Packet)
    requires Sessions(peers) && NetWf(peers, net) && LinkOk(net, k, acc, acked) && k in peers
    requires p in net && OfSession(p.hdr) && p.hdr.kind == DATA
    requires (p.srcIp, p.hdr.src) == k || (p.dstIp, p.hdr.dst) == peers[k]
    ensures (p.srcIp, p.hdr.src) == k && (p.dstIp, p.hdr.dst) == peers[k]
    ensures 1 <= p.hdr.seqnum <= |acc| && p.frame == acc[p.hdr.seqnum - 1]
  {
    var from := (p.srcIp, p.hdr.src);
    assert from in peers && peers[from] == (p.dstIp, p.hdr.dst);
    assert peers[peers[from]] == from && peers[peers[k]] == k;
  }
}
