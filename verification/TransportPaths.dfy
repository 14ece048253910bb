/** The way of a packet through a node, call by call, in every reachable state: from the
    user to the network and from the network to the user. */
module TransportPaths {
  import opened Options
  import opened GbnTypes
  import opened StateTable
  import opened RingStore
  import opened Transport
  import opened TransportInv
  import opened TransportLog
  import opened TransportTheorems
  import opened TransportAnswers

  // ---- from the user to the network

  /** Nothing is accepted from k, and the waiting packet, if any, waits. */
  ghost predicate Waits(nd: Nod, nd': Nod, a: Slot) {
    nd'.txPkt == nd.txPkt && nd'.hist[a].accepted == nd.hist[a].accepted
  }

  /** The transmit machine's call for the waiting packet u of slot a at node n. */
  ghost predicate Transmits(n: nat, nd: Nod, r: (Nod, set<Packet>), u: User) {
    var a, acc, nd' := u.SrcSlot(), nd.hist[u.SrcSlot()].accepted, r.0;
    match nd.table.tx.state
    case RecvTxReq => Waits(nd, nd', a) && Sending(nd', a, ReplTxReq)
    case UpdTxInfo => Waits(nd, nd', a) && nd'.table.tx.state == RecvTxReq
    case ReplTxReq =>
      if nd.table.entries[a].lastAckd + WINDOW_SIZE > |acc| then
        && nd'.txPkt == None && Sending(nd', a, UpdTxInfo) && nd'.hist[a].accepted == acc + [u.frame]
        && r.1 == {Packet(n, u.dstIp, Header(DATA, (|acc| + 1) % SEQ_MOD, a, u.DstSlot()), u.frame)}
        && (nd'.hist[a].fromEmpty <==> nd.table.entries[a].lastAckd == |acc|)
      else Waits(nd, nd', a) && Sending(nd', a, ReplTxReq)
  }

  lemma TransmitStep(peers: Peers, n: nat, nd: Nod, u: User, b: Slot)
    requires TxWf(peers, n, nd) && nd.txPkt == Some(u) && SenderOk(nd, u.SrcSlot(), b)
    ensures Transmits(n, nd, NodeTx(n, nd), u)
  {
    hide Store, RingHolds;
  }

  /** What the transmit stage of k's node meets. */
  lemma AfterReceive(peers: Peers, s: System, k: (nat, Slot))
    requires Reachable(peers, s, k)
    ensures var X, X1 := s.nodes[k.0], NodeRx(k.0, s.nodes[k.0]).0;
            && TxWf(peers, k.0, X1) && SenderOk(X1, k.1, peers[k].1) && |X1.hist[k.1].accepted| < SEQ_MOD - 1
            && X1.txPkt == X.txPkt && X1.table.tx == X.table.tx && X1.hist[k.1].accepted == X.hist[k.1].accepted
            && (X.txPkt.Some? && X.txPkt.value.SrcSlot() == k.1 ==>
                peers[k] == (X.txPkt.value.dstIp, X.txPkt.value.DstSlot()))
  {
    hide Initial, AllowedRun, Run, NodeRx, RingHolds, ReceiverOk, LinkOk, RingWf, RxWf;
    Invariant(peers, s, k);
    RxPartKeeps(peers, s, k.0, k);
    assert NodeWf(peers, k.0, RxPart(s, k.0).nodes[k.0], RxPart(s, k.0).net);
    RxTouches(k.0, s.nodes[k.0]);
    RxKeepsAccepted(k.0, s.nodes[k.0], k.1);
  }

  lemma StageNet(s: System, n: nat, timeout: Option<Slot>, conn: Option<ConnReq>)
    requires n in s.nodes
    ensures NodeTx(n, NodeRx(n, s.nodes[n]).0).1 <= Step(s, TableCall(n, timeout, conn)).net
  {
    hide NodeRx, NodeTx, NodeSetup;
  }

  /** Every table call moves a waiting packet of the session on: it is looked up, then
      accepted as soon as fewer than a window's worth are unacknowledged, under the next
      number and onto the network, and the one before it is finished first. */
  lemma TransmitMoves(peers: Peers, s: System, k: (nat, Slot), u: User, timeout: Option<Slot>, conn: Option<ConnReq>)
    requires Called(peers, s, k, timeout, conn) && s.nodes[k.0].txPkt == Some(u) && u.SrcSlot() == k.1
    ensures var s' := Step(s, TableCall(k.0, timeout, conn));
            var X, X', e := s.nodes[k.0], s'.nodes[k.0], s'.nodes[k.0].table.entries[k.1];
            var acc := X.hist[k.1].accepted;
            match X.table.tx.state
            case RecvTxReq => Waits(X, X', k.1) && Sending(X', k.1, ReplTxReq)
            case UpdTxInfo => Waits(X, X', k.1) && X'.table.tx.state == RecvTxReq
            case ReplTxReq =>
              if e.lastAckd + WINDOW_SIZE > |acc| then
                && X'.txPkt == None && Sending(X', k.1, UpdTxInfo) && X'.hist[k.1].accepted == acc + [u.frame]
                && |acc| + 1 < SEQ_MOD
                && Packet(k.0, peers[k].0, Header(DATA, |acc| + 1, k.1, peers[k].1), u.frame) in s'.net
                && (X'.hist[k.1].fromEmpty <==> e.lastAckd == |acc|)
              else Waits(X, X', k.1) && Sending(X', k.1, ReplTxReq)
  {
    hide Reachable, NodeRx, NodeTx, NodeSetup, SenderOk, TxWf, Step;
    AfterReceive(peers, s, k);
    CalledFacts(peers, s, k, timeout, conn);
    var X1 := NodeRx(k.0, s.nodes[k.0]).0;
    TransmitStep(peers, k.0, X1, u, peers[k].1);
    var X2 := NodeTx(k.0, X1).0;
    Stages(s, k.0, timeout, conn);
    StageNet(s, k.0, timeout, conn);
    TxAsks(k.0, X1, k.1);
    SetupQuiet(X2, timeout, conn);
    SetupFrame(X2, k.1, timeout, conn);
    SetupPackets(X2, timeout, conn);
  }

  lemma CalledFacts(peers: Peers, s: System, k: (nat, Slot), timeout: Option<Slot>, conn: Option<ConnReq>)
    requires Called(peers, s, k, timeout, conn)
    ensures k in peers && k.0 in s.nodes && (conn.Some? ==> conn.value.slot != k.1)
  {
  }

  lemma SetupPackets(nd: Nod, timeout: Option<Slot>, conn: Option<ConnReq>)
    ensures NodeSetup(nd, timeout, conn).txPkt == nd.txPkt && NodeSetup(nd, timeout, conn).rxPkt == nd.rxPkt
    ensures NodeSetup(nd, timeout, conn).queryReq == nd.queryReq && NodeSetup(nd, timeout, conn).queryRsp == nd.queryRsp
    ensures NodeSetup(nd, timeout, conn).table.rx == nd.table.rx && NodeSetup(nd, timeout, conn).control == nd.control
  {
  }

  // ---- from the network to the user

  /** The table keeps a record about the session of such a packet. */
  predicate Tracked(p: Packet) {
    OfSession(p.hdr) && !IsBroadcast(p.dstIp) && (p.hdr.kind == DATA || p.hdr.kind == ACK || p.hdr.kind == NACK)
  }

  /** Connection management that is for the user. */
  predicate Managed(p: Packet) { !OfSession(p.hdr) && !IsBroadcast(p.dstIp) && p.hdr.kind == DATA }

  /** A packet the table was asked about: its session is looked up, or it is judged at once. */
  lemma AskedStep(n: nat, nd: Nod, p: Packet)
    requires nd.queryReq == [QueryOf(p)] && nd.queryRsp == [] && nd.table.rx.state == RecvRxReq
    ensures var nd' := NodeRx(n, nd).0;
            && nd'.rxPkt == nd.rxPkt && nd'.control == nd.control && nd'.queryReq == [] && nd'.hist == nd.hist
            && nd'.queryRsp == (if Tracked(p) then [] else [Managed(p)])
            && (Tracked(p) ==> nd'.table.rx.query == QueryOf(p)
                               && nd'.table.rx.state == (if p.hdr.kind == DATA then HandleData else HandleAck))
  {
    hide RxData, RxAck;
    assert [] + [Managed(p)] == [Managed(p)];
  }

  lemma DataVerdict(t: Tab)
    requires t.rx.state == HandleData
    ensures RxStep(t, None).1.verdict == Some(t.rx.query.hdr.seqnum == t.rx.expt)
  {
    hide RxAck, RxRecv;
  }

  lemma AckVerdict(t: Tab)
    requires t.rx.state == HandleAck
    ensures RxStep(t, None).1.verdict == Some(false)
  {
    hide RxData, RxRecv;
  }

  lemma HandledStep(n: nat, nd: Nod)
    requires nd.queryReq == [] && nd.queryRsp == [] && nd.table.rx.state != RecvRxReq
    ensures var nd' := NodeRx(n, nd).0;
            && nd'.rxPkt == nd.rxPkt && nd'.control == nd.control && nd'.queryReq == []
            && nd'.queryRsp == [nd.table.rx.state == HandleData && nd.table.rx.query.hdr.seqnum == nd.table.rx.expt]
  {
    hide LogRx, RxStep;
    if nd.table.rx.state == HandleData {
      DataVerdict(nd.table);
    } else {
      AckVerdict(nd.table);
    }
    assert forall v: bool :: [] + [v] == [v];
  }

  lemma TxPackets(n: nat, nd: Nod)
    ensures var nd' := NodeTx(n, nd).0;
            && nd'.rxPkt == nd.rxPkt && nd'.queryReq == nd.queryReq && nd'.queryRsp == nd.queryRsp
            && nd'.table.rx == nd.table.rx && nd'.control == nd.control
            && forall b: Slot :: nd'.hist[b].delivered == nd.hist[b].delivered
  {
    hide Store;
  }

  lemma RxDelivered(n: nat, nd: Nod, b: Slot)
    ensures NodeRx(n, nd).0.hist[b].delivered == nd.hist[b].delivered
  {
    hide RxStep;
  }

  /** Node n is at most two table calls from judging p. */
  ghost predicate AtTable(nd: Nod, p: Packet) { nd.rxPkt == Some(p) && nd.queryRsp == [] }

  /** Node n after a table call in a system with session end k; if p is tracked, it is a
      packet of that session. */
  ghost predicate Receiving(peers: Peers, s: System, k: (nat, Slot), n: nat, p: Packet, conn: Option<ConnReq>) {
    && Reachable(peers, s, k) && n in s.nodes && Allowed(peers, s, TableCall(n, None, conn)) && AtTable(s.nodes[n], p)
    && (OfSession(p.hdr) ==> (p.srcIp, p.hdr.src) == k)
  }

  lemma ReceivingFacts(peers: Peers, s: System, k: (nat, Slot), n: nat, p: Packet, conn: Option<ConnReq>)
    requires Receiving(peers, s, k, n, p, conn)
    ensures var nd := s.nodes[n];
            || (nd.queryReq == [QueryOf(p)] && nd.table.rx.state == RecvRxReq)
            || (nd.queryReq == [] && Handling(n, nd.table.rx, p))
    ensures var nd := s.nodes[n];
            nd.queryReq == [] && p.hdr.kind == DATA ==> nd.table.rx.expt == |nd.hist[p.hdr.dst].delivered| + 1
  {
    hide Initial, AllowedRun, Run, NodeRx, RingHolds, RingWf, TxWf, LinkOk, SenderOk;
    Invariant(peers, s, k);
    var nd := s.nodes[n];
    assert NodeWf(peers, n, nd, s.net);
    if nd.queryReq == [] && p.hdr.kind == DATA {
      assert p in s.net && peers[k] == (n, p.hdr.dst);
      assert Pending(nd, p.hdr.dst) == [];
    }
  }

  /** A table call moves the packet at the table on: one that is not tracked is judged at
      once, passed on exactly if it is management for the user; one that is tracked is
      looked up first, and then judged: passed on exactly if it is the data packet whose
      turn it is. */
  lemma TableJudges(peers: Peers, s: System, k: (nat, Slot), n: nat, p: Packet, timeout: Option<Slot>,
                    conn: Option<ConnReq>)
    requires Receiving(peers, s, k, n, p, conn)
    ensures var nd, nd' := s.nodes[n], Step(s, TableCall(n, timeout, conn)).nodes[n];
            && nd'.rxPkt == Some(p) && nd'.control == nd.control
            && (forall b: Slot :: nd'.hist[b].delivered == nd.hist[b].delivered)
            && nd'.queryReq == []
            && nd'.queryRsp == if nd.queryReq == [] then
                 [p.hdr.kind == DATA && p.hdr.seqnum == |nd.hist[p.hdr.dst].delivered| + 1]
               else if Tracked(p) then [] else [Managed(p)]
  {
    hide Reachable, Allowed, NodeRx, NodeTx, NodeSetup, Step, Tracked, Managed;
    ReceivingFacts(peers, s, k, n, p, conn);
    var nd := s.nodes[n];
    var nd1 := NodeRx(n, nd).0;
    if nd.queryReq != [] {
      AskedStep(n, nd, p);
    } else {
      HandledStep(n, nd);
    }
    var nd2 := NodeTx(n, nd1).0;
    Stages(s, n, timeout, conn);
    TxPackets(n, nd1);
    SetupPackets(nd2, timeout, conn);
    SetupQuiet(nd2, timeout, conn);
    forall b: Slot ensures NodeSetup(nd2, timeout, conn).hist[b].delivered == nd.hist[b].delivered {
      RxDelivered(n, nd, b);
    }
  }

  lemma VerdictRead(nd: Nod, p: Packet, v: bool)
    requires nd.rxPkt == Some(p) && nd.queryRsp == [v]
    ensures var nd', b := NodeVerdict(nd), p.hdr.dst;
            && nd'.rxPkt == None && nd'.queryRsp == []
            && nd'.control == nd.control + (if v && !OfSession(p.hdr) then [p] else [])
            && nd'.hist[b].delivered == nd.hist[b].delivered + (if v && OfSession(p.hdr) then [p.frame] else [])
  {
  }

  lemma VerdictStep(s: System, n: nat)
    requires n in s.nodes
    ensures Step(s, ReadVerdict(n)).nodes[n] == NodeVerdict(s.nodes[n])
  {
  }

  lemma IdleStreams(peers: Peers, s: System, n: nat)
    requires Wf(peers, s) && n in s.nodes && s.nodes[n].rxPkt.None?
    ensures s.nodes[n].queryReq == [] && s.nodes[n].queryRsp == []
  {
    assert NodeWf(peers, n, s.nodes[n], s.net);
  }

  /** Taking a packet off the network asks the table about it. */
  lemma Taken(peers: Peers, s: System, k: (nat, Slot), n: nat, p: Packet)
    requires Reachable(peers, s, k) && n in s.nodes && s.nodes[n].rxPkt.None?
    requires p in s.net && (p.dstIp == n || IsBroadcast(p.dstIp))
    ensures var s1 := Step(s, Receive(n, p));
            && Reachable(peers, s1, k) && s1.nodes.Keys == s.nodes.Keys
            && s1.nodes[n] == s.nodes[n].(rxPkt := Some(p), queryReq := [QueryOf(p)]) && AtTable(s1.nodes[n], p)
  {
    hide Initial, AllowedRun, Run, SessionOk, RingWf, TxWf;
    Invariant(peers, s, k);
    IdleStreams(peers, s, n);
    hide Wf;
    assert [] + [QueryOf(p)] == [QueryOf(p)];
    StepReachable(peers, s, Receive(n, p), k);
  }

  /** A management packet on its way from the network to the user: it is passed on exactly
      if it is data and not broadcast. */
  lemma ManagementDelivered(peers: Peers, s: System, k: (nat, Slot), n: nat, p: Packet, timeout: Option<Slot>,
                            conn: Option<ConnReq>)
    requires Reachable(peers, s, k) && n in s.nodes && s.nodes[n].rxPkt.None? && !OfSession(p.hdr)
    requires p in s.net && (p.dstIp == n || IsBroadcast(p.dstIp)) && Allowed(peers, s, TableCall(n, timeout, conn))
    ensures n in Step(s, Receive(n, p)).nodes && n in Step(Step(s, Receive(n, p)), TableCall(n, timeout, conn)).nodes
    ensures var s2 := Step(Step(s, Receive(n, p)), TableCall(n, timeout, conn));
            var nd, nd' := s.nodes[n], Step(s2, ReadVerdict(n)).nodes[n];
            && nd'.control == nd.control + (if p.hdr.kind == DATA && !IsBroadcast(p.dstIp) then [p] else [])
            && nd'.hist[p.hdr.dst].delivered == nd.hist[p.hdr.dst].delivered && nd'.rxPkt == None
  {
    hide Reachable, NodeVerdict, Step;
    var s1 := Step(s, Receive(n, p));
    Taken(peers, s, k, n, p);
    TableJudges(peers, s1, k, n, p, timeout, conn);
    var s2 := Step(s1, TableCall(n, timeout, conn));
    StepNodes(s1, TableCall(n, timeout, conn), n);
    VerdictRead(s2.nodes[n], p, Managed(p));
    VerdictStep(s2, n);
  }

  /** A table call of another node leaves session end k's side alone. */
  lemma OtherCall(peers: Peers, s: System, k: (nat, Slot), n: nat, timeout: Option<Slot>, conn: Option<ConnReq>)
    requires Reachable(peers, s, k) && n != k.0 && Allowed(peers, s, TableCall(n, timeout, conn))
    ensures Reachable(peers, Step(s, TableCall(n, timeout, conn)), k)
    ensures Step(s, TableCall(n, timeout, conn)).nodes.Keys == s.nodes.Keys
  {
    hide Initial, AllowedRun, Run, NodeRx, NodeTx, NodeSetup;
    StepReachable(peers, s, TableCall(n, timeout, conn), k);
  }

  /** A data packet of the session on its way from the network to the user: it is delivered
      exactly if it is the one whose turn it is. */
  lemma DataDelivered(peers: Peers, s: System, k: (nat, Slot), p: Packet, t1: Option<Slot>, c1: Option<ConnReq>,
                      t2: Option<Slot>, c2: Option<ConnReq>)
    requires Reachable(peers, s, k) && s.nodes[peers[k].0].rxPkt.None? && p in s.net
    requires OfSession(p.hdr) && p.hdr.kind == DATA && (p.srcIp, p.hdr.src) == k && (p.dstIp, p.hdr.dst) == peers[k]
    requires Allowed(peers, s, TableCall(peers[k].0, t1, c1)) && Allowed(peers, s, TableCall(peers[k].0, t2, c2))
    ensures var n := peers[k].0; var s1 := Step(s, Receive(n, p));
            && n in s1.nodes && n in Step(s1, TableCall(n, t1, c1)).nodes
            && n in Step(Step(s1, TableCall(n, t1, c1)), TableCall(n, t2, c2)).nodes
    ensures var n, b := peers[k].0, peers[k].1;
            var s3 := Step(Step(Step(s, Receive(n, p)), TableCall(n, t1, c1)), TableCall(n, t2, c2));
            var h, nd' := s.nodes[n].hist[b], Step(s3, ReadVerdict(n)).nodes[n];
            && nd'.hist[b].delivered == h.delivered + (if p.hdr.seqnum == |h.delivered| + 1 then [p.frame] else [])
            && nd'.rxPkt == None
  {
    hide NodeVerdict, Step, Initial, AllowedRun, Run;
    var n, b := peers[k].0, peers[k].1;
    Taken(peers, s, k, n, p);
    var s1 := Step(s, Receive(n, p));
    TwoEnds(peers, k);
    TableJudges(peers, s1, k, n, p, t1, c1);
    OtherCall(peers, s1, k, n, t1, c1);
    var s2 := Step(s1, TableCall(n, t1, c1));
    TableJudges(peers, s2, k, n, p, t2, c2);
    OtherCall(peers, s2, k, n, t2, c2);
    var s3 := Step(s2, TableCall(n, t2, c2));
    VerdictRead(s3.nodes[n], p, p.hdr.seqnum == |s.nodes[n].hist[b].delivered| + 1);
    VerdictStep(s3, n);
  }

  lemma TwoEnds(peers: Peers, k: (nat, Slot))
    requires Sessions(peers) && k in peers
    ensures peers[k].0 != k.0 && !IsBroadcast(peers[k].0)
  {
    assert peers[k] in peers;
  }

  // ---- an acknowledgement and a packet in the same call

  /** The timer of k's slot is stopped while nothing is unacknowledged exactly if nothing
      was sent since the table was asked. */
  lemma StopLeavesNone(peers: Peers, s: System, k: (nat, Slot), q: Query)
    requires Reachable(peers, s, k) && HandlesAck(s, k, q)
    ensures var X, X' := s.nodes[k.0], NodeRx(k.0, s.nodes[k.0]).0; var e' := X'.table.entries[k.1];
            && X.timerReq <= X'.timerReq
            && (Stop(k.1) in X'.timerReq[|X.timerReq|..] ==>
                (e'.lastAckd == e'.lastSent <==> X.table.rx.lastSent == X.table.entries[k.1].lastSent))
  {
    hide Reachable, Wf, SessionOk, LogsOk, NodeRx;
    AckHandled(peers, s, k, q);
    AckTells(k.0, s.nodes[k.0], k.1);
  }

  /** Everything k has sent is about to be acknowledged, and its next packet to be sent. */
  ghost predicate Crossing(s: System, k: (nat, Slot), p: Packet, u: User) {
    && k.0 in s.nodes
    && var X := s.nodes[k.0]; var e := X.table.entries[k.1];
       && X.queryReq == [QueryOf(p)] && X.queryRsp == [] && X.table.rx.state == RecvRxReq && X.rxPkt == Some(p)
       && Tracked(p) && p.hdr.kind != DATA && p.hdr.dst == k.1
       && X.txPkt == Some(u) && u.SrcSlot() == k.1 && Sending(X, k.1, ReplTxReq)
       && e.lastAckd < p.hdr.seqnum == e.lastSent < e.lastAckd + WINDOW_SIZE
  }

  lemma AskedQuiet(n: nat, nd: Nod)
    requires nd.table.rx.state == RecvRxReq
    ensures var nd' := NodeRx(n, nd).0;
            nd'.retransReq == nd.retransReq && nd'.timerReq == nd.timerReq && nd'.table.entries == nd.table.entries
  {
    hide RxData, RxAck, LogRx;
    assert nd.retransReq + [] == nd.retransReq && nd.timerReq + [] == nd.timerReq;
  }

  lemma NothingToSend(s: System, n: nat, a: Slot)
    requires n in s.nodes && s.nodes[n].txPkt.None?
    ensures Step(s, TableCall(n, None, None)).nodes[n].hist[a].accepted == s.nodes[n].hist[a].accepted
  {
    hide NodeRx, NodeSetup;
    var nd1 := NodeRx(n, s.nodes[n]).0;
    RxTouches(n, s.nodes[n]);
    RxKeepsAccepted(n, s.nodes[n], a);
    SetupQuiet(NodeTx(n, nd1).0, None, None);
  }

  /** The first of the two calls: the number of the last packet sent is taken, and one
      more is sent. */
  lemma CrossingStart(peers: Peers, s: System, k: (nat, Slot), p: Packet, u: User)
    requires Called(peers, s, k, None, None) && Crossing(s, k, p, u)
    ensures var X, X' := s.nodes[k.0], Step(s, TableCall(k.0, None, None)).nodes[k.0];
            var e, e' := X.table.entries[k.1], X'.table.entries[k.1];
            && X'.table.rx.state == HandleAck && X'.table.rx.query == QueryOf(p)
            && X'.table.rx.lastSent == e.lastSent && e'.lastAckd == e.lastAckd
            && X'.txPkt == None && Sending(X', k.1, UpdTxInfo) && !X'.hist[k.1].fromEmpty
            && |X'.hist[k.1].accepted| == e.lastSent + 1
            && X'.retransReq == X.retransReq && X'.timerReq == X.timerReq
  {
    hide Reachable, NodeRx, NodeTx, NodeSetup, Step;
    var X := s.nodes[k.0];
    var X1 := NodeRx(k.0, X).0;
    CrossingLast(peers, s, k);
    AskedStep(k.0, X, p);
    AskedQuiet(k.0, X);
    RxTakesSnap(k.0, X, k.1);
    TransmitMoves(peers, s, k, u, None, None);
    TimeoutAsks(peers, s, k, None, None);
    SentTells(peers, s, k, None, None);
    Stages(s, k.0, None, None);
    TxPackets(k.0, X1);
    SetupPackets(NodeTx(k.0, X1).0, None, None);
  }

  lemma CrossingLast(peers: Peers, s: System, k: (nat, Slot))
    requires Reachable(peers, s, k)
    ensures s.nodes[k.0].table.entries[k.1].lastSent == |s.nodes[k.0].hist[k.1].accepted|
  {
    SequenceNumbersOrdered(peers, s, k);
  }

  /** An acknowledgement of everything sent, crossed by the next packet: two calls later
      the timer has been told to stop and nothing else, nothing is asked for, and the
      packet is unacknowledged. */
  lemma StopStrandsPacket(peers: Peers, s: System, k: (nat, Slot), p: Packet, u: User)
    requires Called(peers, s, k, None, None) && Crossing(s, k, p, u)
    ensures k.0 in Step(s, TableCall(k.0, None, None)).nodes
    ensures var s1 := Step(s, TableCall(k.0, None, None));
            var X, X2 := s.nodes[k.0], Step(s1, TableCall(k.0, None, None)).nodes[k.0];
            && X2.timerReq == X.timerReq + [Stop(k.1)] && X2.retransReq == X.retransReq
            && X2.table.entries[k.1].lastAckd + 1 == X2.table.entries[k.1].lastSent == |X2.hist[k.1].accepted|
  {
    hide Reachable, NodeRx, NodeTx, NodeSetup, Step;
    CrossingStart(peers, s, k, p, u);
    var call := TableCall(k.0, None, None);
    var s1 := Step(s, call);
    StepNodes(s, call, k.0);
    StepReachable(peers, s, call, k);
    NothingToSend(s1, k.0, k.1);
    StepNodes(s1, call, k.0);
    StepReachable(peers, s1, call, k);
    AckAnswered(peers, s1, k, QueryOf(p));
    TimeoutAsks(peers, s1, k, None, None);
    SentTells(peers, s1, k, None, None);
    CrossingLast(peers, Step(s1, call), k);
  }
}
