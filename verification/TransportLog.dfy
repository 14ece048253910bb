/** What the registers of the state table say about the record of a session: the
    snapshots a sender takes, and the answers a receiver has given. */
module TransportLog {
  import opened Options
  import opened GbnTypes
  import opened StateTable
  import opened RingStore
  import opened Transport
  import opened TransportInv

  // ---- the sending end

  /** While an ACK or NACK for slot a is handled, at most the packet just granted has
      been sent since the table was asked, and the number is one that was sent. */
  ghost predicate AckSnap(nd: Nod, a: Slot) {
    var rx, tx, sent := nd.table.rx, nd.table.tx, nd.table.entries[a].lastSent;
    rx.state == HandleAck && rx.query.hdr.dst == a ==>
      && rx.query.hdr.seqnum <= rx.lastSent
      && (rx.lastSent == sent || (rx.lastSent + 1 == sent && tx.state == UpdTxInfo && tx.slot == a))
  }

  /** The same right after the receive stage: nothing has been sent since. */
  ghost predicate AckFresh(nd: Nod, a: Slot) {
    var rx := nd.table.rx;
    rx.state == HandleAck && rx.query.hdr.dst == a ==>
      rx.query.hdr.seqnum <= rx.lastSent == nd.table.entries[a].lastSent
  }

  /** A packet on its way out: the registers know whether the window was empty. */
  ghost predicate SentSnap(nd: Nod, a: Slot) {
    var tx := nd.table.tx;
    tx.state == UpdTxInfo && tx.slot == a ==> (tx.lastAckd == tx.lastSent <==> nd.hist[a].fromEmpty)
  }

  /** A receive stage that starts to handle an ACK or NACK takes the numbers as they are. */
  lemma RxTakesSnap(n: nat, nd: Nod, a: Slot)
    requires NodeRx(n, nd).0.table.rx.state == HandleAck && NodeRx(n, nd).0.table.rx.query.hdr.dst == a
    ensures var rx, q := NodeRx(n, nd).0.table.rx, nd.queryReq;
            && q != [] && rx.query == q[0] && rx.lastSent == nd.table.entries[a].lastSent
            && NodeRx(n, nd).0.table.entries == nd.table.entries && OfSession(q[0].hdr) && !IsBroadcast(q[0].dstIp)
            && (q[0].hdr.kind == ACK || q[0].hdr.kind == NACK) && nd.table.rx.state == RecvRxReq
  {
    hide LogRx;
  }

  lemma RxFresh(n: nat, nd: Nod, net: set<Packet>, a: Slot, b: Slot, acked: nat)
    requires RxWf(n, nd, net) && SenderOk(nd, a, b)
    requires acked <= |nd.hist[a].accepted| && LinkOk(net, (n, a), nd.hist[a].accepted, acked)
    ensures AckFresh(NodeRx(n, nd).0, a)
  {
    hide RingHolds, NodeRx, RxStep, Handling;
    var rx := NodeRx(n, nd).0.table.rx;
    if rx.state == HandleAck && rx.query.hdr.dst == a {
      RxTakesSnap(n, nd, a);
      assert nd.rxPkt.value in net;
    }
  }

  lemma RxKeepsSent(n: nat, nd: Nod, a: Slot)
    ensures NodeRx(n, nd).0.table.tx == nd.table.tx && NodeRx(n, nd).0.hist[a].fromEmpty == nd.hist[a].fromEmpty
  {
    hide RxStep;
    RxTouches(n, nd);
  }

  lemma TxSnaps(peers: Peers, n: nat, nd: Nod, a: Slot, b: Slot)
    requires TxWf(peers, n, nd) && SenderOk(nd, a, b) && AckFresh(nd, a) && SentSnap(nd, a)
    ensures AckSnap(NodeTx(n, nd).0, a) && SentSnap(NodeTx(n, nd).0, a)
  {
    hide RingHolds, Store;
  }

  lemma SetupSnaps(nd: Nod, a: Slot, timeout: Option<Slot>, conn: Option<ConnReq>)
    requires AckSnap(nd, a) && SentSnap(nd, a) && (conn.Some? ==> conn.value.slot != a)
    ensures AckSnap(NodeSetup(nd, timeout, conn), a) && SentSnap(NodeSetup(nd, timeout, conn), a)
  {
  }

  // ---- the receiving end

  /** One of the packets was ahead of its turn. */
  ghost predicate Gapped(since: seq<Answer>, n: SeqNum) {
    exists i :: 0 <= i < |since| && since[i].query.hdr.seqnum > n
  }

  /** The answer that a packet out of turn is due, n being the number expected and since
      what came since the last one in turn: nothing once a packet was ahead of its turn;
      before that a NACK to the first such packet and an ACK to every old one, each with
      the number of the last packet in turn and back to where it came from. */
  ghost function DueOutOfTurn(since: seq<Answer>, q: Query, n: SeqNum): Option<Response>
    requires n > 0
  {
    if Gapped(since, n) then None
    else Some(Response(q.srcIp, Header(if q.hdr.seqnum > n then NACK else ACK, n - 1, q.hdr.dst, q.hdr.src)))
  }

  ghost predicate AnsweredAt(since: seq<Answer>, i: int, n: SeqNum)
    requires 0 <= i < |since| && n > 0
  {
    && since[i].query.hdr.seqnum != n
    && since[i].response == DueOutOfTurn(since[..i], since[i].query, n)
  }

  /** Packets in turn until the next one that is acknowledged at once. */
  function BatchLeft(taken: nat): nat {
    if taken % (NR_BATCHED_PKT_PER_ACK + 1) == 0 then 0
    else NR_BATCHED_PKT_PER_ACK + 1 - taken % (NR_BATCHED_PKT_PER_ACK + 1)
  }

  ghost predicate LogOk(nd: Nod, b: Slot, k: (nat, Slot)) {
    var e, since := nd.table.entries[b], nd.hist[b].since;
    && e.expected > 0 && e.countdown == BatchLeft(e.expected - 1)
    && (e.ackEnable <==> !Gapped(since, e.expected))
    && (forall i :: 0 <= i < |since| ==> AnsweredAt(since, i, e.expected))
    && (forall i :: 0 <= i < |since| ==> FromPeer(since[i].query, b, k))
  }

  predicate FromPeer(q: Query, b: Slot, k: (nat, Slot)) { q.srcIp == k.0 && q.hdr.src == k.1 && q.hdr.dst == b }

  lemma GappedNext(since: seq<Answer>, x: Answer, n: SeqNum)
    ensures Gapped(since + [x], n) <==> Gapped(since, n) || x.query.hdr.seqnum > n
  {
    var next := since + [x];
    assert next[|since|] == x;
    forall i | 0 <= i < |since| ensures next[i] == since[i] {
    }
  }

  lemma LogNext(since: seq<Answer>, x: Answer, n: SeqNum, b: Slot, k: (nat, Slot))
    requires n > 0 && x.query.hdr.seqnum != n && x.response == DueOutOfTurn(since, x.query, n)
    requires FromPeer(x.query, b, k)
    requires forall i :: 0 <= i < |since| ==> AnsweredAt(since, i, n)
    requires forall i :: 0 <= i < |since| ==> FromPeer(since[i].query, b, k)
    ensures forall i :: 0 <= i < |since + [x]| ==> AnsweredAt(since + [x], i, n)
    ensures forall i :: 0 <= i < |since + [x]| ==> FromPeer((since + [x])[i].query, b, k)
  {
    hide DueOutOfTurn;
    var next := since + [x];
    forall i | 0 <= i < |next| ensures AnsweredAt(next, i, n) {
      if i < |since| {
        assert next[..i] == since[..i];
        assert AnsweredAt(since, i, n);
      } else {
        assert next[..i] == since;
      }
    }
  }

  lemma BatchNext(taken: nat)
    ensures BatchLeft(taken) == 0 <==> (taken + 1) % (NR_BATCHED_PKT_PER_ACK + 1) == 1
    ensures BatchLeft(taken + 1) == if BatchLeft(taken) == 0 then NR_BATCHED_PKT_PER_ACK else BatchLeft(taken) - 1
  {
  }

  lemma TurnStep(n: nat, nd: Nod, b: Slot)
    requires nd.table.rx.state == HandleData && nd.table.rx.query.hdr.dst == b
    requires nd.table.rx.expt == nd.table.entries[b].expected == nd.table.rx.query.hdr.seqnum < SEQ_MOD - 1
    requires nd.table.rx.countdown == nd.table.entries[b].countdown
    ensures var nd', q, e := NodeRx(n, nd).0, nd.table.rx.query, nd.table.entries[b];
            && nd'.hist[b].since == [] && nd'.table.entries[b].ackEnable
            && nd'.table.entries[b].expected == e.expected + 1
            && nd'.table.entries[b].countdown == (if e.countdown == 0 then NR_BATCHED_PKT_PER_ACK else e.countdown - 1)
            && NodeRx(n, nd).1 == if e.countdown > 0 then {} else
                 {Packet(n, q.srcIp, Header(ACK, q.hdr.seqnum, b, q.hdr.src), RESPONSE_FRAME)}
  {
  }

  /** A packet in turn: whether it is acknowledged depends on its number alone. */
  lemma TakesTurn(n: nat, nd: Nod, b: Slot, k: (nat, Slot))
    requires nd.table.rx.state == HandleData && nd.table.rx.query.hdr.dst == b && LogOk(nd, b, k)
    requires nd.table.rx.expt == nd.table.entries[b].expected == nd.table.rx.query.hdr.seqnum < SEQ_MOD - 1
    requires nd.table.rx.countdown == nd.table.entries[b].countdown
    ensures LogOk(NodeRx(n, nd).0, b, k)
    ensures var q := nd.table.rx.query;
            NodeRx(n, nd).1 == if q.hdr.seqnum % (NR_BATCHED_PKT_PER_ACK + 1) == 1
                               then {Packet(n, q.srcIp, Header(ACK, q.hdr.seqnum, b, q.hdr.src), RESPONSE_FRAME)}
                               else {}
  {
    hide NodeRx, BatchLeft;
    BatchNext(nd.table.entries[b].expected - 1);
    TurnStep(n, nd, b);
  }

  /** A packet out of turn gets the answer that is due by the record. */
  lemma OutOfTurn(n: nat, nd: Nod, b: Slot, k: (nat, Slot))
    requires nd.table.rx.state == HandleData && nd.table.rx.query.hdr.dst == b && LogOk(nd, b, k)
    requires nd.table.rx.expt == nd.table.entries[b].expected != nd.table.rx.query.hdr.seqnum
    requires FromPeer(nd.table.rx.query, b, k)
    ensures LogOk(NodeRx(n, nd).0, b, k)
    ensures var q := nd.table.rx.query; var due := DueOutOfTurn(nd.hist[b].since, q, nd.table.entries[b].expected);
            && NodeRx(n, nd).0.hist[b].since == nd.hist[b].since + [Answer(q, due)]
            && NodeRx(n, nd).1 == if due.None? then {} else {Packet(n, due.value.dstIp, due.value.hdr, RESPONSE_FRAME)}
  {
    var q, e, since := nd.table.rx.query, nd.table.entries[b], nd.hist[b].since;
    var due := DueOutOfTurn(since, q, e.expected);
    OutOfTurnStep(n, nd, b, due);
    hide NodeRx, RxStep, DueOutOfTurn, Gapped;
    GappedNext(since, Answer(q, due), e.expected);
    LogNext(since, Answer(q, due), e.expected, b, k);
  }

  lemma OutOfTurnStep(n: nat, nd: Nod, b: Slot, due: Option<Response>)
    requires nd.table.rx.state == HandleData && nd.table.rx.query.hdr.dst == b
    requires nd.table.rx.expt == nd.table.entries[b].expected != nd.table.rx.query.hdr.seqnum
    requires nd.table.rx.expt > 0
    requires nd.table.entries[b].ackEnable <==> !Gapped(nd.hist[b].since, nd.table.entries[b].expected)
    requires due == DueOutOfTurn(nd.hist[b].since, nd.table.rx.query, nd.table.entries[b].expected)
    ensures var nd', q, e := NodeRx(n, nd).0, nd.table.rx.query, nd.table.entries[b];
            && nd'.hist[b].since == nd.hist[b].since + [Answer(q, due)]
            && nd'.table.entries[b] == e.(ackEnable := e.ackEnable && q.hdr.seqnum < e.expected)
            && NodeRx(n, nd).1 == if due.None? then {} else {Packet(n, due.value.dstIp, due.value.hdr, RESPONSE_FRAME)}
  {
    hide Gapped;
  }

  /** A node change that leaves the receiving side of slot b and its record alone. */
  lemma LogFrame(nd: Nod, nd': Nod, b: Slot, k: (nat, Slot))
    requires LogOk(nd, b, k) && nd'.hist[b].since == nd.hist[b].since
    requires nd'.table.entries[b].expected == nd.table.entries[b].expected
    requires nd'.table.entries[b].countdown == nd.table.entries[b].countdown
    requires nd'.table.entries[b].ackEnable == nd.table.entries[b].ackEnable
    ensures LogOk(nd', b, k)
  {
    hide Gapped, AnsweredAt, FromPeer, BatchLeft;
  }

  lemma OtherData(n: nat, nd: Nod, b: Slot)
    requires nd.table.rx.state == HandleData && nd.table.rx.query.hdr.dst != b
    ensures NodeRx(n, nd).0.table.entries[b] == nd.table.entries[b] && NodeRx(n, nd).0.hist[b] == nd.hist[b]
  {
  }

  lemma RxLogs(n: nat, nd: Nod, net: set<Packet>, k: (nat, Slot), b: Slot, acc: seq<Frame>)
    requires RxWf(n, nd, net) && |acc| < SEQ_MOD - 1 && ReceiverOk(nd, b, acc)
    requires LinkOk(net, k, acc, nd.hist[b].acked) && NodeRxFrom(nd, b, k) && !IsBroadcast(n) && LogOk(nd, b, k)
    ensures LogOk(NodeRx(n, nd).0, b, k)
  {
    hide NodeRx, LogOk, Pending;
    if nd.table.rx.state != HandleData {
      QuietRx(n, nd, b);
      LogFrame(nd, NodeRx(n, nd).0, b, k);
    } else if nd.table.rx.query.hdr.dst != b {
      OtherData(n, nd, b);
      LogFrame(nd, NodeRx(n, nd).0, b, k);
    } else if nd.table.rx.query.hdr.seqnum == nd.table.entries[b].expected {
      assert nd.rxPkt.value in net;
      TakesTurn(n, nd, b, k);
    } else {
      OutOfTurn(n, nd, b, k);
    }
  }

  // ---- whole actions

  ghost predicate LogsOk(peers: Peers, s: System, k: (nat, Slot)) {
    && k in peers && k.0 in s.nodes && peers[k].0 in s.nodes
    && AckSnap(s.nodes[k.0], k.1) && SentSnap(s.nodes[k.0], k.1) && LogOk(s.nodes[peers[k].0], peers[k].1, k)
  }

  /** A node change that leaves the table alone, and of the histories what is logged. */
  lemma QuietLogs(peers: Peers, s: System, n: nat, r: (Nod, set<Packet>), k: (nat, Slot))
    requires LogsOk(peers, s, k) && n in s.nodes && r.0.table == s.nodes[n].table
    requires forall i: Slot :: r.0.hist[i].since == s.nodes[n].hist[i].since
                               && r.0.hist[i].fromEmpty == s.nodes[n].hist[i].fromEmpty
    ensures LogsOk(peers, Put(s, n, r), k)
  {
    hide LogOk;
    if n == peers[k].0 {
      LogFrame(s.nodes[n], r.0, peers[k].1, k);
    }
  }

  lemma SenderLogs(peers: Peers, s: System, k: (nat, Slot), timeout: Option<Slot>, conn: Option<ConnReq>)
    requires Wf(peers, s) && k in peers && SessionOk(peers, s, k) && LogsOk(peers, s, k)
    requires conn.Some? ==> (k.0, conn.value.slot) !in peers
    ensures var nd := TablePart(s, k.0, timeout, conn).nodes[k.0]; AckSnap(nd, k.1) && SentSnap(nd, k.1)
  {
    hide RingWf, LinkOk, RingHolds, NodeRx, NodeTx, NodeSetup, SenderOk, ReceiverOk, LogOk, TxWf, RxWf, AckSnap,
      SentSnap, AckFresh, NetWf;
    RxPartKeeps(peers, s, k.0, k);
    var X, s1 := s.nodes[k.0], RxPart(s, k.0);
    SessionAcked(peers, s, k);
    RxFresh(k.0, X, s.net, k.1, peers[k].1, s.nodes[peers[k].0].hist[peers[k].1].acked);
    RxKeepsSent(k.0, X, k.1);
    SentSame(X, s1.nodes[k.0], k.1);
    TxSnaps(peers, k.0, s1.nodes[k.0], k.1, peers[k].1);
    SetupSnaps(TxPart(s1, k.0).nodes[k.0], k.1, timeout, conn);
  }

  lemma SentSame(nd: Nod, nd': Nod, a: Slot)
    requires SentSnap(nd, a) && nd'.table.tx == nd.table.tx && nd'.hist[a].fromEmpty == nd.hist[a].fromEmpty
    ensures SentSnap(nd', a)
  {
  }

  lemma SessionAcked(peers: Peers, s: System, k: (nat, Slot))
    requires Wf(peers, s) && k in peers && SessionOk(peers, s, k)
    ensures s.nodes[peers[k].0].hist[peers[k].1].acked <= |s.nodes[k.0].hist[k.1].accepted|
    ensures |s.nodes[k.0].hist[k.1].accepted| < SEQ_MOD - 1
  {
  }

  lemma TxKeepsLog(n: nat, nd: Nod, b: Slot)
    ensures var nd' := NodeTx(n, nd).0;
            && nd'.hist[b].since == nd.hist[b].since
            && nd'.table.entries[b].expected == nd.table.entries[b].expected
            && nd'.table.entries[b].countdown == nd.table.entries[b].countdown
            && nd'.table.entries[b].ackEnable == nd.table.entries[b].ackEnable
  {
    hide Store;
  }

  lemma SetupKeepsLog(nd: Nod, b: Slot, timeout: Option<Slot>, conn: Option<ConnReq>)
    requires conn.Some? ==> conn.value.slot != b
    ensures NodeSetup(nd, timeout, conn).hist == nd.hist
    ensures NodeSetup(nd, timeout, conn).table.entries[b] == nd.table.entries[b]
  {
  }

  /** Session packets that reach the receiving end come from the sending one. */
  lemma ComesFromPeer(peers: Peers, s: System, k: (nat, Slot))
    requires Wf(peers, s) && k in peers
    ensures NodeRxFrom(s.nodes[peers[k].0], peers[k].1, k) && !IsBroadcast(peers[k].0)
  {
    hide RingWf, TxWf;
    var y := peers[k].0;
    assert NodeWf(peers, y, s.nodes[y], s.net);
  }

  lemma ReceiverLogs(peers: Peers, s: System, k: (nat, Slot), timeout: Option<Slot>, conn: Option<ConnReq>)
    requires Wf(peers, s) && k in peers && SessionOk(peers, s, k) && LogsOk(peers, s, k)
    requires conn.Some? ==> (peers[k].0, conn.value.slot) !in peers
    ensures LogOk(TablePart(s, peers[k].0, timeout, conn).nodes[peers[k].0], peers[k].1, k)
  {
    hide RingWf, LinkOk, RingHolds, NodeRx, NodeTx, NodeSetup, SenderOk, ReceiverOk, LogOk, TxWf, RxWf, AckSnap,
      SentSnap, NetWf, NodeRxFrom;
    var y, b := peers[k].0, peers[k].1;
    var Y := s.nodes[y];
    SessionAcked(peers, s, k);
    ComesFromPeer(peers, s, k);
    RxLogs(y, Y, s.net, k, b, s.nodes[k.0].hist[k.1].accepted);
    var Y1 := NodeRx(y, Y).0;
    TxKeepsLog(y, Y1, b);
    var Y2 := NodeTx(y, Y1).0;
    SetupKeepsLog(Y2, b, timeout, conn);
    LogFrame(Y1, NodeSetup(Y2, timeout, conn), b, k);
  }

  lemma TwoNodes(peers: Peers, s: System, k: (nat, Slot))
    requires Wf(peers, s) && k in peers
    ensures k.0 in s.nodes && peers[k].0 in s.nodes && k.0 != peers[k].0
  {
  }

  lemma TableLogs(peers: Peers, s: System, n: nat, k: (nat, Slot), timeout: Option<Slot>, conn: Option<ConnReq>)
    requires Wf(peers, s) && n in s.nodes && k in peers && SessionOk(peers, s, k) && LogsOk(peers, s, k)
    requires conn.Some? ==> (n, conn.value.slot) !in peers
    ensures LogsOk(peers, TablePart(s, n, timeout, conn), k)
  {
    hide SessionOk, Wf, NodeRx, NodeTx, NodeSetup, LogOk, AckSnap, SentSnap;
    TwoNodes(peers, s, k);
    if n == k.0 {
      SenderLogs(peers, s, k, timeout, conn);
    } else if n == peers[k].0 {
      ReceiverLogs(peers, s, k, timeout, conn);
    }
  }
}
