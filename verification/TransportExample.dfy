/** A run of two nodes to a state in which an acknowledgement and the next packet cross. */
module TransportExample {
  import opened Options
  import opened GbnTypes
  import opened StateTable
  import opened Transport
  import opened TransportInv
  import opened TransportTheorems
  import opened TransportAnswers
  import opened TransportPaths

  /** One session, between slots 1 of nodes 1 and 2. */
  const A: (nat, Slot) := (1, 1)
  const B: (nat, Slot) := (2, 1)
  const Pair: Peers := map[A := B, B := A]

  const OneWord: Frame := Frame(17, [0])

  function Hello(): User { UserPacket(1, 1, 2, OneWord) }

  function Fresh(): Nod {
    PoweredUp(Table(seq(NR_SESSIONS, _ => OPENED),
                    RxRegs(RecvRxReq, Query(0, 0, Header(0, 0, 0, 0)), 0, 0, 0, 0), TxRegs(RecvTxReq, 0, 0, 0)))
  }

  /** Both nodes with their session opened. */
  function Start(): System { System(map[1 := Fresh(), 2 := Fresh()], {}) }

  lemma FreshFacts()
    ensures NodeIdle(Fresh()) && Fresh().table.entries[1] == OPENED && Fresh().hist[1] == NOTHING_YET
  {
  }

  lemma PairSessions()
    ensures Sessions(Pair)
  {
  }

  lemma StartInitial()
    ensures Initial(Pair, Start())
  {
    hide Fresh, NodeIdle;
    FreshFacts();
  }

  lemma StartReachable()
    ensures Reachable(Pair, Start(), A)
  {
    hide Fresh, Initial, Sessions;
    FreshFacts();
    PairSessions();
    StartInitial();
    var acts: seq<Action> := [];
    assert AllowedRun(Pair, Start(), acts) && Run(Pair, Start(), acts) == Start();
  }

  /** What of a node matters on the way: nothing is being received, nothing is
      acknowledged, so many frames are accepted, and the transmit machine's state. */
  ghost predicate Quiet(s: System, sent: nat, state: TxState) {
    && 1 in s.nodes && 2 in s.nodes && Reachable(Pair, s, A)
    && var X := s.nodes[1];
       && X.rxPkt.None? && X.table.entries[1].lastAckd == 0 && |X.hist[1].accepted| == sent
       && X.table.tx.state == state
  }

  ghost predicate FarIdle(s: System) { 2 in s.nodes && s.nodes[2].rxPkt.None? && s.nodes[2].hist[1].delivered == [] }

  lemma OtherNode(s: System, a: Action, m: nat)
    requires a.n in s.nodes && m in s.nodes && m != a.n
    ensures m in Step(s, a).nodes && Step(s, a).nodes[m] == s.nodes[m] && s.net <= Step(s, a).net
  {
    hide NodeRx, NodeTx, NodeSetup, NodeVerdict, NodeRetrans;
  }

  lemma Submitted(s: System, sent: nat, state: TxState)
    requires Quiet(s, sent, state) && s.nodes[1].txPkt.None? && sent < 10
    ensures var s' := Step(s, Submit(1, Hello()));
            Quiet(s', sent, state) && s'.nodes[1].txPkt == Some(Hello()) && s'.nodes[2] == s.nodes[2] && s'.net == s.net
  {
    hide Reachable;
    assert Allowed(Pair, s, Submit(1, Hello()));
    assert s.net + {} == s.net;
    StepReachable(Pair, s, Submit(1, Hello()), A);
  }

  lemma CallKeepsRx(s: System, n: nat)
    requires n in s.nodes
    ensures Step(s, TableCall(n, None, None)).nodes[n].rxPkt == s.nodes[n].rxPkt
  {
    hide NodeTx, NodeSetup, RxStep;
    var nd1 := NodeRx(n, s.nodes[n]).0;
    TxPackets(n, nd1);
    SetupPackets(NodeTx(n, nd1).0, None, None);
  }

  lemma AtMostOneMore(s: System, n: nat, a: Slot)
    requires n in s.nodes
    ensures |Step(s, TableCall(n, None, None)).nodes[n].hist[a].accepted| <= |s.nodes[n].hist[a].accepted| + 1
  {
    hide NodeRx, NodeSetup, TxStep;
    var nd1 := NodeRx(n, s.nodes[n]).0;
    RxKeepsAccepted(n, s.nodes[n], a);
    SetupQuiet(NodeTx(n, nd1).0, None, None);
  }

  lemma NodeOneIdle(s: System)
    requires Reachable(Pair, s, A) && 1 in s.nodes && s.nodes[1].rxPkt.None?
    ensures s.nodes[1].table.rx.state == RecvRxReq
  {
    hide Initial, AllowedRun, Run, SessionOk, RingWf, TxWf;
    Invariant(Pair, s, A);
    assert NodeWf(Pair, 1, s.nodes[1], s.net);
  }

  /** A table call of node 1 with a packet waiting. */
  lemma CallMoves(s: System, sent: nat, state: TxState)
    requires Quiet(s, sent, state) && s.nodes[1].txPkt == Some(Hello()) && sent < 10
    ensures var s' := Step(s, TableCall(1, None, None));
            && 2 in s'.nodes && s'.nodes[2] == s.nodes[2] && s.net <= s'.net
            && (state == UpdTxInfo ==> Quiet(s', sent, RecvTxReq) && s'.nodes[1].txPkt == Some(Hello()))
            && (state == RecvTxReq ==> Quiet(s', sent, ReplTxReq) && s'.nodes[1].txPkt == Some(Hello())
                                       && s'.nodes[1].table.tx.slot == 1)
            && (state == ReplTxReq ==> Quiet(s', sent + 1, UpdTxInfo) && s'.nodes[1].txPkt == None
                                       && Packet(1, 2, Header(DATA, sent + 1, 1, 1), OneWord) in s'.net)
  {
    hide Reachable, Step, NodeRx;
    var call := TableCall(1, None, None);
    AtMostOneMore(s, 1, 1);
    StepNodes(s, call, 1);
    assert Allowed(Pair, s, call) && Called(Pair, s, A, None, None);
    StepReachable(Pair, s, call, A);
    OtherNode(s, call, 2);
    CallKeepsRx(s, 1);
    NodeOneIdle(s);
    AskedQuiet(1, s.nodes[1]);
    TimeoutAsks(Pair, s, A, None, None);
    TransmitMoves(Pair, s, A, Hello(), None, None);
  }

  const First: Packet := Packet(1, 2, Header(DATA, 1, 1, 1), OneWord)

  /** Node 2 takes packet 1 to its table; node 1 is left alone. */
  lemma FarTakes(s: System, sent: nat, state: TxState) returns (s': System)
    requires Quiet(s, sent, state) && FarIdle(s) && First in s.net
    ensures Quiet(s', sent, state) && s'.nodes[1] == s.nodes[1] && HandlesData(Pair, s', A, QueryOf(First))
    ensures s'.nodes[2].hist[1].delivered == []
  {
    hide Reachable, Step, HandlesData;
    var call := TableCall(2, None, None);
    var s1 := Step(s, Receive(2, First));
    Taken(Pair, s, A, 2, First);
    OtherNode(s, Receive(2, First), 1);
    TableJudges(Pair, s1, A, 2, First, None, None);
    OtherCall(Pair, s1, A, 2, None, None);
    OtherNode(s1, call, 1);
    s' := Step(s1, call);
    FarHandles(s', First);
  }

  /** Node 2 acknowledges it. */
  lemma FarAnswers(s: System, sent: nat, state: TxState) returns (s': System)
    requires Quiet(s, sent, state) && HandlesData(Pair, s, A, QueryOf(First)) && s.nodes[2].hist[1].delivered == []
    ensures Quiet(s', sent, state) && s'.nodes[1] == s.nodes[1]
    ensures Packet(2, 1, Header(ACK, 1, 1, 1), RESPONSE_FRAME) in s'.net
  {
    hide Reachable, Step;
    var call := TableCall(2, None, None);
    DataAnswered(Pair, s, A, QueryOf(First));
    OtherCall(Pair, s, A, 2, None, None);
    OtherNode(s, call, 1);
    s' := Step(s, call);
    SendsReach(s, 2);
  }

  lemma FarHandles(s: System, p: Packet)
    requires Reachable(Pair, s, A) && 2 in s.nodes && s.nodes[2].rxPkt == Some(p) && s.nodes[2].queryReq == []
    requires s.nodes[2].queryRsp == [] && p.hdr.kind == DATA && p.hdr.dst == 1
    ensures HandlesData(Pair, s, A, QueryOf(p))
  {
    hide Initial, AllowedRun, Run, SessionOk, RingWf, TxWf;
    Invariant(Pair, s, A);
    assert NodeWf(Pair, 2, s.nodes[2], s.net);
  }

  lemma SendsReach(s: System, n: nat)
    requires n in s.nodes
    ensures Sends(s, n) <= Step(s, TableCall(n, None, None)).net
  {
    hide NodeRx, NodeTx, NodeSetup;
  }

  /** Both nodes come to the crossing: node 1 sends packet 1, has the next one waiting, and
      then takes node 2's acknowledgement off the network. */
  lemma CrossingReached() returns (s: System, p: Packet)
    ensures Called(Pair, s, A, None, None) && Crossing(s, A, p, Hello())
  {
    hide Reachable, Step, Fresh;
    StartReachable();
    FreshFacts();
    var call := TableCall(1, None, None);
    Submitted(Start(), 0, RecvTxReq);
    var s1 := Step(Start(), Submit(1, Hello()));
    CallMoves(s1, 0, RecvTxReq);
    CallMoves(Step(s1, call), 0, ReplTxReq);
    var s2 := Step(Step(s1, call), call);
    Submitted(s2, 1, UpdTxInfo);
    var s3 := Step(s2, Submit(1, Hello()));
    CallMoves(s3, 1, UpdTxInfo);
    CallMoves(Step(s3, call), 1, RecvTxReq);
    var s4 := FarTakes(Step(Step(s3, call), call), 1, ReplTxReq);
    s4 := FarAnswers(s4, 1, ReplTxReq);
    p := Packet(2, 1, Header(ACK, 1, 1, 1), RESPONSE_FRAME);
    Taken(Pair, s4, A, 1, p);
    s := Step(s4, Receive(1, p));
    NodeOneIdle(s4);
    CrossingLast(Pair, s, A);
    AtMostOneMore(s, 1, 1);
    StepNodes(s, call, 1);
    NodeOneKept(s4, p);
  }

  lemma NodeOneKept(s: System, p: Packet)
    requires Quiet(s, 1, ReplTxReq) && s.nodes[1].rxPkt.None?
    ensures s.nodes[1].queryRsp == []
  {
    hide Initial, AllowedRun, Run, SessionOk, RingWf, TxWf;
    Invariant(Pair, s, A);
    assert NodeWf(Pair, 1, s.nodes[1], s.net);
  }
}
