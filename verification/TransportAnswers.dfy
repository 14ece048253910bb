/** What every packet of a session brings about, in every reachable state: who is
    answered and with what, what is asked to be sent again, and what the timer is told. */
module TransportAnswers {
  import opened Options
  import opened GbnTypes
  import opened StateTable
  import opened RingStore
  import opened Transport
  import opened TransportInv
  import opened TransportLog
  import opened TransportTheorems
  import opened UnackedBuffer
  import opened StreamUnits

  // ---- the record is kept over whole runs

  lemma StepLogs(peers: Peers, s: System, a: Action, k: (nat, Slot))
    requires Wf(peers, s) && k in peers && SessionOk(peers, s, k) && Allowed(peers, s, a) && LogsOk(peers, s, k)
    ensures LogsOk(peers, Step(s, a), k)
  {
    hide SessionOk, LogsOk, TablePart, NodeRetrans, NodeVerdict;
    match a
    case Submit(n, u) => SubmitLogs(peers, s, n, u, k);
    case Receive(n, p) => ReceiveLogs(peers, s, n, p, k);
    case ReadVerdict(n) =>
      VerdictLogs(s.nodes[n]);
      QuietLogs(peers, s, n, (NodeVerdict(s.nodes[n]), {}), k);
    case TableCall(n, timeout, conn) => TableLogs(peers, s, n, k, timeout, conn);
    case RetransCall(n) =>
      RetransTouches(n, s.nodes[n]);
      QuietLogs(peers, s, n, NodeRetrans(n, s.nodes[n]), k);
  }

  lemma SubmitLogs(peers: Peers, s: System, n: nat, u: User, k: (nat, Slot))
    requires n in s.nodes && LogsOk(peers, s, k)
    ensures LogsOk(peers, SubmitPart(s, n, u), k)
  {
    hide LogsOk;
    var nd := s.nodes[n];
    if nd.txPkt.None? {
      if u.srcPort > 0 && u.dstPort > 0 {
        QuietLogs(peers, s, n, (nd.(txPkt := Some(u), checkReq := nd.checkReq + [u.SrcSlot()]), {}), k);
      } else {
        QuietLogs(peers, s, n, (nd, {Packet(n, u.dstIp, DataHeader(u, 0), u.frame)}), k);
      }
    }
  }

  lemma ReceiveLogs(peers: Peers, s: System, n: nat, p: Packet, k: (nat, Slot))
    requires n in s.nodes && LogsOk(peers, s, k)
    ensures LogsOk(peers, ReceivePart(s, n, p), k)
  {
    hide LogsOk;
    var nd := s.nodes[n];
    if nd.rxPkt.None? && p in s.net && (p.dstIp == n || IsBroadcast(p.dstIp)) {
      QuietLogs(peers, s, n, (nd.(rxPkt := Some(p), queryReq := nd.queryReq + [QueryOf(p)]), {}), k);
    }
  }

  lemma VerdictLogs(nd: Nod)
    ensures NodeVerdict(nd).table == nd.table
    ensures forall i: Slot :: NodeVerdict(nd).hist[i].since == nd.hist[i].since
                              && NodeVerdict(nd).hist[i].fromEmpty == nd.hist[i].fromEmpty
  {
  }

  lemma {:induction false} RunLogs(peers: Peers, s: System, acts: seq<Action>, k: (nat, Slot))
    requires Wf(peers, s) && k in peers && SessionOk(peers, s, k) && AllowedRun(peers, s, acts) && LogsOk(peers, s, k)
    requires k.0 in Run(peers, s, acts).nodes
    requires |Run(peers, s, acts).nodes[k.0].hist[k.1].accepted| < SEQ_MOD - 1
    ensures LogsOk(peers, Run(peers, s, acts), k)
    decreases |acts|
  {
    hide SessionOk, LogsOk, Step;
    if acts != [] {
      var s1 := Step(s, acts[0]);
      StepGrows(s, acts[0], k);
      RunGrows(peers, s1, acts[1..], k);
      StepKeeps(peers, s, acts[0], k);
      StepLogs(peers, s, acts[0], k);
      RunLogs(peers, s1, acts[1..], k);
    }
  }

  lemma InitialLogs(peers: Peers, s: System, k: (nat, Slot))
    requires Sessions(peers) && Initial(peers, s) && k in peers
    ensures LogsOk(peers, s, k)
  {
    assert peers[k] in peers;
  }

  lemma Logs(peers: Peers, s: System, k: (nat, Slot))
    requires Reachable(peers, s, k)
    ensures Wf(peers, s) && SessionOk(peers, s, k) && LogsOk(peers, s, k)
  {
    hide SessionOk, LogsOk, Initial, Wf;
    var s0, acts :| Initial(peers, s0) && AllowedRun(peers, s0, acts) && s == Run(peers, s0, acts);
    InitialOk(peers, s0, k);
    InitialLogs(peers, s0, k);
    RunKeeps(peers, s0, acts, k);
    RunLogs(peers, s0, acts, k);
  }

  // ---- answers to data packets

  /** The number whose turn it is at the far end of k: one more than were delivered. */
  ghost function Turn(peers: Peers, s: System, k: (nat, Slot)): nat
    requires k in peers && peers[k].0 in s.nodes
  {
    |s.nodes[peers[k].0].hist[peers[k].1].delivered| + 1
  }

  /** The far end of k handles data packet q. */
  ghost predicate HandlesData(peers: Peers, s: System, k: (nat, Slot), q: Query) {
    && k in peers && peers[k].0 in s.nodes
    && var rx := s.nodes[peers[k].0].table.rx; rx.state == HandleData && rx.query == q && q.hdr.dst == peers[k].1
  }

  /** What the receive stage of node n sends. */
  ghost function Sends(s: System, n: nat): set<Packet>
    requires n in s.nodes
  {
    NodeRx(n, s.nodes[n]).1
  }

  /** No answer is due: in turn, but not the first of a hundred; or out of turn, after a
      packet that was ahead of its turn. */
  ghost predicate Unanswered(since: seq<Answer>, n: SeqNum, turn: SeqNum) {
    if n == turn then n % (NR_BATCHED_PKT_PER_ACK + 1) != 1 else Gapped(since, turn)
  }

  function AnswerHeader(n: SeqNum, turn: SeqNum, b: Slot, a: Slot): Header
    requires turn > 0
  {
    if n == turn then Header(ACK, n, b, a) else Header(if n > turn then NACK else ACK, turn - 1, b, a)
  }

  /** What is known when a data packet of the session is handled. */
  lemma DataHandled(peers: Peers, s: System, k: (nat, Slot), q: Query)
    requires Reachable(peers, s, k) && HandlesData(peers, s, k, q)
    ensures Wf(peers, s) && LogsOk(peers, s, k) && FromPeer(q, peers[k].1, k)
    ensures var rx, e := s.nodes[peers[k].0].table.rx, s.nodes[peers[k].0].table.entries[peers[k].1];
            rx.expt == e.expected == Turn(peers, s, k) < SEQ_MOD && rx.countdown == e.countdown
    ensures q.hdr.seqnum < SEQ_MOD - 1
  {
    hide Initial, AllowedRun, Run, LogsOk, RingWf, SenderOk, TxWf;
    Logs(peers, s, k);
    ComesFromPeer(peers, s, k);
    var y, b := peers[k].0, peers[k].1;
    var Y := s.nodes[y];
    assert NodeWf(peers, y, Y, s.net);
    assert Y.rxPkt.value in s.net;
    assert Pending(Y, b) == [];
  }

  /** Every data packet of the session that is handled is answered as its number and the
      record since the last packet in turn say, and with nothing else. In turn: an ACK of
      that number for the first packet and every hundredth from there. Out of turn:
      nothing after a packet that was ahead; before that one NACK to a packet ahead and one
      ACK to an old one, both numbered one below the turn. All go to the sender. */
  lemma DataAnswered(peers: Peers, s: System, k: (nat, Slot), q: Query)
    requires Reachable(peers, s, k) && HandlesData(peers, s, k, q)
    ensures Turn(peers, s, k) < SEQ_MOD
    ensures var y, b, n, turn := peers[k].0, peers[k].1, q.hdr.seqnum, Turn(peers, s, k);
            var since := s.nodes[y].hist[b].since;
            Sends(s, y) == if Unanswered(since, n, turn) then {}
                           else {Packet(y, k.0, AnswerHeader(n, turn, b, k.1), RESPONSE_FRAME)}
  {
    hide Reachable, Wf, NodeRx, Gapped, BatchLeft, AnsweredAt;
    DataHandled(peers, s, k, q);
    var y, b := peers[k].0, peers[k].1;
    if q.hdr.seqnum == Turn(peers, s, k) {
      TakesTurn(y, s.nodes[y], b, k);
    } else {
      OutOfTurn(y, s.nodes[y], b, k);
    }
  }

  /** The record itself: every packet out of turn since the last one in turn came from the
      peer and got the answer due at its time. */
  lemma AnswersOnRecord(peers: Peers, s: System, k: (nat, Slot), i: nat)
    requires Reachable(peers, s, k)
    requires i < |s.nodes[peers[k].0].hist[peers[k].1].since|
    ensures var n, since := s.nodes[peers[k].0].table.entries[peers[k].1].expected,
                            s.nodes[peers[k].0].hist[peers[k].1].since;
            && n > 0 && AnsweredAt(since, i, n) && FromPeer(since[i].query, peers[k].1, k)
  {
    hide Reachable, Wf, SessionOk;
    Logs(peers, s, k);
  }

  /** How the record grows: by the packet and its answer, or it starts again. */
  lemma RecordGrows(peers: Peers, s: System, k: (nat, Slot), q: Query)
    requires Reachable(peers, s, k) && HandlesData(peers, s, k, q)
    ensures var y, b := peers[k].0, peers[k].1; var h, h' := s.nodes[y].hist[b], NodeRx(y, s.nodes[y]).0.hist[b];
            if q.hdr.seqnum == Turn(peers, s, k) then h'.since == []
            else |h'.since| == |h.since| + 1 && h'.since[..|h.since|] == h.since && h'.since[|h.since|].query == q
  {
    hide Reachable, Wf, NodeRx, Gapped, BatchLeft, AnsweredAt;
    DataHandled(peers, s, k, q);
    var y, b := peers[k].0, peers[k].1;
    if q.hdr.seqnum == Turn(peers, s, k) {
      TurnStep(y, s.nodes[y], b);
    } else {
      OutOfTurn(y, s.nodes[y], b, k);
    }
  }

  // ---- what ACKs, NACKs and timeouts ask for

  /** One request for slot a, naming exactly the numbers above lo up to hi. */
  ghost predicate Asks(reqs: seq<RetransReq>, a: Slot, lo: nat, hi: nat) {
    |reqs| == 1 && reqs[0].slot == a && forall m: SeqNum :: Names(reqs[0], m) <==> lo < m <= hi
  }

  predicate Names(r: RetransReq, m: SeqNum) { r.first <= m <= r.last }

  /** Session end k handles the ACK or NACK q. */
  ghost predicate HandlesAck(s: System, k: (nat, Slot), q: Query) {
    && k.0 in s.nodes
    && var rx := s.nodes[k.0].table.rx; rx.state == HandleAck && rx.query == q && q.hdr.dst == k.1
  }

  /** The NACK says that something is missing, and something behind it was sent. */
  predicate AsksAgain(kind: PktKind, n: SeqNum, acked: SeqNum, snap: SeqNum) {
    kind == NACK && acked <= n && !(acked < n && n == snap)
  }

  /** What the timer of slot a is told: to stop when the last packet sent is acknowledged,
      to start again when an ACK is new and leaves some out. */
  function Tells(kind: PktKind, n: SeqNum, acked: SeqNum, snap: SeqNum, a: Slot): seq<TimerReq> {
    if n <= acked then [] else if n == snap then [Stop(a)] else if kind == ACK then [Reset(a)] else []
  }

  lemma AckAsks(n: nat, nd: Nod, a: Slot)
    requires nd.table.rx.state == HandleAck && nd.table.rx.query.hdr.dst == a
    requires nd.table.rx.query.hdr.seqnum < SEQ_MOD - 1
    requires nd.table.rx.query.hdr.kind == ACK || nd.table.rx.query.hdr.kind == NACK
    requires nd.table.rx.lastAckd == nd.table.entries[a].lastAckd
    ensures var h, acked, snap, nd' := nd.table.rx.query.hdr, nd.table.entries[a].lastAckd, nd.table.rx.lastSent,
                                       NodeRx(n, nd).0;
            && nd.retransReq <= nd'.retransReq
            && var asked := nd'.retransReq[|nd.retransReq|..];
               if AsksAgain(h.kind, h.seqnum, acked, snap) then Asks(asked, a, h.seqnum, snap) else asked == []
  {
  }

  lemma AckTells(n: nat, nd: Nod, a: Slot)
    requires nd.table.rx.state == HandleAck && nd.table.rx.query.hdr.dst == a
    requires nd.table.rx.query.hdr.kind == ACK || nd.table.rx.query.hdr.kind == NACK
    requires nd.table.rx.lastAckd == nd.table.entries[a].lastAckd
    ensures var h, acked, snap, nd' := nd.table.rx.query.hdr, nd.table.entries[a].lastAckd, nd.table.rx.lastSent,
                                       NodeRx(n, nd).0;
            && nd'.timerReq == nd.timerReq + Tells(h.kind, h.seqnum, acked, snap, a)
            && nd'.table.entries[a].lastAckd == (if h.seqnum > acked then h.seqnum else acked)
            && nd'.table.entries[a].lastSent == nd.table.entries[a].lastSent && NodeRx(n, nd).1 == {}
            && nd'.hist == nd.hist && nd'.table.tx == nd.table.tx
  {
  }

  /** What is known when an ACK or NACK of the session is handled. */
  lemma AckHandled(peers: Peers, s: System, k: (nat, Slot), q: Query)
    requires Reachable(peers, s, k) && HandlesAck(s, k, q)
    ensures Wf(peers, s) && SessionOk(peers, s, k) && LogsOk(peers, s, k)
    ensures (q.hdr.kind == ACK || q.hdr.kind == NACK) && q.hdr.seqnum < SEQ_MOD - 1
    ensures s.nodes[k.0].table.rx.lastAckd == s.nodes[k.0].table.entries[k.1].lastAckd
    ensures q.hdr.seqnum <= s.nodes[k.0].table.rx.lastSent <= s.nodes[k.0].table.entries[k.1].lastSent
              <= s.nodes[k.0].table.rx.lastSent + 1
  {
    hide Initial, AllowedRun, Run, RingWf, ReceiverOk, TxWf, LinkOk, RingHolds;
    Logs(peers, s, k);
    assert NodeWf(peers, k.0, s.nodes[k.0], s.net);
  }

  /** Every ACK or NACK of the session that is handled. A NACK that acknowledges no more
      than is known missing asks once for everything behind its number that was sent when
      the table was asked, and an ACK asks for nothing. The timer is stopped exactly if
      the number is new and the last one sent then, and started again exactly if it is a
      new ACK of an earlier one. The highest acknowledged number is kept, and nothing is
      answered. At most one packet was sent since the table was asked. */
  lemma AckAnswered(peers: Peers, s: System, k: (nat, Slot), q: Query)
    requires Reachable(peers, s, k) && HandlesAck(s, k, q)
    ensures var X, X' := s.nodes[k.0], NodeRx(k.0, s.nodes[k.0]).0;
            var n, acked, snap := q.hdr.seqnum, X.table.entries[k.1].lastAckd, X.table.rx.lastSent;
            && n <= snap <= X.table.entries[k.1].lastSent <= snap + 1
            && X.retransReq <= X'.retransReq
            && (var asked := X'.retransReq[|X.retransReq|..];
                if AsksAgain(q.hdr.kind, n, acked, snap) then Asks(asked, k.1, n, snap) else asked == [])
            && X'.timerReq == X.timerReq + Tells(q.hdr.kind, n, acked, snap, k.1)
            && X'.table.entries[k.1].lastAckd == (if n > acked then n else acked)
            && Sends(s, k.0) == {}
  {
    hide Reachable, Wf, NodeRx, SessionOk, LogsOk, Asks;
    AckHandled(peers, s, k, q);
    AckAsks(k.0, s.nodes[k.0], k.1);
    AckTells(k.0, s.nodes[k.0], k.1);
  }

  lemma SetupAsks(nd: Nod, a: Slot, timeout: Option<Slot>, conn: Option<ConnReq>)
    requires (conn.Some? ==> conn.value.slot != a) && nd.table.entries[a].lastAckd < SEQ_MOD - 1
    ensures var nd' := NodeSetup(nd, timeout, conn);
            && nd.retransReq <= nd'.retransReq && nd'.timerReq == nd.timerReq
            && nd'.table.entries[a] == nd.table.entries[a]
            && var late, e := nd'.retransReq[|nd.retransReq|..], nd'.table.entries[a];
               if timeout == None then late == []
               else if timeout == Some(a) then Asks(late, a, e.lastAckd, e.lastSent)
               else |late| == 1 && late[0].slot == timeout.value
  {
    var nd' := NodeSetup(nd, timeout, conn);
    assert timeout.Some? ==> nd'.retransReq[|nd.retransReq|..] == [TimeoutReq(nd.table, timeout.value)];
  }

  lemma TxAsks(n: nat, nd: Nod, a: Slot)
    ensures NodeTx(n, nd).0.retransReq == nd.retransReq
    ensures NodeTx(n, nd).0.table.entries[a].lastAckd == nd.table.entries[a].lastAckd
  {
    hide Store;
  }

  /** The three stages of a table call of node n. */
  lemma Stages(s: System, n: nat, timeout: Option<Slot>, conn: Option<ConnReq>)
    requires n in s.nodes
    ensures var nd1 := NodeRx(n, s.nodes[n]).0;
            Step(s, TableCall(n, timeout, conn)).nodes[n] == NodeSetup(NodeTx(n, nd1).0, timeout, conn)
  {
    hide NodeRx, NodeTx, NodeSetup;
  }

  /** Session end k and a table call of its node. */
  ghost predicate Called(peers: Peers, s: System, k: (nat, Slot), timeout: Option<Slot>, conn: Option<ConnReq>) {
    && Reachable(peers, s, k) && Allowed(peers, s, TableCall(k.0, timeout, conn))
    && |Step(s, TableCall(k.0, timeout, conn)).nodes[k.0].hist[k.1].accepted| < SEQ_MOD - 1
  }

  lemma {:induction false} RunStep(peers: Peers, s: System, acts: seq<Action>, a: Action)
    requires AllowedRun(peers, s, acts) && Allowed(peers, Run(peers, s, acts), a)
    ensures AllowedRun(peers, s, acts + [a]) && Run(peers, s, acts + [a]) == Step(Run(peers, s, acts), a)
    decreases |acts|
  {
    hide Step;
    if acts == [] {
      assert acts + [a] == [a] && [a][1..] == [];
      assert Run(peers, Step(s, a), []) == Step(s, a);
    } else {
      assert (acts + [a])[0] == acts[0] && (acts + [a])[1..] == acts[1..] + [a];
      RunStep(peers, Step(s, acts[0]), acts[1..], a);
    }
  }

  /** An allowed action leads from a reachable state to a reachable state. */
  lemma StepReachable(peers: Peers, s: System, a: Action, k: (nat, Slot))
    requires Reachable(peers, s, k) && Allowed(peers, s, a)
    requires k.0 in Step(s, a).nodes && |Step(s, a).nodes[k.0].hist[k.1].accepted| < SEQ_MOD - 1
    ensures Reachable(peers, Step(s, a), k)
  {
    hide Initial, Step;
    var s0, acts :| Initial(peers, s0) && AllowedRun(peers, s0, acts) && s == Run(peers, s0, acts);
    RunStep(peers, s0, acts, a);
    StepNodes(s, a, peers[k].0);
  }

  lemma StepNodes(s: System, a: Action, n: nat)
    requires a.n in s.nodes && n in s.nodes
    ensures n in Step(s, a).nodes
  {
    hide NodeRx, NodeTx, NodeSetup, NodeVerdict, NodeRetrans;
  }

  /** What a table call asks for behind what its receive stage does: on a timeout for k's
      slot, once, for exactly what is not acknowledged; otherwise nothing for that slot. */
  lemma TimeoutAsks(peers: Peers, s: System, k: (nat, Slot), timeout: Option<Slot>, conn: Option<ConnReq>)
    requires Called(peers, s, k, timeout, conn)
    ensures var X1, X' := NodeRx(k.0, s.nodes[k.0]).0, Step(s, TableCall(k.0, timeout, conn)).nodes[k.0];
            && X1.retransReq <= X'.retransReq
            && X'.table.entries[k.1].lastAckd == X1.table.entries[k.1].lastAckd
            && var late, e := X'.retransReq[|X1.retransReq|..], X'.table.entries[k.1];
               if timeout == None then late == []
               else if timeout == Some(k.1) then Asks(late, k.1, e.lastAckd, e.lastSent)
               else |late| == 1 && late[0].slot == timeout.value
  {
    hide Initial, AllowedRun, Run, NodeRx, NodeTx, NodeSetup, Wf, Asks, RingHolds, ReceiverOk, LinkOk, Step;
    var X1 := NodeRx(k.0, s.nodes[k.0]).0;
    StepNodes(s, TableCall(k.0, timeout, conn), k.0);
    StepReachable(peers, s, TableCall(k.0, timeout, conn), k);
    Invariant(peers, Step(s, TableCall(k.0, timeout, conn)), k);
    Stages(s, k.0, timeout, conn);
    TxAsks(k.0, X1, k.1);
    var X2 := NodeTx(k.0, X1).0;
    SetupFrame(X2, k.1, timeout, conn);
    SetupAsks(X2, k.1, timeout, conn);
  }

  lemma SetupFrame(nd: Nod, a: Slot, timeout: Option<Slot>, conn: Option<ConnReq>)
    requires conn.Some? ==> conn.value.slot != a
    ensures NodeSetup(nd, timeout, conn).table.entries[a] == nd.table.entries[a]
  {
  }

  // ---- and what is sent again

  /** The packets numbered above lo up to hi that slot a accepted for slot b. */
  ghost function Accepted(a: Slot, b: Slot, acc: seq<Frame>, lo: nat, hi: nat): seq<(Header, Frame)>
    requires lo <= hi <= |acc| < SEQ_MOD - 1
  {
    seq(hi - lo, j requires 0 <= j < hi - lo => (Header(DATA, lo + 1 + j, a, b), acc[lo + j]))
  }

  lemma AskedRange(q: RetransReq, a: Slot, lo: nat, hi: nat)
    requires Asks([q], a, lo, hi) && lo <= hi < SEQ_MOD - 1
    ensures q.slot == a && if lo == hi then q.last < q.first else q.first == lo + 1 && q.last == hi
  {
    assert Names([q][0], q.first) ==> lo < q.first <= hi;
    assert Names([q][0], q.last) ==> lo < q.last <= hi;
    assert lo < hi ==> Names([q][0], lo + 1) && Names([q][0], hi);
  }

  /** The retransmit machine has sent the packets ps of slot a to ip and is done with its
      first request. */
  ghost predicate SentAgain(r: Resender, r': Resender, a: Slot, ip: nat, ps: seq<(Header, Frame)>)
    requires r.reqs != []
  {
    && r'.state == RecvReq && r'.reqs == r.reqs[1..]
    && r'.header == r.header + OutHeaders(ip, ps) && r'.payload == r.payload + OutBeats(ps)
    && r'.timer == r.timer + (if ps == [] then [] else [Reset(a)])
  }

  /** The retransmit machine, given a request that names unacknowledged numbers of a
      reachable state, sends exactly the frames accepted under them. */
  lemma AskedIsSent(peers: Peers, s: System, k: (nat, Slot), r: Resender, q: RetransReq, lo: nat, hi: nat)
    requires Reachable(peers, s, k) && r.state == RecvReq && r.rdData == [] && r.reqs != [] && r.reqs[0] == q
    requires var e := s.nodes[k.0].table.entries[k.1]; e.lastAckd <= lo <= hi <= e.lastSent
    requires Asks([q], k.1, lo, hi)
    ensures hi <= |s.nodes[k.0].hist[k.1].accepted|
    ensures var X := s.nodes[k.0]; var ps := Accepted(k.1, peers[k].1, X.hist[k.1].accepted, lo, hi);
            SentAgain(r, RetransCalls(r, X.dram, X.destIp, OutCalls(ps) + 1), k.1, peers[k].0, ps)
  {
    hide Initial, AllowedRun, Run, Asks, UnackedBuffer.RetransCall, OutBeats;
    SequenceNumbersOrdered(peers, s, k);
    var X := s.nodes[k.0];
    var ps := Accepted(k.1, peers[k].1, X.hist[k.1].accepted, lo, hi);
    AskedRange(q, k.1, lo, hi);
    if lo == hi {
      RetransEmpty(r, X.dram, X.destIp, q);
      NothingOut(r, X.dram, X.destIp, peers[k].0, ps);
    } else {
      assert AcceptedFrom(k.1, peers[k].1, X.hist[k.1].accepted, q.first, ps);
      RetransmitsUnacked(peers, s, k, r, q, ps);
    }
  }

  lemma NothingOut(r: Resender, d: Dram, ip: map<Slot, nat>, dst: nat, ps: seq<(Header, Frame)>)
    requires ps == []
    ensures OutCalls(ps) == 0 && OutBeats(ps) == [] && OutHeaders(dst, ps) == []
    ensures RetransCalls(r, d, ip, 1) == UnackedBuffer.RetransCall(r, d, ip)
  {
    assert RetransCalls(UnackedBuffer.RetransCall(r, d, ip), d, ip, 0) == UnackedBuffer.RetransCall(r, d, ip);
  }

  /** After a timeout the retransmit machine, given what was asked for last, sends exactly
      the frames accepted behind the last acknowledged number. */
  lemma TimeoutResends(peers: Peers, s: System, k: (nat, Slot), conn: Option<ConnReq>, r: Resender)
    requires Called(peers, s, k, Some(k.1), conn)
    requires r.state == RecvReq && r.rdData == [] && r.reqs != []
    ensures var X' := Step(s, TableCall(k.0, Some(k.1), conn)).nodes[k.0]; var e := X'.table.entries[k.1];
            && X'.retransReq != [] && e.lastAckd <= e.lastSent == |X'.hist[k.1].accepted|
            && (r.reqs[0] == X'.retransReq[|X'.retransReq| - 1] ==>
                var ps := Accepted(k.1, peers[k].1, X'.hist[k.1].accepted, e.lastAckd, e.lastSent);
                SentAgain(r, RetransCalls(r, X'.dram, X'.destIp, OutCalls(ps) + 1), k.1, peers[k].0, ps))
  {
    hide Initial, AllowedRun, Run, NodeRx, Asks, UnackedBuffer.RetransCall, OutBeats, Step, SentAgain, Wf, SessionOk;
    var s' := Step(s, TableCall(k.0, Some(k.1), conn));
    StepNodes(s, TableCall(k.0, Some(k.1), conn), k.0);
    StepReachable(peers, s, TableCall(k.0, Some(k.1), conn), k);
    SequenceNumbersOrdered(peers, s', k);
    TimeoutAsks(peers, s, k, Some(k.1), conn);
    var X1, X', e := NodeRx(k.0, s.nodes[k.0]).0, s'.nodes[k.0], s'.nodes[k.0].table.entries[k.1];
    var late := X'.retransReq[|X1.retransReq|..];
    OneAsked(late, k.1, e.lastAckd, e.lastSent);
    if r.reqs[0] == X'.retransReq[|X'.retransReq| - 1] {
      AskedIsSent(peers, s', k, r, r.reqs[0], e.lastAckd, e.lastSent);
    }
  }

  lemma OneAsked(reqs: seq<RetransReq>, a: Slot, lo: nat, hi: nat)
    requires Asks(reqs, a, lo, hi)
    ensures |reqs| == 1 && Asks([reqs[0]], a, lo, hi)
  {
    assert reqs == [reqs[0]];
  }

  /** After a NACK the retransmit machine, given what the receive stage asked for, sends
      exactly the frames accepted behind the NACK's number, as far as they had been sent
      when the table was asked. */
  lemma NackResends(peers: Peers, s: System, k: (nat, Slot), q: Query, timeout: Option<Slot>, conn: Option<ConnReq>,
                    r: Resender)
    requires Called(peers, s, k, timeout, conn) && HandlesAck(s, k, q)
    requires var t := s.nodes[k.0].table;
             AsksAgain(q.hdr.kind, q.hdr.seqnum, t.entries[k.1].lastAckd, t.rx.lastSent)
    requires r.state == RecvReq && r.rdData == [] && r.reqs != []
    ensures var X, X' := s.nodes[k.0], Step(s, TableCall(k.0, timeout, conn)).nodes[k.0];
            var n, snap := q.hdr.seqnum, X.table.rx.lastSent;
            && |X.retransReq| < |X'.retransReq| && n <= snap <= |X'.hist[k.1].accepted|
            && (r.reqs[0] == X'.retransReq[|X.retransReq|] ==>
                var ps := Accepted(k.1, peers[k].1, X'.hist[k.1].accepted, n, snap);
                SentAgain(r, RetransCalls(r, X'.dram, X'.destIp, OutCalls(ps) + 1), k.1, peers[k].0, ps))
  {
    hide Initial, AllowedRun, Run, NodeRx, Asks, UnackedBuffer.RetransCall, OutBeats, Step, SentAgain, Wf, SessionOk;
    var s' := Step(s, TableCall(k.0, timeout, conn));
    StepNodes(s, TableCall(k.0, timeout, conn), k.0);
    StepReachable(peers, s, TableCall(k.0, timeout, conn), k);
    SequenceNumbersOrdered(peers, s, k);
    SequenceNumbersOrdered(peers, s', k);
    StepGrows(s, TableCall(k.0, timeout, conn), k);
    AckAnswered(peers, s, k, q);
    TimeoutAsks(peers, s, k, timeout, conn);
    var X, X1, X' := s.nodes[k.0], NodeRx(k.0, s.nodes[k.0]).0, s'.nodes[k.0];
    var asked := X1.retransReq[|X.retransReq|..];
    OneAsked(asked, k.1, q.hdr.seqnum, X.table.rx.lastSent);
    if r.reqs[0] == X'.retransReq[|X.retransReq|] {
      assert r.reqs[0] == asked[0];
      AskedIsSent(peers, s', k, r, r.reqs[0], q.hdr.seqnum, X.table.rx.lastSent);
    }
  }

  // ---- the transmit stage

  /** Where the transmit machine stands with a packet of session end k. */
  ghost predicate Sending(nd: Nod, a: Slot, state: TxState) { nd.table.tx.state == state && nd.table.tx.slot == a }

  lemma FinishTells(n: nat, nd: Nod, a: Slot)
    requires Sending(nd, a, UpdTxInfo) && nd.finish != [] && SentSnap(nd, a)
    ensures var nd' := NodeTx(n, nd).0;
            && nd'.timerReq == nd.timerReq + (if nd.hist[a].fromEmpty then [Reset(a)] else [])
            && nd'.table.tx.state == RecvTxReq
  {
  }

  lemma NoFinish(n: nat, nd: Nod)
    requires nd.table.tx.state != UpdTxInfo
    ensures NodeTx(n, nd).0.timerReq == nd.timerReq
  {
  }

  /** What a table call tells the timer behind what its receive stage does: when it learns
      that a packet has been sent, to start if everything before that packet was
      acknowledged when it was accepted; otherwise nothing about k's slot. */
  lemma SentTells(peers: Peers, s: System, k: (nat, Slot), timeout: Option<Slot>, conn: Option<ConnReq>)
    requires Called(peers, s, k, timeout, conn)
    ensures var X, X' := s.nodes[k.0], Step(s, TableCall(k.0, timeout, conn)).nodes[k.0];
            var X1 := NodeRx(k.0, X).0;
            && (Sending(X, k.1, UpdTxInfo) ==>
                && X'.timerReq == X1.timerReq + (if X.hist[k.1].fromEmpty then [Reset(k.1)] else [])
                && X'.table.tx.state == RecvTxReq)
            && (X.table.tx.state != UpdTxInfo ==> X'.timerReq == X1.timerReq)
  {
    hide Initial, AllowedRun, Run, NodeRx, NodeTx, NodeSetup, RingHolds, ReceiverOk, LinkOk, Step, RingWf, RxWf,
      SenderOk, LogOk;
    Logs(peers, s, k);
    var X := s.nodes[k.0];
    assert NodeWf(peers, k.0, X, s.net);
    var X1 := NodeRx(k.0, X).0;
    Stages(s, k.0, timeout, conn);
    RxTouches(k.0, X);
    RxKeepsSent(k.0, X, k.1);
    if Sending(X, k.1, UpdTxInfo) {
      FinishTells(k.0, X1, k.1);
    } else if X.table.tx.state != UpdTxInfo {
      NoFinish(k.0, X1);
    }
    SetupQuiet(NodeTx(k.0, X1).0, timeout, conn);
  }

  lemma SetupQuiet(nd: Nod, timeout: Option<Slot>, conn: Option<ConnReq>)
    ensures NodeSetup(nd, timeout, conn).timerReq == nd.timerReq && NodeSetup(nd, timeout, conn).table.tx == nd.table.tx
    ensures NodeSetup(nd, timeout, conn).hist == nd.hist
  {
  }
}
