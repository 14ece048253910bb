/** Reliable delivery over whole runs of the go-back-N system. */
module TransportTheorems {
  import opened Options
  import opened GbnTypes
  import opened StateTable
  import opened RingStore
  import opened Transport
  import opened TransportInv
  import opened UnackedBuffer
  import opened StreamUnits

  ghost predicate AllowedRun(peers: Peers, s: System, acts: seq<Action>)
    decreases |acts|
  {
    acts != [] ==> Allowed(peers, s, acts[0]) && AllowedRun(peers, Step(s, acts[0]), acts[1..])
  }

  ghost function Run(peers: Peers, s: System, acts: seq<Action>): System
    requires AllowedRun(peers, s, acts)
    decreases |acts|
  {
    if acts == [] then s else Run(peers, Step(s, acts[0]), acts[1..])
  }

  /** A state some allowed run reaches from freshly opened sessions, in which
      session end k has sent fewer than 2^32 - 1 packets. */
  ghost predicate Reachable(peers: Peers, s: System, k: (nat, Slot)) {
    && Sessions(peers) && k in peers && k.0 in s.nodes && peers[k].0 in s.nodes
    && |s.nodes[k.0].hist[k.1].accepted| < SEQ_MOD - 1
    && exists s0, acts :: Initial(peers, s0) && AllowedRun(peers, s0, acts) && s == Run(peers, s0, acts)
  }

  lemma StepKeeps(peers: Peers, s: System, a: Action, k: (nat, Slot))
    requires Wf(peers, s) && k in peers && SessionOk(peers, s, k) && Allowed(peers, s, a)
    requires |Step(s, a).nodes[k.0].hist[k.1].accepted| < SEQ_MOD - 1
    ensures Wf(peers, Step(s, a)) && SessionOk(peers, Step(s, a), k)
  {
    match a
    case Submit(n, u) => SubmitKeeps(peers, s, n, u, k);
    case Receive(n, p) => ReceiveKeeps(peers, s, n, p, k);
    case ReadVerdict(n) => VerdictKeeps(peers, s, n, k);
    case TableCall(n, timeout, conn) =>
      TableKeeps(peers, s, n, k, timeout, conn);
    case RetransCall(n) => RetransKeeps(peers, s, n, k);
  }

  /** No action takes back what was accepted, and no node disappears. */
  lemma StepGrows(s: System, a: Action, k: (nat, Slot))
    requires a.n in s.nodes && k.0 in s.nodes
    ensures k.0 in Step(s, a).nodes
    ensures s.nodes[k.0].hist[k.1].accepted <= Step(s, a).nodes[k.0].hist[k.1].accepted
  {
    NodesGrow(a.n, s.nodes[a.n], k.1);
    if a.TableCall? {
      TableGrows(s, a.n, a.timeout, a.conn, k);
    }
  }

  lemma {:induction false} RunGrows(peers: Peers, s: System, acts: seq<Action>, k: (nat, Slot))
    requires AllowedRun(peers, s, acts) && k.0 in s.nodes
    ensures k.0 in Run(peers, s, acts).nodes
    ensures s.nodes[k.0].hist[k.1].accepted <= Run(peers, s, acts).nodes[k.0].hist[k.1].accepted
    decreases |acts|
  {
    if acts != [] {
      StepGrows(s, acts[0], k);
      RunGrows(peers, Step(s, acts[0]), acts[1..], k);
    }
  }

  lemma {:induction false} RunKeeps(peers: Peers, s: System, acts: seq<Action>, k: (nat, Slot))
    requires Wf(peers, s) && k in peers && SessionOk(peers, s, k) && AllowedRun(peers, s, acts)
    requires k.0 in Run(peers, s, acts).nodes
    requires |Run(peers, s, acts).nodes[k.0].hist[k.1].accepted| < SEQ_MOD - 1
    ensures Wf(peers, Run(peers, s, acts)) && SessionOk(peers, Run(peers, s, acts), k)
    decreases |acts|
  {
    if acts != [] {
      var s1 := Step(s, acts[0]);
      StepGrows(s, acts[0], k);
      RunGrows(peers, s1, acts[1..], k);
      StepKeeps(peers, s, acts[0], k);
      RunKeeps(peers, s1, acts[1..], k);
    }
  }

  lemma InitialOk(peers: Peers, s: System, k: (nat, Slot))
    requires Sessions(peers) && Initial(peers, s) && k in peers
    ensures Wf(peers, s) && SessionOk(peers, s, k)
  {
    forall n | n in s.nodes ensures NodeWf(peers, n, s.nodes[n], s.net) {
      assert s.nodes[n].dram == map[];
    }
  }

  /** Opening sessions changes their table entries and nothing else. */
  lemma {:induction false} OpensAll(nd: Nod, slots: seq<Slot>)
    ensures OpenAll(nd, slots) == nd.(table := OpenAll(nd, slots).table)
    ensures OpenAll(nd, slots).table.rx == nd.table.rx && OpenAll(nd, slots).table.tx == nd.table.tx
    ensures forall i :: i in slots ==> OpenAll(nd, slots).table.entries[i] == OPENED
    decreases |slots|
  {
    if slots != [] {
      OpensAll(nd, slots[..|slots| - 1]);
      assert slots == slots[..|slots| - 1] + [slots[|slots| - 1]];
    }
  }

  /** From power-up, once the sessions have been opened, a run can begin. */
  lemma PowerUpIsInitial(peers: Peers, s: System, tables: map<nat, Tab>, slots: map<nat, seq<Slot>>)
    requires Sessions(peers) && s.net == {} && s.nodes.Keys == tables.Keys == slots.Keys
    requires forall n :: n in s.nodes ==> s.nodes[n] == OpenAll(PoweredUp(tables[n]), slots[n])
    requires forall n :: n in s.nodes ==> tables[n].rx.state == RecvRxReq && tables[n].tx.state == RecvTxReq
    requires forall k :: k in peers ==> k.0 in s.nodes && k.1 in slots[k.0]
    ensures Initial(peers, s)
  {
    hide OpenAll, PoweredUp, NodeIdle;
    forall n | n in s.nodes ensures NodeIdle(s.nodes[n]) {
      OpenedIdle(tables[n], slots[n]);
    }
    forall k | k in peers
      ensures s.nodes[k.0].table.entries[k.1] == OPENED && s.nodes[k.0].hist[k.1] == NOTHING_YET
    {
      OpenedIdle(tables[k.0], slots[k.0]);
    }
  }

  lemma OpenedIdle(t: Tab, slots: seq<Slot>)
    requires t.rx.state == RecvRxReq && t.tx.state == RecvTxReq
    ensures NodeIdle(OpenAll(PoweredUp(t), slots))
    ensures forall i :: i in slots ==> OpenAll(PoweredUp(t), slots).table.entries[i] == OPENED
    ensures forall i: Slot :: OpenAll(PoweredUp(t), slots).hist[i] == NOTHING_YET
  {
    OpensAll(PoweredUp(t), slots);
  }

  /** The invariant of every reachable state. */
  lemma Invariant(peers: Peers, s: System, k: (nat, Slot))
    requires Reachable(peers, s, k)
    ensures Wf(peers, s) && SessionOk(peers, s, k)
  {
    var s0, acts :| Initial(peers, s0) && AllowedRun(peers, s0, acts) && s == Run(peers, s0, acts);
    InitialOk(peers, s0, k);
    RunKeeps(peers, s0, acts, k);
  }

  /** Reliable in-order delivery: what the far end's receive unit passed on is a
      prefix of what this end's transmit unit accepted, and it is only short of
      the acknowledged sequence by a verdict still on its way. */
  lemma DeliveredIsPrefix(peers: Peers, s: System, k: (nat, Slot))
    requires Reachable(peers, s, k)
    ensures var X, Y, b := s.nodes[k.0], s.nodes[peers[k].0], peers[k].1;
            && Y.hist[b].delivered <= X.hist[k.1].accepted
            && Y.table.entries[b].expected >= 1
            && Y.table.entries[b].expected - 1 - |Y.hist[b].delivered| == |Pending(Y, b)| <= 1
  {
    Invariant(peers, s, k);
    ReceiverPrefix(s.nodes[peers[k].0], peers[k].1, s.nodes[k.0].hist[k.1].accepted);
  }

  /** The two ends' sequence numbers never cross, the window is never exceeded,
      and no acknowledgement runs ahead of the receiver. */
  lemma SequenceNumbersOrdered(peers: Peers, s: System, k: (nat, Slot))
    requires Reachable(peers, s, k)
    ensures var X, Y := s.nodes[k.0].table.entries[k.1], s.nodes[peers[k].0].table.entries[peers[k].1];
            && X.lastAckd <= Y.expected - 1 <= X.lastSent <= X.lastAckd + WINDOW_SIZE
            && X.lastSent == |s.nodes[k.0].hist[k.1].accepted|
            && forall p | p in s.net && OfSession(p.hdr) && (p.dstIp, p.hdr.dst) == k
                          && (p.hdr.kind == ACK || p.hdr.kind == NACK) :: p.hdr.seqnum <= Y.expected - 1
  {
    Invariant(peers, s, k);
  }

  /** Until it is acknowledged, packet n stays whole in its ring slot, ready to
      be sent again to the peer. */
  lemma UnackedIsBuffered(peers: Peers, s: System, k: (nat, Slot), n: SeqNum)
    requires Reachable(peers, s, k)
    requires var e := s.nodes[k.0].table.entries[k.1]; e.lastAckd < n <= e.lastSent
    ensures n <= |s.nodes[k.0].hist[k.1].accepted|
    ensures Holds(s.nodes[k.0].dram, k.1, WindowIdx(n),
                  Header(DATA, n, k.1, peers[k].1), s.nodes[k.0].hist[k.1].accepted[n - 1])
    ensures k.1 in s.nodes[k.0].destIp && s.nodes[k.0].destIp[k.1] == peers[k].0
  {
    hide Holds, Initial, AllowedRun, Run, ReceiverOk, LinkOk;
    Invariant(peers, s, k);
    var X := s.nodes[k.0];
    var h, f := Header(DATA, n, k.1, peers[k].1), X.hist[k.1].accepted[n - 1];
    assert RingHolds(X.dram, k.1, peers[k].1, X.hist[k.1].accepted);
    assert Holds(X.dram, k.1, WindowIdx(n), h, f);
    HoldsLoad(X.dram, k.1, WindowIdx(n), h, f);
    assert NodeWf(peers, k.0, X, s.net) && RingWf(peers, k.0, X, s.net);
  }

  /** ps are the packets numbered first, first + 1, ... that slot a accepted. */
  ghost predicate AcceptedFrom(a: Slot, b: Slot, acc: seq<Frame>, first: nat, ps: seq<(Header, Frame)>) {
    && 1 <= first && first + |ps| <= |acc| + 1 < SEQ_MOD
    && forall j :: 0 <= j < |ps| ==> ps[j] == (Header(DATA, first + j, a, b), acc[first + j - 1])
  }

  lemma UnackedAllStored(peers: Peers, s: System, k: (nat, Slot), first: SeqNum, ps: seq<(Header, Frame)>)
    requires Reachable(peers, s, k)
    requires var e := s.nodes[k.0].table.entries[k.1]; e.lastAckd < first && first + |ps| <= e.lastSent + 1
    requires AcceptedFrom(k.1, peers[k].1, s.nodes[k.0].hist[k.1].accepted, first, ps)
    ensures AllStored(s.nodes[k.0].dram, k.1, first, ps)
  {
    hide Holds, Initial, AllowedRun, Run, Sessions;
    var X := s.nodes[k.0];
    forall j | 0 <= j < |ps| ensures Holds(X.dram, k.1, WindowIdx(first + j), ps[j].0, ps[j].1) {
      UnackedIsBuffered(peers, s, k, first + j);
    }
  }

  /** The retransmit machine, given a request for unacknowledged packets of a
      reachable state, sends exactly those packets: each once, in order, to the
      peer, as accepted; then it resets the timer once and rests. */
  lemma RetransmitsUnacked(peers: Peers, s: System, k: (nat, Slot), r: Resender, q: RetransReq,
                           ps: seq<(Header, Frame)>)
    requires Reachable(peers, s, k)
    requires r.state == RecvReq && r.rdData == [] && r.reqs != [] && r.reqs[0] == q && q.slot == k.1
    requires var e := s.nodes[k.0].table.entries[k.1]; e.lastAckd < q.first <= q.last <= e.lastSent
    requires |ps| == q.last - q.first + 1
    requires AcceptedFrom(k.1, peers[k].1, s.nodes[k.0].hist[k.1].accepted, q.first, ps)
    ensures var X := s.nodes[k.0];
            var r' := RetransCalls(r, X.dram, X.destIp, OutCalls(ps) + 1);
            && r'.state == RecvReq && r'.reqs == r.reqs[1..]
            && r'.header == r.header + OutHeaders(peers[k].0, ps)
            && r'.payload == r.payload + OutBeats(ps)
            && r'.timer == r.timer + [Reset(k.1)]
  {
    UnackedIsBuffered(peers, s, k, q.first);
    UnackedAllStored(peers, s, k, q.first, ps);
    RetransRequest(r, s.nodes[k.0].dram, s.nodes[k.0].destIp, q, ps);
  }

  /** Every data packet of the session on the wire, first copy or
      retransmission, carries the frame accepted under its number. */
  lemma WireIsFaithful(peers: Peers, s: System, k: (nat, Slot), p: Packet)
    requires Reachable(peers, s, k) && p in s.net && OfSession(p.hdr) && p.hdr.kind == DATA
    requires (p.srcIp, p.hdr.src) == k || (p.dstIp, p.hdr.dst) == peers[k]
    ensures (p.srcIp, p.hdr.src) == k && (p.dstIp, p.hdr.dst) == peers[k]
    ensures 1 <= p.hdr.seqnum <= |s.nodes[k.0].hist[k.1].accepted|
    ensures p.frame == s.nodes[k.0].hist[k.1].accepted[p.hdr.seqnum - 1]
  {
    Invariant(peers, s, k);
    LinkFaithful(peers, s.net, k, s.nodes[k.0].hist[k.1].accepted,
                 s.nodes[peers[k].0].hist[peers[k].1].acked, p);
  }

  /** Batched acknowledgements never stall a session: once the receiver has
      taken everything and its last acknowledgement has arrived, the window is
      open. Negative acknowledgements are at most one per accepted packet plus
      one. */
  lemma BatchingNeverStalls(peers: Peers, s: System, k: (nat, Slot))
    requires Reachable(peers, s, k)
    ensures var e, h := s.nodes[peers[k].0].table.entries[peers[k].1], s.nodes[peers[k].0].hist[peers[k].1];
            && h.acked <= e.expected - 1
            && e.expected - 1 - h.acked + e.countdown <= NR_BATCHED_PKT_PER_ACK
            && h.nacks <= (e.expected - 1) + 1
    ensures var x, y, h := s.nodes[k.0].table.entries[k.1], s.nodes[peers[k].0].table.entries[peers[k].1],
                           s.nodes[peers[k].0].hist[peers[k].1];
            y.expected - 1 == x.lastSent && x.lastAckd == h.acked ==> WindowOpen(x.lastAckd, x.lastSent)
  {
    Invariant(peers, s, k);
  }
}
