/** The per-session state table of the go-back-N stack.

    One hardware call runs four stages in order: the receive machine, the
    transmit machine, the timeout lookup and the session set-up. Each stage is
    given as a function on the table's value; the class StateTable64 keeps the
    five per-session arrays and the static registers and updates them in place,
    and is proved to follow those functions. */
module StateTable {
  import opened Options
  import opened GbnTypes

  datatype Query = Query(srcIp: nat, dstIp: nat, hdr: Header)

  /** An ACK or NACK to be sent; the frame behind it is fixed by the arbiter. */
  datatype Response = Response(dstIp: nat, hdr: Header)

  datatype RetransReq = RetransReq(slot: Slot, first: SeqNum, last: SeqNum)

  datatype TimerReq = Reset(slot: Slot) | Stop(slot: Slot)

  datatype ConnReq = Open(slot: Slot) | Close(slot: Slot)

  datatype RxState = RecvRxReq | HandleData | HandleAck

  datatype TxState = RecvTxReq | ReplTxReq | UpdTxInfo

  /** The five per-session arrays at one index. */
  datatype Entry = Entry(ackEnable: bool, expected: SeqNum, lastAckd: SeqNum,
                         lastSent: SeqNum, countdown: nat)

  /** The receive machine's static registers. The slot and sequence number it
      works on are fields of the saved query. */
  datatype RxRegs = RxRegs(state: RxState, query: Query, expt: SeqNum, countdown: nat,
                           lastAckd: SeqNum, lastSent: SeqNum)

  datatype TxRegs = TxRegs(state: TxState, slot: Slot, lastSent: SeqNum, lastAckd: SeqNum)

  datatype Table = Table(entries: seq<Entry>, rx: RxRegs, tx: TxRegs)

  type Tab = t: Table | |t.entries| == NR_SESSIONS
    witness Table(seq(NR_SESSIONS, _ => Entry(false, 0, 0, 0, 0)),
                  RxRegs(RecvRxReq, Query(0, 0, Header(0, 0, 0, 0)), 0, 0, 0, 0),
                  TxRegs(RecvTxReq, 0, 0, 0))

  /** What the receive stage writes to its output streams. */
  datatype RxOut = RxOut(verdict: Option<bool>, response: Option<Response>,
                         retrans: Option<RetransReq>, timer: Option<TimerReq>)

  const SILENT := RxOut(None, None, None, None)

  datatype TxOut = TxOut(grant: Option<SeqNum>, timer: Option<TimerReq>)

  predicate IsBroadcast(ip: nat) { ip % 256 == 0xff }

  /** Replies exchange source and destination slot. */
  function Reply(q: Query, kind: PktKind, n: SeqNum): Response {
    Response(q.srcIp, Header(kind, n, q.hdr.dst, q.hdr.src))
  }

  // ---- receive stage

  function RxRecv(t: Tab, q: Query): (Tab, RxOut) {
    var rx := t.rx.(query := q);
    var e := t.entries[q.hdr.dst];
    if IsBroadcast(q.dstIp) then
      (t.(rx := rx), SILENT.(verdict := Some(false)))
    else if q.hdr.dst > 0 && q.hdr.src > 0 then
      if q.hdr.kind == DATA then
        (t.(rx := rx.(state := HandleData, expt := e.expected, countdown := e.countdown)), SILENT)
      else if q.hdr.kind == ACK || q.hdr.kind == NACK then
        (t.(rx := rx.(state := HandleAck, lastAckd := e.lastAckd, lastSent := e.lastSent)), SILENT)
      else
        (t.(rx := rx), SILENT.(verdict := Some(false)))
    else
      (t.(rx := rx), SILENT.(verdict := Some(q.hdr.kind == DATA)))
  }

  function RxData(t: Tab): (Tab, RxOut) {
    var rx := t.rx;
    var q := rx.query;
    var slot := q.hdr.dst;
    var e := t.entries[slot];
    var t' := t.(rx := rx.(state := RecvRxReq));
    if q.hdr.seqnum == rx.expt then
      var e' := e.(expected := Inc(rx.expt), ackEnable := true,
                   countdown := if rx.countdown == 0 then NR_BATCHED_PKT_PER_ACK
                                else rx.countdown - 1);
      (t'.(entries := t.entries[slot := e']),
       SILENT.(verdict := Some(true),
               response := if rx.countdown == 0 then Some(Reply(q, ACK, rx.expt)) else None))
    else if e.ackEnable then
      if q.hdr.seqnum > rx.expt then
        (t'.(entries := t.entries[slot := e.(ackEnable := false)]),
         SILENT.(verdict := Some(false), response := Some(Reply(q, NACK, Dec(rx.expt)))))
      else
        (t', SILENT.(verdict := Some(false), response := Some(Reply(q, ACK, Dec(rx.expt)))))
    else
      (t', SILENT.(verdict := Some(false)))
  }

  function RxAck(t: Tab): (Tab, RxOut) {
    var rx := t.rx;
    var n := rx.query.hdr.seqnum;
    var slot := rx.query.hdr.dst;
    var t' := t.(rx := rx.(state := RecvRxReq));
    var out := SILENT.(verdict := Some(false));
    var again := RetransReq(slot, Inc(n), rx.lastSent);
    if n > rx.lastAckd then
      var acked := t'.(entries := t.entries[slot := t.entries[slot].(lastAckd := n)]);
      if n == rx.lastSent then (acked, out.(timer := Some(Stop(slot))))
      else if rx.query.hdr.kind == ACK then (acked, out.(timer := Some(Reset(slot))))
      else (acked, out.(retrans := Some(again)))
    else if n == rx.lastAckd && rx.query.hdr.kind == NACK then
      (t', out.(retrans := Some(again)))
    else
      (t', out)
  }

  /** The receive stage; the query stream is read only in state RecvRxReq. */
  function RxStep(t: Tab, query: Option<Query>): (Tab, RxOut) {
    match t.rx.state
    case RecvRxReq => if query.None? then (t, SILENT) else RxRecv(t, query.value)
    case HandleData => RxData(t)
    case HandleAck => RxAck(t)
  }

  // ---- transmit stage

  predicate WindowOpen(lastAckd: SeqNum, lastSent: SeqNum) {
    lastAckd + WINDOW_SIZE > lastSent
  }

  function TxStep(t: Tab, check: Option<Slot>, finish: bool): (Tab, TxOut) {
    var tx := t.tx;
    match tx.state
    case RecvTxReq =>
      if check.None? then (t, TxOut(None, None))
      else (t.(tx := tx.(slot := check.value, lastSent := t.entries[check.value].lastSent,
                         state := ReplTxReq)),
            TxOut(None, None))
    case ReplTxReq =>
      var e := t.entries[tx.slot];
      var tx' := tx.(lastAckd := e.lastAckd);
      if WindowOpen(e.lastAckd, tx.lastSent) then
        (t.(tx := tx'.(state := UpdTxInfo),
            entries := t.entries[tx.slot := e.(lastSent := Inc(tx.lastSent))]),
         TxOut(Some(Inc(tx.lastSent)), None))
      else
        (t.(tx := tx'), TxOut(None, None))
    case UpdTxInfo =>
      if !finish then (t, TxOut(None, None))
      else (t.(tx := tx.(state := RecvTxReq)),
            TxOut(None, if tx.lastAckd == tx.lastSent then Some(Reset(tx.slot)) else None))
  }

  // ---- timeout and session set-up stages

  function TimeoutReq(t: Tab, slot: Slot): RetransReq {
    RetransReq(slot, Inc(t.entries[slot].lastAckd), t.entries[slot].lastSent)
  }

  const OPENED := Entry(true, 1, 0, 0, 0)

  function InitStep(t: Tab, req: ConnReq): Tab {
    match req
    case Open(slot) => t.(entries := t.entries[slot := OPENED])
    case Close(slot) => t.(entries := t.entries[slot := t.entries[slot].(expected := 0)])
  }

  /** The table in hardware form. */
  class StateTable64 {
    const ackEnable: array<bool>
    const expected: array<SeqNum>
    const lastAckd: array<SeqNum>
    const lastSent: array<SeqNum>
    const countdown: array<nat>
    var rx: RxRegs
    var tx: TxRegs

    ghost predicate Valid() {
      && ackEnable.Length == expected.Length == lastAckd.Length == NR_SESSIONS
      && lastSent.Length == countdown.Length == NR_SESSIONS
      && expected != lastAckd && expected != lastSent && lastAckd != lastSent
    }

    ghost function EntryAt(i: Slot): Entry
      requires Valid()
      reads ackEnable, expected, lastAckd, lastSent, countdown
    {
      Entry(ackEnable[i], expected[i], lastAckd[i], lastSent[i], countdown[i])
    }

    ghost function View(): Tab
      requires Valid()
      reads this, ackEnable, expected, lastAckd, lastSent, countdown
    {
      Table(seq(NR_SESSIONS, i requires 0 <= i < NR_SESSIONS && Valid()
                reads ackEnable, expected, lastAckd, lastSent, countdown => EntryAt(i)), rx, tx)
    }

    constructor ()
      ensures Valid()
      ensures fresh(ackEnable) && fresh(expected) && fresh(lastAckd) && fresh(lastSent) && fresh(countdown)
      ensures View().rx.state == RecvRxReq && View().tx.state == RecvTxReq
      ensures forall i: Slot :: View().entries[i] == Entry(false, 0, 0, 0, 0)
    {
      ackEnable := new bool[NR_SESSIONS](_ => false);
      expected := new SeqNum[NR_SESSIONS](_ => 0);
      lastAckd := new SeqNum[NR_SESSIONS](_ => 0);
      lastSent := new SeqNum[NR_SESSIONS](_ => 0);
      countdown := new nat[NR_SESSIONS](_ => 0);
      rx := RxRegs(RecvRxReq, Query(0, 0, Header(0, 0, 0, 0)), 0, 0, 0, 0);
      tx := TxRegs(RecvTxReq, 0, 0, 0);
    }

    /** State RecvRxReq with a query waiting. */
    method ReceiveQuery(q: Query) returns (out: RxOut)
      requires Valid()
      modifies this
      ensures tx == old(tx)
      ensures (View(), out) == RxRecv(old(View()), q)
    {
      out := SILENT;
      rx := rx.(query := q);
      var slot := q.hdr.dst;
      if IsBroadcast(q.dstIp) {
        out := out.(verdict := Some(false));
      } else if q.hdr.dst > 0 && q.hdr.src > 0 {
        if q.hdr.kind == DATA {
          rx := rx.(expt := expected[slot], countdown := countdown[slot], state := HandleData);
        } else if q.hdr.kind == ACK || q.hdr.kind == NACK {
          rx := rx.(lastAckd := lastAckd[slot], lastSent := lastSent[slot], state := HandleAck);
        } else {
          out := out.(verdict := Some(false));
        }
      } else {
        out := out.(verdict := Some(q.hdr.kind == DATA));
      }
      assert View().entries == old(View().entries);
    }

    method HandleDataPacket() returns (out: RxOut)
      requires Valid()
      modifies this, ackEnable, expected, countdown
      ensures (View(), out) == RxData(old(View()))
    {
      var q, slot := rx.query, rx.query.hdr.dst;
      out := SILENT;
      if q.hdr.seqnum == rx.expt {
        expected[slot] := Inc(rx.expt);
        ackEnable[slot] := true;
        out := out.(verdict := Some(true));
        if rx.countdown == 0 {
          out := out.(response := Some(Reply(q, ACK, rx.expt)));
          countdown[slot] := NR_BATCHED_PKT_PER_ACK;
        } else {
          countdown[slot] := rx.countdown - 1;
        }
      } else if ackEnable[slot] {
        if q.hdr.seqnum > rx.expt {
          ackEnable[slot] := false;
          out := out.(verdict := Some(false), response := Some(Reply(q, NACK, Dec(rx.expt))));
        } else {
          out := out.(verdict := Some(false), response := Some(Reply(q, ACK, Dec(rx.expt))));
        }
      } else {
        out := out.(verdict := Some(false));
      }
      rx := rx.(state := RecvRxReq);
      assert View().entries == RxData(old(View())).0.entries;
    }

    method HandleAckPacket() returns (out: RxOut)
      requires Valid()
      modifies this, lastAckd
      ensures (View(), out) == RxAck(old(View()))
    {
      var q, slot, n := rx.query, rx.query.hdr.dst, rx.query.hdr.seqnum;
      out := SILENT.(verdict := Some(false));
      if n > rx.lastAckd {
        lastAckd[slot] := n;
        if n == rx.lastSent {
          out := out.(timer := Some(Stop(slot)));
        } else if q.hdr.kind == ACK {
          out := out.(timer := Some(Reset(slot)));
        } else {
          out := out.(retrans := Some(RetransReq(slot, Inc(n), rx.lastSent)));
        }
      } else if n == rx.lastAckd && q.hdr.kind == NACK {
        out := out.(retrans := Some(RetransReq(slot, Inc(n), rx.lastSent)));
      }
      rx := rx.(state := RecvRxReq);
      assert View().entries == RxAck(old(View())).0.entries;
    }

    /** The receive stage of one call. */
    method HandleRx(query: Option<Query>) returns (out: RxOut)
      requires Valid()
      modifies this, ackEnable, expected, countdown, lastAckd
      ensures (View(), out) == RxStep(old(View()), query)
    {
      out := SILENT;
      match rx.state {
        case RecvRxReq =>
          if query.Some? {
            out := ReceiveQuery(query.value);
          }
        case HandleData => out := HandleDataPacket();
        case HandleAck => out := HandleAckPacket();
      }
    }

    /** The transmit stage of one call. */
    method HandleTx(check: Option<Slot>, finish: bool) returns (out: TxOut)
      requires Valid()
      modifies this, lastSent
      ensures (View(), out) == TxStep(old(View()), check, finish)
    {
      out := TxOut(None, None);
      match tx.state {
        case RecvTxReq =>
          if check.Some? {
            tx := tx.(slot := check.value, lastSent := lastSent[check.value], state := ReplTxReq);
          }
        case ReplTxReq =>
          tx := tx.(lastAckd := lastAckd[tx.slot]);
          if WindowOpen(tx.lastAckd, tx.lastSent) {
            out := out.(grant := Some(Inc(tx.lastSent)));
            lastSent[tx.slot] := Inc(tx.lastSent);
            tx := tx.(state := UpdTxInfo);
          }
        case UpdTxInfo =>
          if finish {
            if tx.lastAckd == tx.lastSent {
              out := out.(timer := Some(Reset(tx.slot)));
            }
            tx := tx.(state := RecvTxReq);
          }
      }
      assert View().entries == TxStep(old(View()), check, finish).0.entries;
    }

    method HandleTimeout(slot: Slot) returns (req: RetransReq)
      requires Valid()
      ensures req == TimeoutReq(View(), slot)
    {
      req := RetransReq(slot, Inc(lastAckd[slot]), lastSent[slot]);
    }

    method HandleInit(req: ConnReq)
      requires Valid()
      modifies ackEnable, expected, lastAckd, lastSent, countdown
      ensures View() == InitStep(old(View()), req)
    {
      match req {
        case Open(slot) =>
          ackEnable[slot] := true;
          lastAckd[slot] := 0;
          lastSent[slot] := 0;
          expected[slot] := 1;
          countdown[slot] := 0;
        case Close(slot) =>
          expected[slot] := 0;
      }
      assert View().entries == InitStep(old(View()), req).entries;
    }
  }

  // ---- opening and closing

  /** The first data packet behind set-up is taken exactly if it is numbered 1 on an opened
      slot, and 0 on a closed one: closing does not refuse a packet numbered 0. */
  lemma FirstTaken(t: Tab, req: ConnReq, q: Query)
    requires t.rx.state == RecvRxReq && q.hdr.dst == req.slot > 0 && q.hdr.src > 0
    requires q.hdr.kind == DATA && !IsBroadcast(q.dstIp)
    ensures var t1 := RxStep(InitStep(t, req), Some(q)).0;
            RxStep(t1, None).1.verdict == Some(q.hdr.seqnum == if req.Open? then 1 else 0)
  {
  }

  /** How many data packets for the slot a run of receive stages takes. */
  function Takes(t: Tab, qs: seq<Option<Query>>, slot: Slot): nat
    decreases |qs|
  {
    if qs == [] then 0
    else
      var (t', out) := RxStep(t, qs[0]);
      (if t.rx.state.HandleData? && t.rx.query.hdr.dst == slot && out.verdict == Some(true) then 1 else 0)
        + Takes(t', qs[1..], slot)
  }

  /** The slot is closed and no packet numbered 0 is being handled for it. */
  ghost predicate Shut(t: Tab, slot: Slot) {
    && t.entries[slot].expected == 0
    && (t.rx.state == HandleData && t.rx.query.hdr.dst == slot ==> t.rx.expt == 0 && t.rx.query.hdr.seqnum != 0)
  }

  lemma ShutStep(t: Tab, query: Option<Query>, slot: Slot)
    requires Shut(t, slot) && (query.Some? && query.value.hdr.dst == slot ==> query.value.hdr.seqnum != 0)
    ensures Shut(RxStep(t, query).0, slot)
    ensures t.rx.state.HandleData? && t.rx.query.hdr.dst == slot ==> RxStep(t, query).1.verdict == Some(false)
  {
  }

  /** Until it is opened again a closed slot takes nothing, whatever comes, as long as no
      packet for it is numbered 0. Sessions number their packets from 1. */
  lemma {:induction false} ClosedTakesNothing(t: Tab, qs: seq<Option<Query>>, slot: Slot)
    requires Shut(t, slot)
    requires forall i :: 0 <= i < |qs| && qs[i].Some? && qs[i].value.hdr.dst == slot ==> qs[i].value.hdr.seqnum != 0
    ensures Takes(t, qs, slot) == 0
    decreases |qs|
  {
    hide RxStep, Shut;
    if qs != [] {
      ShutStep(t, qs[0], slot);
      ClosedTakesNothing(RxStep(t, qs[0]).0, qs[1..], slot);
    }
  }

  lemma CloseShuts(t: Tab, slot: Slot)
    requires t.rx.state != HandleData
    ensures Shut(InitStep(t, Close(slot)), slot)
  {
  }
}
