/** The retransmission timer: one countdown per session, all scanned in turn by
    a single counter. A call serves one request if there is one, and otherwise
    looks at the next slot. */
module Timer {
  import opened Options
  import opened GbnTypes
  import opened StateTable

  datatype Countdown = Countdown(active: bool, time: nat)

  /** Retransmission timeout in clock cycles, divided among the slots. */
  const RETRANS_TIMEOUT_CYCLE := 25_000_000_000
  const START_TIME := (RETRANS_TIMEOUT_CYCLE + NR_SESSIONS - 1) / NR_SESSIONS

  datatype Timers = Timers(slots: seq<Countdown>, scan: Slot)

  type Tim = t: Timers | |t.slots| == NR_SESSIONS
    witness Timers(seq(NR_SESSIONS, _ => Countdown(false, 0)), 0)

  function NextSlot(s: Slot): Slot { (s + 1) % NR_SESSIONS }

  function Serve(t: Tim, req: TimerReq): Tim {
    var e := t.slots[req.slot];
    t.(slots := t.slots[req.slot := if req.Reset? then Countdown(true, START_TIME) else e.(active := false)])
  }

  /** Looks at the next slot; a timer at zero fires and is switched off. */
  function Scan(t: Tim): (Tim, Option<Slot>) {
    var s := NextSlot(t.scan);
    var e := t.slots[s];
    if !e.active then (t.(scan := s), None)
    else if e.time > 0 then (t.(scan := s, slots := t.slots[s := e.(time := e.time - 1)]), None)
    else (t.(scan := s, slots := t.slots[s := e.(active := false)]), Some(s))
  }

  function TimerCall(t: Tim, req: Option<TimerReq>): (Tim, Option<Slot>) {
    if req.Some? then (Serve(t, req.value), None) else Scan(t)
  }

  /** The class in hardware form. */
  class RetransTimer {
    const timeout: array<Countdown>
    var scanSlot: Slot

    ghost predicate Valid() { timeout.Length == NR_SESSIONS }

    ghost function View(): Tim
      requires Valid()
      reads this, timeout
    {
      Timers(timeout[..], scanSlot)
    }

    constructor ()
      ensures Valid() && fresh(timeout)
      ensures View().scan == 0 && forall s: Slot :: !View().slots[s].active
    {
      timeout := new Countdown[NR_SESSIONS](_ => Countdown(false, 0));
      scanSlot := 0;
    }

    method Call(req: Option<TimerReq>) returns (fired: Option<Slot>)
      requires Valid()
      modifies this, timeout
      ensures (View(), fired) == TimerCall(old(View()), req)
    {
      fired := None;
      if req.Some? {
        var s := req.value.slot;
        var e := timeout[s];
        if req.value.Reset? {
          e := Countdown(true, START_TIME);
        } else {
          e := e.(active := false);
        }
        timeout[s] := e;
      } else {
        scanSlot := NextSlot(scanSlot);
        var e := timeout[scanSlot];
        if e.active {
          if e.time > 0 {
            e := e.(time := e.time - 1);
          } else {
            fired := Some(scanSlot);
            e := e.(active := false);
          }
        }
        timeout[scanSlot] := e;
      }
      assert View().slots == TimerCall(old(View()), req).0.slots;
    }
  }

  // ---- runs

  /** How often slot s fired in a run. */
  function Fired(t: Tim, reqs: seq<Option<TimerReq>>, s: Slot): nat
    decreases |reqs|
  {
    if reqs == [] then 0
    else
      var (t', out) := TimerCall(t, reqs[0]);
      (if out == Some(s) then 1 else 0) + Fired(t', reqs[1..], s)
  }

  function After(t: Tim, reqs: seq<Option<TimerReq>>): Tim
    decreases |reqs|
  {
    if reqs == [] then t else After(TimerCall(t, reqs[0]).0, reqs[1..])
  }

  /** Calls that scan rather than serve a request. */
  function Scans(reqs: seq<Option<TimerReq>>): nat {
    if reqs == [] then 0 else (if reqs[0].None? then 1 else 0) + Scans(reqs[1..])
  }

  ghost predicate NotFor(reqs: seq<Option<TimerReq>>, s: Slot) {
    forall i :: 0 <= i < |reqs| ==> reqs[i].None? || reqs[i].value.slot != s
  }

  /** Scans until the counter reaches slot s next: 1 .. 1024. */
  function Distance(from: Slot, s: Slot): (d: nat)
    ensures 1 <= d <= NR_SESSIONS
  {
    if s > from then s - from else s + NR_SESSIONS - from
  }

  /** How many scans an armed slot still needs to fire. */
  function Due(t: Tim, s: Slot): nat {
    Distance(t.scan, s) + t.slots[s].time * NR_SESSIONS
  }

  lemma DistanceStep(from: Slot, s: Slot)
    ensures NextSlot(from) == s ==> Distance(from, s) == 1 && Distance(s, s) == NR_SESSIONS
    ensures NextSlot(from) != s ==> Distance(NextSlot(from), s) == Distance(from, s) - 1
  {
  }

  lemma {:induction false} StaysSilent(t: Tim, reqs: seq<Option<TimerReq>>, s: Slot)
    requires NotFor(reqs, s) && !t.slots[s].active
    ensures Fired(t, reqs, s) == 0 && !After(t, reqs).slots[s].active
    decreases |reqs|
  {
    if reqs != [] {
      StaysSilent(TimerCall(t, reqs[0]).0, reqs[1..], s);
    }
  }

  /** An armed timer that gets no further request fires exactly once, on the
      scan it is due, whatever requests for other slots come in between; before
      that it is still armed, afterwards it is off. */
  lemma {:induction false} FiresWhenDue(t: Tim, reqs: seq<Option<TimerReq>>, s: Slot)
    requires NotFor(reqs, s) && t.slots[s].active
    ensures Fired(t, reqs, s) == (if Scans(reqs) >= Due(t, s) then 1 else 0)
    ensures After(t, reqs).slots[s].active <==> Scans(reqs) < Due(t, s)
    decreases |reqs|
  {
    if reqs != [] {
      var (t', out) := TimerCall(t, reqs[0]);
      DistanceStep(t.scan, s);
      if out == Some(s) {
        StaysSilent(t', reqs[1..], s);
      } else {
        assert t'.slots[s].active;
        assert Due(t', s) == Due(t, s) - (if reqs[0].None? then 1 else 0);
        FiresWhenDue(t', reqs[1..], s);
      }
    }
  }

  /** A slot that was just reset fires after at most one full round of scans
      more than its start time, and not before its start time has passed. */
  lemma ResetIsDue(t: Tim, s: Slot)
    ensures var t' := Serve(t, Reset(s));
            START_TIME * NR_SESSIONS < Due(t', s) <= (START_TIME + 1) * NR_SESSIONS
            && RETRANS_TIMEOUT_CYCLE < Due(t', s)
  {
  }

  // ---- the last request decides

  lemma {:induction false} FiredSplit(t: Tim, before: seq<Option<TimerReq>>, after: seq<Option<TimerReq>>, s: Slot)
    ensures Fired(t, before + after, s) == Fired(t, before, s) + Fired(After(t, before), after, s)
    ensures After(t, before + after) == After(After(t, before), after)
    decreases |before|
  {
    if before == [] {
      assert before + after == after;
    } else {
      assert (before + after)[0] == before[0] && (before + after)[1..] == before[1..] + after;
      FiredSplit(TimerCall(t, before[0]).0, before[1..], after, s);
    }
  }

  /** Only scans move the counter. */
  lemma {:induction false} ScanAfter(t: Tim, reqs: seq<Option<TimerReq>>)
    ensures After(t, reqs).scan == (t.scan + Scans(reqs)) % NR_SESSIONS
    decreases |reqs|
  {
    if reqs != [] {
      var t1 := TimerCall(t, reqs[0]).0;
      CallScan(t, reqs[0]);
      hide TimerCall;
      ScanAfter(t1, reqs[1..]);
      Around(t.scan, Scans(reqs[1..]));
    }
  }

  lemma CallScan(t: Tim, req: Option<TimerReq>)
    ensures TimerCall(t, req).0.scan == if req.None? then NextSlot(t.scan) else t.scan
  {
  }

  lemma Around(scan: Slot, n: nat)
    ensures (NextSlot(scan) + n) % NR_SESSIONS == (scan + 1 + n) % NR_SESSIONS
  {
  }

  /** Scans that slot s needs to fire when it is reset after a number of scans. */
  function ResetDue(scan: Slot, scans: nat, s: Slot): nat {
    Distance((scan + scans) % NR_SESSIONS, s) + START_TIME * NR_SESSIONS
  }

  /** A request for s with nothing for s behind it. */
  lemma RequestDecides(t: Tim, q: TimerReq, after: seq<Option<TimerReq>>, s: Slot)
    requires q.slot == s && NotFor(after, s)
    ensures var due := Distance(t.scan, s) + START_TIME * NR_SESSIONS;
            && Fired(TimerCall(t, Some(q)).0, after, s) == (if q.Reset? && Scans(after) >= due then 1 else 0)
            && (After(TimerCall(t, Some(q)).0, after).slots[s].active <==> q.Reset? && Scans(after) < due)
  {
    hide Fired, After, Scans, NotFor, Distance;
    var t' := TimerCall(t, Some(q)).0;
    if q.Reset? {
      FiresWhenDue(t', after, s);
    } else {
      StaysSilent(t', after, s);
    }
  }

  lemma OneCall(t: Tim, q: TimerReq, s: Slot)
    ensures Fired(t, [Some(q)], s) == 0 && After(t, [Some(q)]) == TimerCall(t, Some(q)).0
  {
    var t' := TimerCall(t, Some(q)).0;
    assert After(t', []) == t' && Fired(t', [], s) == 0;
  }

  /** A run in which request q is the last for slot s: from then on s never fires after
      Stop; after Reset it fires once, as soon as the scans since reach what is due by the
      counter's place, and not before. What slot s was like before q does not matter. */
  lemma LastRequestDecides(t: Tim, before: seq<Option<TimerReq>>, q: TimerReq, after: seq<Option<TimerReq>>, s: Slot)
    requires q.slot == s && NotFor(after, s)
    ensures Fired(t, before + [Some(q)] + after, s)
      == Fired(t, before, s) + (if q.Reset? && Scans(after) >= ResetDue(t.scan, Scans(before), s) then 1 else 0)
    ensures After(t, before + [Some(q)] + after).slots[s].active
      <==> q.Reset? && Scans(after) < ResetDue(t.scan, Scans(before), s)
  {
    hide Fired, After, Scans, NotFor, Distance, TimerCall;
    FiredSplit(t, before + [Some(q)], after, s);
    FiredSplit(t, before, [Some(q)], s);
    OneCall(After(t, before), q, s);
    ScanAfter(t, before);
    RequestDecides(After(t, before), q, after, s);
  }
}
