/** Whole runs of one relay: any list of timed operations, with stale expiry
    closures running arbitrarily late. */
module RelayRuns {
  import opened Basics
  import opened RelayMachine
  import C = Configs

  datatype Timed = Timed(at: int, op: Op)

  function Run(r: Relay, ts: seq<Timed>): Relay {
    if ts == [] then r else Apply(Run(r, Init(ts)), Last(ts).op, Last(ts).at)
  }

  predicate AllBeforeShutdown(ts: seq<Timed>) {
    forall t :: t in ts ==> BeforeShutdown(t.op)
  }

  predicate AllDriverOk(ts: seq<Timed>) {
    forall t :: t in ts ==> DriverOk(t.op)
  }

  predicate ClockMovesForward(ts: seq<Timed>) {
    forall i, j :: 0 <= i <= j < |ts| ==> ts[i].at <= ts[j].at
  }

  /** The invariants hold in every reachable state. */
  lemma {:induction false} RunInv(r: Relay, ts: seq<Timed>)
    requires Inv(r)
    ensures Inv(Run(r, ts)) && Run(r, ts).cfg == r.cfg
    ensures Tidy(r) && AllBeforeShutdown(ts) ==> Tidy(Run(r, ts))
    ensures Sound(r) && AllDriverOk(ts) ==> Sound(Run(r, ts))
    ensures Configured(r) && AllBeforeShutdown(ts) ==> Configured(Run(r, ts))
  {
    hide Apply, Inv, Tidy, Sound, Configured;
    if ts == [] {
    } else {
      RunInv(r, Init(ts));
      InvStep(Run(r, Init(ts)), Last(ts).op, Last(ts).at);
      SoundStep(Run(r, Init(ts)), Last(ts).op, Last(ts).at);
    }
  }

  // ---------- Refinement of the three-state relay ----------

  datatype SimpleTimed = SimpleTimed(at: int, op: SimpleOp)

  function SimpleRun(cfg: C.Relay, s: Simple, ts: seq<SimpleTimed>): Simple {
    if ts == [] then s else SimpleApply(cfg, SimpleRun(cfg, s, Init(ts)), Last(ts).op, Last(ts).at)
  }

  function SimpleReplies(cfg: C.Relay, s: Simple, ts: seq<SimpleTimed>): seq<Answer> {
    if ts == [] then []
    else SimpleReplies(cfg, s, Init(ts)) + [SimpleReply(cfg, SimpleRun(cfg, s, Init(ts)), Last(ts).op, Last(ts).at)]
  }

  function Replies(r: Relay, ts: seq<Timed>): seq<Answer> {
    if ts == [] then [] else Replies(r, Init(ts)) + [Reply(Run(r, Init(ts)), Last(ts).op, Last(ts).at)]
  }

  function LiftAll(r: Relay, ts: seq<Timed>): seq<SimpleTimed> {
    if ts == [] then []
    else LiftAll(r, Init(ts)) + [SimpleTimed(Last(ts).at, Lift(Run(r, Init(ts)), Last(ts).op, Last(ts).at))]
  }

  /** With a driver that does not fail, every run is a run of the three-state
      relay under the same API calls at the same times: same states, same
      answers. Expiry closures appear in it only as ends of pulses. */
  lemma {:induction false} RunRefines(r: Relay, ts: seq<Timed>)
    requires Inv(r) && Sound(r) && Configured(r)
    requires AllDriverOk(ts) && AllBeforeShutdown(ts)
    ensures View(Run(r, ts)) == SimpleRun(r.cfg, View(r), LiftAll(r, ts))
    ensures Replies(r, ts) == SimpleReplies(r.cfg, View(r), LiftAll(r, ts))
    ensures |LiftAll(r, ts)| == |ts|
  {
    hide Apply, Reply, View, Inv, Sound, Configured, Lift, SimpleApply, SimpleReply;
    if ts == [] {
    } else {
      RunRefines(r, Init(ts));
      RunInv(r, Init(ts));
      RefinesStep(Run(r, Init(ts)), Last(ts).op, Last(ts).at);
      assert Init(LiftAll(r, ts)) == LiftAll(r, Init(ts));
    }
  }

  // ---------- One step of a pulse ----------

  lemma PulseStart(b: Relay, d: int, now: int)
    requires Inv(b) && b.attached && !b.on
    ensures var a := Apply(b, Trigger(d, true), now);
      Inv(a) && a.attached && a.timer.Some? && a.deadline == Some(now + PulseLength(b.cfg, d))
  {
    InvStep(b, Trigger(d, true), now);
  }

  /** Whatever happens to a running pulse either leaves it as it is, or
      de-energises the line, or is one of the disturbances. */
  lemma PulseGoesOn(b: Relay, op: Op, now: int)
    requires Inv(b) && b.attached && b.timer.Some?
    requires !op.On? && BeforeShutdown(op) && !Strands(b, op, now) && !RunsAway(b, op, now)
    requires Apply(b, op, now).energised
    ensures var a := Apply(b, op, now);
      Inv(a) && a.attached && a.timer.Some? && a.deadline == b.deadline
  {
    InvStep(b, op, now);
  }

  // ---------- Reported times ----------

  /** The duration_ms query parameter: absent, not a number, or a number. */
  datatype Query = Absent | Garbage | Number(ms: int)

  /** handleTrigger's reading of it; None is 400 Bad Request. */
  function Duration(q: Query): Option<int> {
    match q
    case Absent => Some(0)
    case Garbage => None
    case Number(ms) => if ms < C.MIN_DURATION_MS || ms > C.MAX_DURATION_MS then None else Some(ms * NS_PER_MS)
  }

  /** Durations as they reach Trigger: absent, or checked. */
  predicate HttpBounded(op: Op) {
    op.Trigger? ==> op.d == 0 || C.MIN_DURATION_MS * NS_PER_MS <= op.d <= C.MAX_DURATION_MS * NS_PER_MS
  }

  /** A request is taken exactly if it names no duration or one of 50 to 300000 ms;
      the pulse then lasts as long as it says, or else as configured, and on a
      validated relay between 50 and 300000 ms. */
  lemma RequestedPulseBounds(cfg: C.Relay, q: Query, ok: bool)
    requires C.ValidRelay(cfg)
    ensures Duration(q).Some? <==> q.Absent? || (q.Number? && 50 <= q.ms <= 300_000)
    ensures Duration(q).Some? ==>
      && HttpBounded(Trigger(Duration(q).value, ok))
      && PulseLength(cfg, Duration(q).value) == (if q.Number? then q.ms else cfg.durationMs) * 1_000_000
      && 50 <= PulseLength(cfg, Duration(q).value) / 1_000_000 <= 300_000
  {
  }

  lemma PulseLengthBounds(cfg: C.Relay, op: Op)
    requires C.ValidRelay(cfg) && op.Trigger? && HttpBounded(op)
    ensures C.MIN_DURATION_MS * NS_PER_MS <= PulseLength(cfg, op.d) <= C.MAX_DURATION_MS * NS_PER_MS
    ensures C.MIN_DURATION_MS <= PulseLength(cfg, op.d) / NS_PER_MS <= C.MAX_DURATION_MS
  {
  }

  /** No reported time leaves 0..300000 ms, in an answer or in a snapshot. */
  lemma {:induction false} RemainingBounded(r: Relay, ts: seq<Timed>, now: int)
    requires Inv(r) && r.deadline.None? && C.ValidRelay(r.cfg)
    requires forall t :: t in ts ==> HttpBounded(t.op)
    requires ClockMovesForward(ts) && (ts != [] ==> Last(ts).at <= now)
    ensures Run(r, ts).deadline.Some? ==> Run(r, ts).deadline.value <= now + C.MAX_DURATION_MS * NS_PER_MS
    ensures 0 <= MsUntil(Run(r, ts).deadline, now) <= C.MAX_DURATION_MS
    ensures forall a :: a in Replies(r, ts) && a.Done? ==> 0 <= a.remainingMs <= C.MAX_DURATION_MS
  {
    hide Apply, Reply, Inv, C.ValidRelay;
    if ts == [] {
    } else {
      RemainingBounded(r, Init(ts), Last(ts).at);
      RunInv(r, Init(ts));
      assert Last(ts) in ts;
      RemainingStep(Run(r, Init(ts)), Last(ts).op, Last(ts).at);
    }
    DeadlineMs(Run(r, ts).deadline, now);
  }

  lemma DeadlineMs(deadline: Option<int>, now: int)
    requires deadline.Some? ==> deadline.value <= now + C.MAX_DURATION_MS * NS_PER_MS
    ensures 0 <= MsUntil(deadline, now) <= C.MAX_DURATION_MS
  {
  }

  lemma RemainingStep(b: Relay, op: Op, now: int)
    requires C.ValidRelay(b.cfg) && HttpBounded(op)
    requires b.deadline.Some? ==> b.deadline.value <= now + C.MAX_DURATION_MS * NS_PER_MS
    ensures var a := Apply(b, op, now);
      a.deadline.Some? ==> a.deadline.value <= now + C.MAX_DURATION_MS * NS_PER_MS
    ensures Reply(b, op, now).Done? ==> 0 <= Reply(b, op, now).remainingMs <= C.MAX_DURATION_MS
  {
    DeadlineMs(b.deadline, now);
    if op.Trigger? { PulseLengthBounds(b.cfg, op); }
  }

  // ---------- Driver faults ----------

  predicate Coalesced(a: Answer) {
    a.Done? && a.deduplicated
  }

  /** What the failed Off costs: until someone latches or releases the relay,
      its line stays energised however much time passes, and every Trigger is
      answered as a duplicate. */
  lemma {:induction false} StrandedStaysEnergised(r: Relay, ts: seq<Timed>)
    requires Inv(r) && Stranded(r) && r.attached
    requires forall t :: t in ts ==> t.op.Trigger? || t.op.Fire? || t.op.Drop? || t.op == Off(false)
    ensures Stranded(Run(r, ts)) && Run(r, ts).energised && Run(r, ts).attached
    ensures forall d, now :: Coalesced(Reply(Run(r, ts), Trigger(d, true), now))
  {
    hide Apply, Reply, Inv, Stranded;
    if ts == [] {
      StrandedStep(r, Off(false), 0);
    } else {
      StrandedStaysEnergised(r, Init(ts));
      RunInv(r, Init(ts));
      assert Last(ts) in ts;
      StrandedStep(Run(r, Init(ts)), Last(ts).op, Last(ts).at);
    }
  }

  lemma StrandedStep(b: Relay, op: Op, now: int)
    requires Inv(b) && Stranded(b) && b.attached
    requires op.Trigger? || op.Fire? || op.Drop? || op == Off(false)
    ensures b.energised && forall d, t :: Coalesced(Reply(b, Trigger(d, true), t))
    ensures var a := Apply(b, op, now);
      && Stranded(a) && a.attached && a.energised
      && forall d, t :: Coalesced(Reply(a, Trigger(d, true), t))
  {
  }
}
