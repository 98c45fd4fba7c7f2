/** What holds over every run of the whole controller. */
module SystemRuns {
  import opened Basics
  import opened RelayMachine
  import opened System
  import R = RelayRuns
  import C = Configs

  // ---------- Runs ----------

  predicate Fault(a: Action) {
    match a
    case Do(_, op) => !DriverOk(op)
    case Advance(ok) => !ok
    case CloseOne(_, ok) => !ok
    case _ => false
  }

  predicate Faultless(acts: seq<Action>) {
    forall a :: a in acts ==> !Fault(a)
  }

  predicate BeforeStop(acts: seq<Action>) {
    forall a :: a in acts ==> !a.Advance?
  }

  /** What a projected run inherits. */
  lemma {:induction false} ProjectionInherits(s: Sys, acts: seq<Action>, id: int)
    ensures Faultless(acts) ==> R.AllDriverOk(Project(s, acts, id))
    ensures s.phase.Serving? && BeforeStop(acts)
            ==> Run(s, acts).phase.Serving? && R.AllBeforeShutdown(Project(s, acts, id))
  {
    hide Perform, Housekeeping;
    if acts == [] {
    } else {
      ProjectionInherits(s, Init(acts), id);
      assert Last(acts) in acts;
    }
  }

  /** Every relay of every reachable state satisfies the machine's invariants. */
  lemma ReachableRelay(cfgs: seq<C.Relay>, t0: int, acts: seq<Action>, i: nat)
    requires C.ValidRelays(cfgs) && i < |cfgs|
    ensures var s := Run(Fresh(cfgs, t0), acts);
      && cfgs[i].id in s.relays
      && s.relays[cfgs[i].id].cfg == cfgs[i]
      && Inv(s.relays[cfgs[i].id])
      && (Faultless(acts) ==> Sound(s.relays[cfgs[i].id]))
      && (BeforeStop(acts) ==> Configured(s.relays[cfgs[i].id]) && Tidy(s.relays[cfgs[i].id]))
  {
    hide Run, Inv, Sound, Configured, Tidy, R.AllDriverOk, R.AllBeforeShutdown;
    var s := Fresh(cfgs, t0);
    var id := cfgs[i].id;
    FreshRelay(cfgs, t0, i);
    NewRelayInv(cfgs[i]);
    RelaysAreIndependent(s, acts, id);
    ProjectionInherits(s, acts, id);
    R.RunInv(s.relays[id], Project(s, acts, id));
  }

  lemma FreshRelay(cfgs: seq<C.Relay>, t0: int, i: nat)
    requires C.ValidRelays(cfgs) && i < |cfgs|
    ensures cfgs[i].id in Fresh(cfgs, t0).relays
    ensures Fresh(cfgs, t0).relays[cfgs[i].id] == NewRelay(cfgs[i])
    ensures Fresh(cfgs, t0).phase.Serving?
  {
    FreshRelays(cfgs, t0);
  }

  /** The main refinement: without driver faults, in every interleaving of
      commands and arbitrarily late expiry closures over any number of relays,
      each relay goes through a run of the three-state relay, and its callers
      get the answers the three-state relay gives. */
  lemma EveryRelayRefines(cfgs: seq<C.Relay>, t0: int, acts: seq<Action>, i: nat)
    requires C.ValidRelays(cfgs) && i < |cfgs|
    requires Faultless(acts) && BeforeStop(acts)
    ensures var s := Fresh(cfgs, t0);
      var seen := Project(s, acts, cfgs[i].id);
      var lifted := R.LiftAll(NewRelay(cfgs[i]), seen);
      && cfgs[i].id in Run(s, acts).relays
      && View(Run(s, acts).relays[cfgs[i].id]) == R.SimpleRun(cfgs[i], Opened, lifted)
      && R.Replies(NewRelay(cfgs[i]), seen) == R.SimpleReplies(cfgs[i], Opened, lifted)
  {
    hide Run, Inv, Sound, Configured, Tidy, R.AllDriverOk, R.AllBeforeShutdown;
    var s := Fresh(cfgs, t0);
    FreshRelay(cfgs, t0, i);
    NewRelayInv(cfgs[i]);
    RelaysAreIndependent(s, acts, cfgs[i].id);
    ProjectionInherits(s, acts, cfgs[i].id);
    R.RunRefines(NewRelay(cfgs[i]), Project(s, acts, cfgs[i].id));
  }

  /** The generation rule in every reachable state before Shutdown: outstanding
      closures have distinct generations, none beyond the relay's; and without
      driver faults a timed pulse is running exactly when a closure of the
      current generation is outstanding, exactly when the timer is set, exactly
      when the deadline is, and the line is energised exactly when on. */
  lemma GenerationsTellClosuresApart(cfgs: seq<C.Relay>, t0: int, acts: seq<Action>, i: nat)
    requires C.ValidRelays(cfgs) && i < |cfgs| && BeforeStop(acts)
    ensures var s := Run(Fresh(cfgs, t0), acts);
      && cfgs[i].id in s.relays
      && var r := s.relays[cfgs[i].id];
      && (forall c :: c in r.closures ==> 1 <= c.gen <= r.gen && r.closures[c] == 1)
      && (forall c, d :: c in r.closures && d in r.closures && c.gen == d.gen ==> c == d)
      && (r.latched ==> r.on)
      && (Faultless(acts) ==>
            && (r.on && !r.latched <==> r.timer.Some?)
            && (r.on && !r.latched <==> r.deadline.Some?)
            && (r.on && !r.latched <==> exists c :: Live(r, c))
            && (cfgs[i].enabled ==> (r.energised <==> r.on)))
  {
    ReachableRelay(cfgs, t0, acts, i);
    var r := Run(Fresh(cfgs, t0), acts).relays[cfgs[i].id];
    hide Run, Fresh;
    if Faultless(acts) { GenerationRule(r); }
  }

  // ---------- The pulse bound ----------

  function At(s: Sys, acts: seq<Action>, k: nat): Sys
    requires k <= |acts|
  {
    Run(s, acts[..k])
  }

  /** Action `i` is a Trigger on relay `id` that starts a pulse. */
  predicate Starts(s: Sys, acts: seq<Action>, id: int, i: nat) {
    && i < |acts| && id in At(s, acts, i).relays
    && acts[i].Do? && acts[i].id == id && acts[i].op.Trigger? && acts[i].op.ok
    && At(s, acts, i).relays[id].attached && !At(s, acts, i).relays[id].on
  }

  /** The closure of an armed timer is never overdue by more than `slack`. */
  ghost predicate Prompt(s: Sys, acts: seq<Action>, id: int, slack: int) {
    forall k: nat, c :: k <= |acts| && id in At(s, acts, k).relays
      && c in At(s, acts, k).relays[id].closures && At(s, acts, k).relays[id].timer == Some(c.gen)
      ==> At(s, acts, k).now <= c.due + slack
  }

  /** What ends a pulse in another way than by time: an On, Shutdown, or a
      driver that fails to release the line. */
  predicate Disturbs(s: Sys, a: Action, id: int) {
    id in s.relays && Concerns(s, a, id).Some? &&
    var op := Concerns(s, a, id).value;
    op.On? || !BeforeShutdown(op) || Strands(s.relays[id], op, s.now) || RunsAway(s.relays[id], op, s.now)
  }

  ghost predicate EnergisedBetween(s: Sys, acts: seq<Action>, id: int, i: nat, j: nat)
    requires j <= |acts|
  {
    forall k :: i < k <= j ==> id in At(s, acts, k).relays && At(s, acts, k).relays[id].energised
  }

  ghost predicate UndisturbedBetween(s: Sys, acts: seq<Action>, id: int, i: nat, j: nat)
    requires j <= |acts|
  {
    forall k :: i < k < j ==> !Disturbs(At(s, acts, k), acts[k], id)
  }

  lemma {:induction false} PulseHolds(s: Sys, acts: seq<Action>, id: int, i: nat, j: nat)
    requires id in s.relays && Inv(s.relays[id]) && Starts(s, acts, id, i) && i < j <= |acts|
    requires EnergisedBetween(s, acts, id, i, j) && UndisturbedBetween(s, acts, id, i, j)
    ensures id in At(s, acts, j).relays
    ensures var r := At(s, acts, j).relays[id];
      && Inv(r) && r.attached && r.timer.Some?
      && r.deadline == Some(At(s, acts, i).now + PulseLength(s.relays[id].cfg, acts[i].op.d))
  {
    hide Run, Step, Apply, Inv, Strands, RunsAway, At, TargetOf;
    var b := At(s, acts, j - 1);
    AtNext(s, acts, id, j - 1);
    if i == j - 1 {
      TriggerConcerns(b, acts[i], id);
      R.PulseStart(b.relays[id], acts[i].op.d, b.now);
    } else {
      PulseHolds(s, acts, id, i, j - 1);
      assert At(s, acts, j).relays[id].energised;
      if Concerns(b, acts[j - 1], id).Some? {
        R.PulseGoesOn(b.relays[id], Concerns(b, acts[j - 1], id).value, b.now);
      }
    }
  }

  lemma TriggerConcerns(s: Sys, a: Action, id: int)
    requires id in s.relays && a.Do? && a.id == id && a.op.Trigger?
    ensures Concerns(s, a, id) == Some(a.op)
  {
  }

  /** The next state of one relay in a run. */
  lemma AtNext(s: Sys, acts: seq<Action>, id: int, k: nat)
    requires id in s.relays && Inv(s.relays[id]) && k < |acts|
    ensures id in At(s, acts, k).relays && id in At(s, acts, k + 1).relays
    ensures var r := At(s, acts, k).relays[id];
      && Inv(r) && r.cfg == s.relays[id].cfg
      && At(s, acts, k + 1).relays[id] ==
         match Concerns(At(s, acts, k), acts[k], id)
         case None => r
         case Some(op) => Apply(r, op, At(s, acts, k).now)
  {
    hide Run, Step, Apply, Inv, Concerns;
    var b := At(s, acts, k);
    assert Init(acts[..k + 1]) == acts[..k];
    RunUnfolds(s, acts[..k + 1]);
    RelaysAreIndependent(s, acts[..k], id);
    R.RunInv(s.relays[id], Project(s, acts[..k], id));
    assert id in b.relays.Keys;
    StepFrame(b, acts[k], id);
    assert id in Step(b, acts[k]).relays.Keys;
  }

  lemma RunUnfolds(s: Sys, acts: seq<Action>)
    requires acts != []
    ensures Run(s, acts) == Step(Run(s, Init(acts)), Last(acts))
  {
  }

  /** The pulse bound: as long as the line stays energised, however many further
      Triggers with any durations arrive, no more time passes than the duration
      of the Trigger that started the pulse, plus the scheduling slack. */
  lemma PulseBound(s: Sys, acts: seq<Action>, id: int, i: nat, j: nat, slack: int)
    requires id in s.relays && Inv(s.relays[id]) && Starts(s, acts, id, i) && i < j <= |acts|
    requires EnergisedBetween(s, acts, id, i, j) && UndisturbedBetween(s, acts, id, i, j)
    requires Prompt(s, acts, id, slack)
    ensures At(s, acts, j).now <= At(s, acts, i).now + PulseLength(s.relays[id].cfg, acts[i].op.d) + slack
  {
    hide Run, Step, Apply, At;
    PulseHolds(s, acts, id, i, j);
    var r := At(s, acts, j).relays[id];
    assert Closure(r.gen, r.deadline.value) in r.closures;
  }

  lemma {:induction false} ClockGrows(s: Sys, acts: seq<Action>, j: nat, k: nat)
    requires j <= k <= |acts|
    ensures At(s, acts, j).now <= At(s, acts, k).now
    decreases k
  {
    hide Step;
    if j == k {
    } else {
      ClockGrows(s, acts, j, k - 1);
      assert Init(acts[..k]) == acts[..k - 1];
      StepClock(At(s, acts, k - 1), acts[k - 1]);
    }
  }

  lemma StepClock(s: Sys, a: Action)
    ensures s.now <= Step(s, a).now
  {
    hide Apply, Drives, Publishes, TargetOf;
  }

  /** Two coalesced answers within one pulse never report more time the second
      time. */
  lemma CoalescedNeverIncreases(s: Sys, acts: seq<Action>, id: int, i: nat, j: nat, k: nat)
    requires id in s.relays && Inv(s.relays[id]) && Starts(s, acts, id, i) && i < j <= k < |acts|
    requires EnergisedBetween(s, acts, id, i, k) && UndisturbedBetween(s, acts, id, i, k)
    ensures id in At(s, acts, j).relays && id in At(s, acts, k).relays
    ensures var r, q := At(s, acts, j).relays[id], At(s, acts, k).relays[id];
      var first, second := MsUntil(r.deadline, At(s, acts, j).now), MsUntil(q.deadline, At(s, acts, k).now);
      && 0 <= second <= first
      && (forall d, ok :: Reply(r, Trigger(d, ok), At(s, acts, j).now) == Done(true, true, first))
      && (forall d, ok :: Reply(q, Trigger(d, ok), At(s, acts, k).now) == Done(true, true, second))
  {
    hide Run, Apply, At, Starts, Disturbs;
    PulseHolds(s, acts, id, i, j);
    PulseHolds(s, acts, id, i, k);
    ClockGrows(s, acts, j, k);
    var r, q := At(s, acts, j).relays[id], At(s, acts, k).relays[id];
    CoalescedAnswer(r, At(s, acts, j).now);
    CoalescedAnswer(q, At(s, acts, k).now);
  }

  lemma CoalescedAnswer(r: Relay, now: int)
    requires Inv(r) && r.attached && r.timer.Some?
    ensures forall d, ok :: Reply(r, Trigger(d, ok), now) == Done(true, true, MsUntil(r.deadline, now))
  {
  }

  /** A line that is not energised is energised only by a Trigger that starts a
      pulse, or by an On. */
  lemma RiseNeedsCommand(r: Relay, op: Op, now: int)
    requires Inv(r) && !r.energised && Apply(r, op, now).energised
    ensures r.attached && !r.on && ((op.Trigger? && op.ok) || op.On?)
  {
  }

  ghost predicate Rises(s: Sys, acts: seq<Action>, id: int, i: nat) {
    && i < |acts| && id in At(s, acts, i).relays && id in At(s, acts, i + 1).relays
    && !At(s, acts, i).relays[id].energised && At(s, acts, i + 1).relays[id].energised
  }

  lemma ConcernedTrigger(s: Sys, a: Action, id: int)
    ensures Concerns(s, a, id).Some? && Concerns(s, a, id).value.Trigger? ==>
      a.Do? && a.id == id && a.op == Concerns(s, a, id).value
  {
  }

  lemma RiseStarts(s: Sys, acts: seq<Action>, id: int, i: nat)
    requires id in s.relays && Inv(s.relays[id]) && Rises(s, acts, id, i)
    requires !Disturbs(At(s, acts, i), acts[i], id)
    ensures Starts(s, acts, id, i)
  {
    hide Run, Step, Apply, Inv, At, Strands, RunsAway, Concerns;
    var b := At(s, acts, i);
    AtNext(s, acts, id, i);
    assert Concerns(b, acts[i], id).Some?;
    RiseNeedsCommand(b.relays[id], Concerns(b, acts[i], id).value, b.now);
    ConcernedTrigger(b, acts[i], id);
  }

  /** No line is held: in any run of a validated configuration under requests
      with checked durations, any interval in which a line is energised and that
      no On, no Shutdown and no driver failure disturbs, from its rising edge on,
      lasts at most as long as the Trigger that started it asked for, and at most
      300000 ms, plus the scheduling slack. */
  lemma EnergisedIntervalBound(cfgs: seq<C.Relay>, t0: int, acts: seq<Action>, x: nat, i: nat, j: nat, slack: int)
    requires C.ValidRelays(cfgs) && x < |cfgs| && i < j <= |acts|
    requires var s, id := Fresh(cfgs, t0), cfgs[x].id;
      && Rises(s, acts, id, i) && !Disturbs(At(s, acts, i), acts[i], id)
      && EnergisedBetween(s, acts, id, i, j) && UndisturbedBetween(s, acts, id, i, j)
      && Prompt(s, acts, id, slack)
    requires AllHttpBounded(acts)
    ensures acts[i].Do? && acts[i].id == cfgs[x].id && acts[i].op.Trigger?
    ensures var start, end := At(Fresh(cfgs, t0), acts, i).now, At(Fresh(cfgs, t0), acts, j).now;
      && end <= start + PulseLength(cfgs[x], acts[i].op.d) + slack
      && end <= start + 300_000 * 1_000_000 + slack
  {
    var s, id := Fresh(cfgs, t0), cfgs[x].id;
    FreshRelay(cfgs, t0, x);
    NewRelayInv(cfgs[x]);
    RiseStarts(s, acts, id, i);
    PulseBound(s, acts, id, i, j, slack);
    hide Run, Step, Apply, Inv, At, Prompt, EnergisedBetween, UndisturbedBetween;
    assert acts[i] in acts;
    R.PulseLengthBounds(cfgs[x], acts[i].op);
  }

  // ---------- Reported times ----------

  /** The durations that requests ask for are absent or checked. */
  predicate AllHttpBounded(acts: seq<Action>) {
    forall a :: a in acts && a.Do? ==> R.HttpBounded(a.op)
  }

  lemma {:induction false} ProjectBounded(s: Sys, acts: seq<Action>, id: int)
    requires AllHttpBounded(acts)
    ensures forall t :: t in Project(s, acts, id) ==> R.HttpBounded(t.op)
  {
    hide Run, Step;
    if acts == [] {
    } else {
      ProjectBounded(s, Init(acts), id);
      assert Last(acts) in acts;
    }
  }

  /** At any time of any run of a validated configuration, what a relay reports as
      time left, in a listing or in the answer to a request, is within
      0..300000 ms. */
  lemma RemainingBounded(cfgs: seq<C.Relay>, t0: int, acts: seq<Action>, i: nat, now: int)
    requires C.ValidRelays(cfgs) && i < |cfgs| && AllHttpBounded(acts) && Run(Fresh(cfgs, t0), acts).now <= now
    ensures cfgs[i].id in Run(Fresh(cfgs, t0), acts).relays
    ensures var r := Run(Fresh(cfgs, t0), acts).relays[cfgs[i].id];
      && 0 <= TakeSnapshot(r, now).remainingMs <= 300_000
      && forall op :: R.HttpBounded(op) && Reply(r, op, now).Done? ==>
           0 <= Reply(r, op, now).remainingMs <= 300_000
  {
    hide Run, Inv, Sound, Configured, Tidy, Apply, Reply, R.HttpBounded, C.ValidRelay, Fresh;
    var s, id := Fresh(cfgs, t0), cfgs[i].id;
    FreshRelay(cfgs, t0, i);
    NewRelayInv(cfgs[i]);
    RelaysAreIndependent(s, acts, id);
    ProjectBounded(s, acts, id);
    var p := Project(s, acts, id);
    if p != [] { assert Last(p) in p; }
    R.RemainingBounded(NewRelay(cfgs[i]), p, now);
    ReachableRelay(cfgs, t0, acts, i);
    var r := Run(s, acts).relays[id];
    forall op | R.HttpBounded(op)
      ensures Reply(r, op, now).Done? ==> 0 <= Reply(r, op, now).remainingMs <= C.MAX_DURATION_MS
    {
      R.RemainingStep(r, op, now);
    }
  }

  // ---------- The history gives the levels ----------

  /** The level last driven on a line. */
  function LastDriven(history: seq<Transition>, offset: int): Option<bool> {
    if history == [] then None
    else if Last(history).offset == offset then Some(Last(history).active)
    else LastDriven(Init(history), offset)
  }

  ghost predicate DistinctPins(s: Sys) {
    forall i, j :: i in s.relays && j in s.relays && i != j ==> s.relays[i].cfg.gpio != s.relays[j].cfg.gpio
  }

  ghost predicate LevelsMatch(s: Sys) {
    forall i :: i in s.relays ==>
      s.relays[i].energised == LastDriven(s.history, s.relays[i].cfg.gpio).GetOr(false)
  }

  lemma DriveSetsLevel(r: Relay, op: Op, now: int)
    ensures Apply(r, op, now).energised == Drives(r, op, now).GetOr(r.energised)
    ensures Apply(r, op, now).cfg == r.cfg
  {
  }

  lemma HistoryStep(s: Sys, a: Action)
    ensures match TargetOf(s, a)
            case Nothing => Step(s, a).history == s.history && Step(s, a).relays == s.relays
            case Target(id, op) =>
              var r := s.relays[id];
              && Step(s, a).relays == s.relays[id := Apply(r, op, s.now)]
              && Step(s, a).history == s.history +
                 match Drives(r, op, s.now)
                 case None => []
                 case Some(level) => [Transition(r.cfg.gpio, level, s.now)]
  {
    hide Apply, Drives, TargetOf;
  }

  /** How one operation moves the levels of all lines. */
  lemma LevelsAfter(s: Sys, a: Action, id: int, op: Op)
    requires TargetOf(s, a) == Target(id, op)
    ensures var d := Drives(s.relays[id], op, s.now);
      forall offset :: LastDriven(Step(s, a).history, offset) ==
        if d.Some? && offset == s.relays[id].cfg.gpio then d else LastDriven(s.history, offset)
  {
    hide Drives, Step, TargetOf;
    HistoryStep(s, a);
    var d := Drives(s.relays[id], op, s.now);
    if d.Some? {
      assert Init(Step(s, a).history) == s.history;
    } else {
      assert Step(s, a).history == s.history;
    }
  }

  lemma LevelsStep(s: Sys, a: Action)
    requires DistinctPins(s) && LevelsMatch(s)
    ensures DistinctPins(Step(s, a)) && LevelsMatch(Step(s, a))
  {
    hide Apply, Drives, Step, TargetOf, LastDriven;
    HistoryStep(s, a);
    match TargetOf(s, a)
    case Nothing =>
    case Target(id, op) =>
      DriveSetsLevel(s.relays[id], op, s.now);
      LevelsAfter(s, a, id, op);
  }

  /** The relay's recorded level is the last level in the backend's history,
      under any faults and through shutdown. */
  lemma {:induction false} HistoryGivesLevels(s: Sys, acts: seq<Action>)
    requires DistinctPins(s) && LevelsMatch(s)
    ensures DistinctPins(Run(s, acts)) && LevelsMatch(Run(s, acts))
  {
    hide Step, DistinctPins, LevelsMatch;
    if acts == [] {
    } else {
      HistoryGivesLevels(s, Init(acts));
      LevelsStep(Run(s, Init(acts)), Last(acts));
    }
  }

  lemma FreshLevels(cfgs: seq<C.Relay>, t0: int)
    requires C.ValidRelays(cfgs)
    ensures DistinctPins(Fresh(cfgs, t0)) && LevelsMatch(Fresh(cfgs, t0))
    ensures Released(Fresh(cfgs, t0)) && ReleasedInactive(Fresh(cfgs, t0))
  {
    hide Fresh;
    FreshRelays(cfgs, t0);
  }

  /** No line is energised twice without having been released in between. */
  ghost predicate Alternates(history: seq<Transition>) {
    forall k :: 0 <= k < |history| && history[k].active ==>
      LastDriven(history[..k], history[k].offset) != Some(true)
  }

  lemma DriveStep(r: Relay, op: Op, now: int)
    requires Inv(r) && Sound(r) && DriverOk(op)
    ensures Drives(r, op, now) == Some(true) ==> !r.energised
  {
  }

  lemma ReachableAll(cfgs: seq<C.Relay>, t0: int, acts: seq<Action>)
    requires C.ValidRelays(cfgs) && Faultless(acts)
    ensures forall id :: id in Run(Fresh(cfgs, t0), acts).relays ==>
      Inv(Run(Fresh(cfgs, t0), acts).relays[id]) && Sound(Run(Fresh(cfgs, t0), acts).relays[id])
  {
    hide Run, Inv, Sound, Fresh;
    FreshRelays(cfgs, t0);
    forall id | id in Run(Fresh(cfgs, t0), acts).relays
      ensures Inv(Run(Fresh(cfgs, t0), acts).relays[id]) && Sound(Run(Fresh(cfgs, t0), acts).relays[id])
    {
      SameKeys(Fresh(cfgs, t0), acts);
      assert id in Run(Fresh(cfgs, t0), acts).relays.Keys;
      var i :| 0 <= i < |cfgs| && cfgs[i].id == id;
      ReachableRelay(cfgs, t0, acts, i);
    }
  }

  lemma {:induction false} SameKeys(s: Sys, acts: seq<Action>)
    ensures Run(s, acts).relays.Keys == s.relays.Keys
  {
    hide Step;
    if acts == [] {
    } else {
      SameKeys(s, Init(acts));
      HistoryStep(Run(s, Init(acts)), Last(acts));
    }
  }

  lemma AlternatesStep(s: Sys, a: Action)
    requires LevelsMatch(s) && Alternates(s.history) && !Fault(a)
    requires forall id :: id in s.relays ==> Inv(s.relays[id]) && Sound(s.relays[id])
    ensures Alternates(Step(s, a).history)
  {
    hide Apply, Drives, Step, LastDriven, Inv, Sound;
    HistoryStep(s, a);
    var h := Step(s, a).history;
    assert forall k :: 0 <= k <= |s.history| && |s.history| <= |h| ==> h[..k] == s.history[..k];
    assert s.history[..|s.history|] == s.history;
    if TargetOf(s, a).Target? {
      DriveStep(s.relays[TargetOf(s, a).id], TargetOf(s, a).op, s.now);
    }
  }

  /** The transition history of any run without driver faults, shutdown
      included, never energises a line that is energised already. */
  lemma {:induction false} NoDoubleEnergise(cfgs: seq<C.Relay>, t0: int, acts: seq<Action>)
    requires C.ValidRelays(cfgs) && Faultless(acts)
    ensures Alternates(Run(Fresh(cfgs, t0), acts).history)
  {
    hide Step, LevelsMatch, DistinctPins, Alternates, Inv, Sound, Fresh;
    FreshRelays(cfgs, t0);
    if acts == [] {
      assert Alternates([]) by { NoHistory(); }
    } else {
      NoDoubleEnergise(cfgs, t0, Init(acts));
      ReachableAll(cfgs, t0, Init(acts));
      FreshLevels(cfgs, t0);
      HistoryGivesLevels(Fresh(cfgs, t0), Init(acts));
      assert Last(acts) in acts;
      AlternatesStep(Run(Fresh(cfgs, t0), Init(acts)), Last(acts));
    }
  }

  lemma NoHistory()
    ensures Alternates([])
  {
  }

  // ---------- Shutdown ----------

  /** closeAll is past this relay. */
  predicate Passed(phase: Phase, id: int) {
    phase.Stopped? || (phase.Closing? && id !in phase.left)
  }

  ghost predicate Released(s: Sys) {
    forall i :: i in s.relays && Passed(s.phase, i) ==> !s.relays[i].attached
  }

  /** A configured line that has been released was last driven inactive. */
  ghost predicate ReleasedInactive(s: Sys) {
    forall i :: i in s.relays && s.relays[i].cfg.enabled && !s.relays[i].attached ==>
      LastDriven(s.history, s.relays[i].cfg.gpio) == Some(false)
  }

  lemma DetachedStays(r: Relay, op: Op, now: int)
    ensures !r.attached ==> !Apply(r, op, now).attached && Drives(r, op, now).None?
    ensures op.Close? ==> !Apply(r, op, now).attached
    ensures r.attached && !Apply(r, op, now).attached && DriverOk(op) ==> Drives(r, op, now) == Some(false)
  {
  }

  lemma ReleasedStep(s: Sys, a: Action)
    requires DistinctPins(s) && Released(s)
    ensures Released(Step(s, a))
    ensures ReleasedInactive(s) && !Fault(a) ==> ReleasedInactive(Step(s, a))
  {
    hide Apply, Drives, Step, LastDriven, Passed, NextPhase;
    HistoryStep(s, a);
    PhaseStep(s, a);
    forall i | i in s.relays
      ensures Passed(NextPhase(s, a), i) ==>
        Passed(s.phase, i) || (TargetOf(s, a).Target? && TargetOf(s, a).id == i && TargetOf(s, a).op.Close?)
    {
      NewlyPassed(s, a, i);
    }
    match TargetOf(s, a)
    case Nothing =>
    case Target(id, op) =>
      DriveSetsLevel(s.relays[id], op, s.now);
      DetachedStays(s.relays[id], op, s.now);
      LevelsAfter(s, a, id, op);
  }

  /** A relay is passed only by having its line closed. */
  lemma NewlyPassed(s: Sys, a: Action, i: int)
    requires i in s.relays
    ensures Passed(NextPhase(s, a), i) ==>
      Passed(s.phase, i) || (TargetOf(s, a).Target? && TargetOf(s, a).id == i && TargetOf(s, a).op.Close?)
  {
    assert i in s.relays.Keys;
    if a.CloseOne? && s.phase.Closing? && i != a.id {
      assert i in s.phase.left - {a.id} <==> i in s.phase.left;
    }
  }

  lemma PhaseStep(s: Sys, a: Action)
    ensures Step(s, a).phase == NextPhase(s, a)
  {
    hide Perform, TargetOf;
  }

  lemma {:induction false} ReleasedRun(s: Sys, acts: seq<Action>)
    requires DistinctPins(s) && LevelsMatch(s) && Released(s) && ReleasedInactive(s)
    ensures Released(Run(s, acts))
    ensures Faultless(acts) ==> ReleasedInactive(Run(s, acts))
  {
    hide Step, DistinctPins, Released, ReleasedInactive, LevelsMatch;
    if acts == [] {
    } else {
      ReleasedRun(s, Init(acts));
      HistoryGivesLevels(s, Init(acts));
      ReleasedStep(Run(s, Init(acts)), Last(acts));
      assert Last(acts) in acts;
    }
  }

  /** Safe shutdown: commands and expiry closures may run between any two
      iterations of Shutdown and closeAll; once it is done, every configured
      line has been released and was last driven inactive. */
  lemma ShutdownIsSafe(cfgs: seq<C.Relay>, t0: int, acts: seq<Action>, i: nat)
    requires C.ValidRelays(cfgs) && i < |cfgs|
    requires Faultless(acts) && Run(Fresh(cfgs, t0), acts).phase.Stopped?
    ensures var s := Run(Fresh(cfgs, t0), acts);
      && cfgs[i].id in s.relays
      && !s.relays[cfgs[i].id].attached
      && !s.relays[cfgs[i].id].energised
      && (cfgs[i].enabled ==> LastDriven(s.history, cfgs[i].gpio) == Some(false))
  {
    hide Run, Inv;
    var s := Fresh(cfgs, t0);
    FreshLevels(cfgs, t0);
    ReleasedRun(s, acts);
    HistoryGivesLevels(s, acts);
    ReachableRelay(cfgs, t0, acts, i);
  }

  /** Shutdown is final: whatever runs afterwards, no line is ever driven
      again, and every command on every relay is answered "disabled". */
  lemma {:induction false} ShutdownIsFinal(s: Sys, acts: seq<Action>)
    requires s.phase.Stopped? && Released(s)
    ensures Run(s, acts).history == s.history
    ensures Run(s, acts).phase.Stopped? && Released(Run(s, acts))
    ensures forall i, op: Op, now :: i in Run(s, acts).relays && (op.Trigger? || op.On? || op.Off?)
              ==> Reply(Run(s, acts).relays[i], op, now) == Disabled
  {
    hide Step, Apply, Drives;
    if acts == [] {
    } else {
      ShutdownIsFinal(s, Init(acts));
      var b := Run(s, Init(acts));
      HistoryStep(b, Last(acts));
      PhaseStep(b, Last(acts));
      if TargetOf(b, Last(acts)).Target? {
        var t := TargetOf(b, Last(acts));
        DetachedStays(b.relays[t.id], t.op, b.now);
      }
    }
  }

  // ---------- Requests that change nothing ----------

  /** A coalesced Trigger, a Trigger on a latched relay, or the closure of a
      superseded pulse. */
  predicate Redundant(r: Relay, op: Op) {
    (op.Trigger? && r.attached && r.on) || (op.Fire? && op.c.gen != r.gen)
  }

  predicate RedundantAction(s: Sys, a: Action) {
    TargetOf(s, a).Target? && Redundant(s.relays[TargetOf(s, a).id], TargetOf(s, a).op)
  }

  /** The run without its redundant actions. */
  function Prune(s: Sys, acts: seq<Action>): seq<Action> {
    if acts == [] then []
    else if RedundantAction(Run(s, Init(acts)), Last(acts)) then Prune(s, Init(acts))
    else Prune(s, Init(acts)) + [Last(acts)]
  }

  /** Equal but for closures of superseded pulses that `q` still holds. */
  ghost predicate SameRelay(r: Relay, q: Relay) {
    && q == r.(closures := q.closures)
    && (forall c :: c in r.closures ==> c in q.closures)
    && (forall c :: c in q.closures ==> c in r.closures || c.gen < r.gen)
  }

  ghost predicate SameSys(s: Sys, t: Sys) {
    && t == s.(relays := t.relays)
    && s.relays.Keys == t.relays.Keys
    && (forall i :: i in s.relays ==> Inv(s.relays[i]) && Inv(t.relays[i]) && SameRelay(s.relays[i], t.relays[i]))
  }

  ghost predicate SameOutcome(r: Relay, q: Relay, op: Op, now: int) {
    && SameRelay(Apply(r, op, now), Apply(q, op, now))
    && Drives(r, op, now) == Drives(q, op, now)
    && Publishes(r, op, now) == Publishes(q, op, now)
    && TakeSnapshot(Apply(r, op, now), now) == TakeSnapshot(Apply(q, op, now), now)
  }

  lemma SameStep(r: Relay, q: Relay, op: Op, now: int)
    requires Inv(r) && Inv(q) && SameRelay(r, q)
    ensures Redundant(r, op) ==>
      SameRelay(Apply(r, op, now), q) && Drives(r, op, now).None? && !Publishes(r, op, now)
    ensures !Redundant(r, op) ==> SameOutcome(r, q, op, now)
  {
    hide Inv, Apply, Drives, Publishes, TakeSnapshot, Redundant;
    if Redundant(r, op) {
      RedundantStep(r, op, now);
    } else {
      SameFields(r, q, op, now);
      SameClosures(r, q, op, now);
      SameSnapshot(Apply(r, op, now), Apply(q, op, now), now);
    }
  }

  lemma RedundantStep(r: Relay, op: Op, now: int)
    requires Inv(r) && Redundant(r, op)
    ensures Drives(r, op, now).None? && !Publishes(r, op, now)
    ensures Apply(r, op, now) == r.(closures := Apply(r, op, now).closures)
    ensures forall c :: c in Apply(r, op, now).closures ==> c in r.closures
    ensures forall c :: c in r.closures ==> c in Apply(r, op, now).closures || c.gen < r.gen
  {
    if op.Fire? { RemovedClosure(r, op.c); }
  }

  /** Nothing but the collection of closures depends on stale closures. */
  lemma SameFields(r: Relay, q: Relay, op: Op, now: int)
    requires SameRelay(r, q) && !Redundant(r, op)
    ensures Apply(q, op, now) == Apply(r, op, now).(closures := Apply(q, op, now).closures)
    ensures Drives(r, op, now) == Drives(q, op, now) && Publishes(r, op, now) == Publishes(q, op, now)
  {
    if op.Fire? {
      SameFire(r, q, op.c, op.ok, now);
    } else {
      SameCall(r, q, op, now);
      SameDrive(r, q, op, now);
    }
    hide Apply, Drives, Publishes;
  }

  lemma SameFire(r: Relay, q: Relay, c: Closure, ok: bool, now: int)
    requires q == r.(closures := q.closures) && (c in r.closures <==> c in q.closures)
    ensures Apply(q, Fire(c, ok), now) == Apply(r, Fire(c, ok), now).(closures := Apply(q, Fire(c, ok), now).closures)
    ensures Drives(r, Fire(c, ok), now) == Drives(q, Fire(c, ok), now)
    ensures Publishes(r, Fire(c, ok), now) == Publishes(q, Fire(c, ok), now)
  {
  }

  lemma SameCall(r: Relay, q: Relay, op: Op, now: int)
    requires q == r.(closures := q.closures) && !op.Fire?
    ensures Apply(q, op, now) == Apply(r, op, now).(closures := Apply(q, op, now).closures)
  {
    hide Apply;
    if op.Trigger? || op.On? || op.Off? {
      SameCommand(r, q, op, now);
    } else {
      SameUpkeep(r, q, op, now);
    }
  }

  lemma SameCommand(r: Relay, q: Relay, op: Op, now: int)
    requires q == r.(closures := q.closures) && (op.Trigger? || op.On? || op.Off?)
    ensures Apply(q, op, now) == Apply(r, op, now).(closures := Apply(q, op, now).closures)
  {
  }

  lemma SameUpkeep(r: Relay, q: Relay, op: Op, now: int)
    requires q == r.(closures := q.closures) && (op.Drop? || op.Shut? || op.Close?)
    ensures Apply(q, op, now) == Apply(r, op, now).(closures := Apply(q, op, now).closures)
  {
    match op
    case Drop(c) => SameDrop(r, q, c, now);
    case Shut(ok) => SameShut(r, q, ok, now);
    case _ =>
  }

  lemma SameDrop(r: Relay, q: Relay, c: Closure, now: int)
    requires q == r.(closures := q.closures)
    ensures Apply(q, Drop(c), now) == Apply(r, Drop(c), now).(closures := Apply(q, Drop(c), now).closures)
  {
  }

  lemma SameShut(r: Relay, q: Relay, ok: bool, now: int)
    requires q == r.(closures := q.closures)
    ensures Apply(q, Shut(ok), now) == Apply(r, Shut(ok), now).(closures := Apply(q, Shut(ok), now).closures)
  {
  }

  lemma SameDrive(r: Relay, q: Relay, op: Op, now: int)
    requires q == r.(closures := q.closures) && !op.Fire?
    ensures Drives(r, op, now) == Drives(q, op, now) && Publishes(r, op, now) == Publishes(q, op, now)
  {
  }

  lemma SameSnapshot(r: Relay, q: Relay, now: int)
    requires q == r.(closures := q.closures)
    ensures TakeSnapshot(r, now) == TakeSnapshot(q, now)
  {
  }

  /** The closures that an operation takes out, and the one it adds. */
  predicate Takes(r: Relay, op: Op, now: int, c: Closure) {
    (op.Fire? && op.c == c && c.due <= now) || (op.Drop? && op.c == c && r.timer != Some(c.gen))
  }

  predicate Adds(r: Relay, op: Op, now: int, c: Closure) {
    op.Trigger? && r.attached && !r.on && op.ok && c == Closure(r.gen + 1, now + PulseLength(r.cfg, op.d))
  }

  lemma ClosuresAfter(r: Relay, op: Op, now: int)
    requires Inv(r)
    ensures r.gen <= Apply(r, op, now).gen
    ensures forall c :: c in Apply(r, op, now).closures <==>
      (c in r.closures && !Takes(r, op, now, c)) || Adds(r, op, now, c)
  {
    if op.Fire? || op.Drop? {
      RemovedClosure(r, op.c);
      TakenClosures(r, op, now);
    } else {
      AddedClosures(r, op, now);
    }
    hide Apply, Takes, Adds, Inv;
  }

  lemma TakenClosures(r: Relay, op: Op, now: int)
    requires op.Fire? || op.Drop?
    requires forall x :: x in r.closures - multiset{op.c} <==> x in r.closures && x != op.c
    ensures r.gen <= Apply(r, op, now).gen
    ensures forall c :: c in Apply(r, op, now).closures <==> c in r.closures && !Takes(r, op, now, c)
  {
  }

  lemma AddedClosures(r: Relay, op: Op, now: int)
    requires !op.Fire? && !op.Drop?
    ensures r.gen <= Apply(r, op, now).gen
    ensures forall c :: c in Apply(r, op, now).closures <==> c in r.closures || Adds(r, op, now, c)
  {
  }

  lemma SameClosures(r: Relay, q: Relay, op: Op, now: int)
    requires Inv(r) && Inv(q) && SameRelay(r, q) && !Redundant(r, op)
    ensures forall c :: c in Apply(r, op, now).closures ==> c in Apply(q, op, now).closures
    ensures forall c :: c in Apply(q, op, now).closures ==>
      c in Apply(r, op, now).closures || c.gen < Apply(r, op, now).gen
  {
    hide Apply, Inv;
    ClosuresAfter(r, op, now);
    ClosuresAfter(q, op, now);
  }

  lemma SameTarget(s: Sys, t: Sys, a: Action)
    requires SameSys(s, t)
    ensures TargetOf(s, a) == TargetOf(t, a) && NextPhase(s, a) == NextPhase(t, a)
  {
    hide Inv, SameRelay;
    assert forall i :: i in s.relays <==> i in s.relays.Keys;
    assert forall i :: i in t.relays <==> i in t.relays.Keys;
  }

  /** The operation does the same to two systems whose relays agree on it. */
  lemma SamePerform(s: Sys, t: Sys, id: int, op: Op)
    requires t == s.(relays := t.relays) && id in s.relays && id in t.relays
    requires s.relays[id].cfg == t.relays[id].cfg && SameOutcome(s.relays[id], t.relays[id], op, s.now)
    ensures Perform(t, id, op) == Perform(s, id, op).(relays := Perform(t, id, op).relays)
  {
    hide Apply, Drives, Publishes, TakeSnapshot;
  }

  /** A redundant operation only touches its relay's collection of closures. */
  lemma RedundantPerform(s: Sys, id: int, op: Op)
    requires id in s.relays && Drives(s.relays[id], op, s.now).None? && !Publishes(s.relays[id], op, s.now)
    ensures Perform(s, id, op) == s.(relays := s.relays[id := Apply(s.relays[id], op, s.now)])
  {
    hide Apply, Drives, Publishes;
    assert s.history + [] == s.history;
  }

  lemma SameSysStep(s: Sys, t: Sys, a: Action)
    requires SameSys(s, t)
    ensures SameSys(Step(s, a), if RedundantAction(s, a) then t else Step(t, a))
  {
    hide Inv, Apply, Drives, Publishes, TakeSnapshot, TargetOf, NextPhase, Redundant, Perform;
    SameTarget(s, t, a);
    match TargetOf(s, a)
    case Nothing => SameHousekeeping(s, t, a);
    case Target(id, op) =>
      assert id in s.relays.Keys;
      SameStep(s.relays[id], t.relays[id], op, s.now);
      InvStep(s.relays[id], op, s.now);
      InvStep(t.relays[id], op, s.now);
      RedundantPhase(s, a);
      PerformFrame(s, id, op);
      PerformFrame(t, id, op);
      hide SameRelay;
      if Redundant(s.relays[id], op) {
        RedundantPerform(s, id, op);
      } else {
        SamePerform(s, t, id, op);
      }
  }

  lemma SameHousekeeping(s: Sys, t: Sys, a: Action)
    requires SameSys(s, t) && TargetOf(s, a).Nothing? && TargetOf(t, a).Nothing? && NextPhase(s, a) == NextPhase(t, a)
    ensures SameSys(Step(s, a), Step(t, a))
  {
    hide Inv, SameRelay, TargetOf, NextPhase;
  }

  lemma RedundantPhase(s: Sys, a: Action)
    ensures RedundantAction(s, a) ==> NextPhase(s, a) == s.phase
  {
  }

  /** Deleting every coalesced Trigger, every Trigger on a latched relay and
      every stale expiry from a run changes nothing that can be seen: the same
      transition history, the same events, and the same final state of every
      relay, down to the generation counter. */
  lemma {:induction false} RedundantRequestsAreInvisible(s: Sys, acts: seq<Action>)
    requires forall i :: i in s.relays ==> Inv(s.relays[i])
    ensures SameSys(Run(s, acts), Run(s, Prune(s, acts)))
  {
    hide Step, Inv, RedundantAction, SameSys;
    if acts == [] {
      SameItself(s);
    } else {
      RedundantRequestsAreInvisible(s, Init(acts));
      var b := Run(s, Init(acts));
      SameSysStep(b, Run(s, Prune(s, Init(acts))), Last(acts));
      if !RedundantAction(b, Last(acts)) {
        assert Init(Prune(s, acts)) == Prune(s, Init(acts));
      }
    }
  }

  lemma SameItself(s: Sys)
    requires forall i :: i in s.relays ==> Inv(s.relays[i])
    ensures SameSys(s, s)
  {
  }
}
