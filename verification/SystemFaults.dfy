/** What goes wrong, exactly: over every run of the controller, when a relay is
    left on with nothing to end it, when a line is energised with nothing to end
    that, what Shutdown leaves energised, and when a relay that is off still has
    a deadline. For each there is a run in which it happens. */
module SystemFaults {
  import opened Basics
  import opened RelayMachine
  import opened System
  import opened SystemRuns
  import C = Configs

  // ---------- Moments of a run ----------

  /** Action `k` of the run performs `op` on the relay. */
  function OpAt(s: Sys, acts: seq<Action>, id: int, k: nat): Option<Op> {
    if k < |acts| then Concerns(At(s, acts, k), acts[k], id) else None
  }

  function RelayAt(s: Sys, acts: seq<Action>, id: int, k: nat): Option<Relay> {
    if k <= |acts| && id in At(s, acts, k).relays then Some(At(s, acts, k).relays[id]) else None
  }

  /** Action `k` does `what` to the relay. */
  predicate HappensAt(s: Sys, acts: seq<Action>, id: int, what: (Relay, Op, int) -> bool, k: nat) {
    && OpAt(s, acts, id, k).Some? && RelayAt(s, acts, id, k).Some?
    && what(RelayAt(s, acts, id, k).value, OpAt(s, acts, id, k).value, At(s, acts, k).now)
  }

  /** It happens in the run, and what would end it does not happen afterwards. */
  ghost predicate HappenedForGood(
    s: Sys, acts: seq<Action>, id: int, what: (Relay, Op, int) -> bool, ends: (Relay, Op, int) -> bool)
  {
    exists k: nat ::
      && k < |acts| && HappensAt(s, acts, id, what, k)
      && forall m: nat :: k < m < |acts| ==> !HappensAt(s, acts, id, ends, m)
  }

  /** The relay, the operation on it if there is one, and the relay afterwards. */
  lemma RelayNext(s: Sys, acts: seq<Action>, id: int, k: nat)
    requires id in s.relays && Inv(s.relays[id]) && k < |acts|
    ensures RelayAt(s, acts, id, k).Some? && RelayAt(s, acts, id, k + 1).Some?
    ensures var r, t := RelayAt(s, acts, id, k).value, RelayAt(s, acts, id, k + 1).value;
      && Inv(r)
      && match OpAt(s, acts, id, k)
         case None => t == r
         case Some(op) => t == Apply(r, op, At(s, acts, k).now)
  {
    hide At, Concerns, Apply, Inv;
    AtNext(s, acts, id, k);
  }

  lemma RelayEnds(s: Sys, acts: seq<Action>, id: int)
    requires id in s.relays
    ensures RelayAt(s, acts, id, 0) == Some(s.relays[id])
    ensures id in Run(s, acts).relays && RelayAt(s, acts, id, |acts|) == Some(Run(s, acts).relays[id])
  {
    assert acts[..|acts|] == acts && acts[..0] == [];
    SameKeys(s, acts);
    assert id in Run(s, acts).relays.Keys;
    hide Step;
  }

  /** `holds` is established by the operations that do `starts`, ended by those
      that do `ends`, and changed by no other. */
  ghost predicate Governed(
    holds: Relay -> bool, starts: (Relay, Op, int) -> bool, ends: (Relay, Op, int) -> bool)
  {
    forall r: Relay, op: Op, now: int :: Inv(r) ==>
      (holds(Apply(r, op, now)) <==> starts(r, op, now) || (holds(r) && !ends(r, op, now)))
  }

  /** A property that is governed by operations holds at the end of a run exactly
      if it was established there and not ended since. */
  lemma GovernedRun(
    s: Sys, acts: seq<Action>, id: int,
    holds: Relay -> bool, starts: (Relay, Op, int) -> bool, ends: (Relay, Op, int) -> bool)
    requires id in s.relays && Inv(s.relays[id]) && !holds(s.relays[id]) && Governed(holds, starts, ends)
    ensures id in Run(s, acts).relays
    ensures holds(Run(s, acts).relays[id]) <==> HappenedForGood(s, acts, id, starts, ends)
  {
    hide Run, RelayAt, OpAt, At, Inv, Apply, Governed;
    RelayEnds(s, acts, id);
    var h := (k: nat) => RelayAt(s, acts, id, k).Some? && holds(RelayAt(s, acts, id, k).value);
    var b := (k: nat) => HappensAt(s, acts, id, starts, k);
    var e := (k: nat) => HappensAt(s, acts, id, ends, k);
    forall k: nat | k < |acts|
      ensures h(k + 1) <==> b(k) || (h(k) && !e(k))
    {
      RelayNext(s, acts, id, k);
      if OpAt(s, acts, id, k).Some? {
        var r, op := RelayAt(s, acts, id, k).value, OpAt(s, acts, id, k).value;
        GovernedStep(holds, starts, ends, r, op, At(s, acts, k).now);
      }
    }
    SinceIff(|acts|, h, b, e);
    SameMoments(s, acts, id, starts, ends, b, e);
  }

  lemma GovernedStep(
    holds: Relay -> bool, starts: (Relay, Op, int) -> bool, ends: (Relay, Op, int) -> bool, r: Relay, op: Op, now: int)
    requires Governed(holds, starts, ends) && Inv(r)
    ensures holds(Apply(r, op, now)) <==> starts(r, op, now) || (holds(r) && !ends(r, op, now))
  {
    hide Inv, Apply;
  }

  lemma SameMoments(
    s: Sys, acts: seq<Action>, id: int, starts: (Relay, Op, int) -> bool, ends: (Relay, Op, int) -> bool,
    b: nat -> bool, e: nat -> bool)
    requires forall k: nat :: b(k) == HappensAt(s, acts, id, starts, k)
    requires forall k: nat :: e(k) == HappensAt(s, acts, id, ends, k)
    ensures HappenedForGood(s, acts, id, starts, ends) <==>
      exists k: nat :: k < |acts| && b(k) && forall m: nat :: k < m < |acts| ==> !e(m)
  {
    hide HappensAt;
    if k: nat :| k < |acts| && b(k) && forall m: nat :: k < m < |acts| ==> !e(m) {
      assert HappensAt(s, acts, id, starts, k);
      forall m: nat | k < m < |acts|
        ensures !HappensAt(s, acts, id, ends, m)
      {
        assert !e(m);
      }
    }
    if HappenedForGood(s, acts, id, starts, ends) {
      var k: nat :| k < |acts| && HappensAt(s, acts, id, starts, k)
        && forall m: nat :: k < m < |acts| ==> !HappensAt(s, acts, id, ends, m);
      assert b(k) && forall m: nat :: k < m < |acts| ==> !e(m);
    }
  }

  /** The same from a new controller. */
  lemma GovernedFresh(
    cfgs: seq<C.Relay>, t0: int, acts: seq<Action>, i: nat,
    holds: Relay -> bool, starts: (Relay, Op, int) -> bool, ends: (Relay, Op, int) -> bool)
    requires C.ValidRelays(cfgs) && i < |cfgs| && !holds(NewRelay(cfgs[i])) && Governed(holds, starts, ends)
    ensures var s, id := Fresh(cfgs, t0), cfgs[i].id;
      && id in Run(s, acts).relays
      && (holds(Run(s, acts).relays[id]) <==> HappenedForGood(s, acts, id, starts, ends))
  {
    hide Run, Inv, Governed, HappenedForGood;
    FreshRelay(cfgs, t0, i);
    NewRelayInv(cfgs[i]);
    GovernedRun(Fresh(cfgs, t0), acts, cfgs[i].id, holds, starts, ends);
  }

  lemma AllGoverned()
    ensures Governed(Stranded, Strands, Frees)
    ensures Governed(Runaway, RunsAway, CatchesUp)
    ensures Governed(LeftEnergised, GivesUpEnergised, Never)
    ensures Governed(Untidy, LeavesDeadline, ClearsUp)
  {
    forall r: Relay, op: Op, now: int | Inv(r)
      ensures Stranded(Apply(r, op, now)) <==> Strands(r, op, now) || (Stranded(r) && !Frees(r, op, now))
      ensures Runaway(Apply(r, op, now)) <==> RunsAway(r, op, now) || (Runaway(r) && !CatchesUp(r, op, now))
      ensures LeftEnergised(Apply(r, op, now)) <==> GivesUpEnergised(r, op, now) || LeftEnergised(r)
      ensures Untidy(Apply(r, op, now)) <==> LeavesDeadline(r, op, now) || (Untidy(r) && !ClearsUp(r, op, now))
    {
      FaultStep(r, op, now);
      RunawayStep(r, op, now);
      UntidyStep(r, op, now);
    }
    hide Inv, Apply, Stranded, Strands, Frees, Runaway, RunsAway, CatchesUp;
    hide LeftEnergised, GivesUpEnergised, Untidy, LeavesDeadline, ClearsUp;
  }

  lemma NewRelayRests(cfg: C.Relay)
    ensures var r := NewRelay(cfg); !Stranded(r) && !Runaway(r) && !LeftEnergised(r) && !Untidy(r)
  {
  }

  // ---------- The four results ----------

  /** On, unlatched and with nothing to end it: in every run of a validated
      configuration, exactly when some Off failed during a pulse and no On, no
      successful Off and no Shutdown came after it. */
  lemma StrandedIff(cfgs: seq<C.Relay>, t0: int, acts: seq<Action>, i: nat)
    requires C.ValidRelays(cfgs) && i < |cfgs|
    ensures var s, id := Fresh(cfgs, t0), cfgs[i].id;
      && id in Run(s, acts).relays
      && (Stranded(Run(s, acts).relays[id]) <==> HappenedForGood(s, acts, id, Strands, Frees))
  {
    hide Run, Governed, HappenedForGood, Stranded, Strands, Frees;
    AllGoverned();
    NewRelayRests(cfgs[i]);
    GovernedFresh(cfgs, t0, acts, i, Stranded, Strands, Frees);
  }

  /** Energised with nothing to end it: in every run, shutdown included, exactly
      when an expiry, Shutdown or closeAll failed to de-energise the line and no
      drive has succeeded since. */
  lemma RunawayIff(cfgs: seq<C.Relay>, t0: int, acts: seq<Action>, i: nat)
    requires C.ValidRelays(cfgs) && i < |cfgs|
    ensures var s, id := Fresh(cfgs, t0), cfgs[i].id;
      && id in Run(s, acts).relays
      && (Runaway(Run(s, acts).relays[id]) <==> HappenedForGood(s, acts, id, RunsAway, CatchesUp))
  {
    hide Run, Governed, HappenedForGood, Runaway, RunsAway, CatchesUp;
    AllGoverned();
    NewRelayRests(cfgs[i]);
    GovernedFresh(cfgs, t0, acts, i, Runaway, RunsAway, CatchesUp);
  }

  /** What Shutdown leaves energised: once it is done, a line is energised, in fact
      and in the backend's history, exactly when closeAll found it energised and
      failed to release it, whatever came between Shutdown's loop and closeAll. */
  lemma EnergisedAfterShutdownIff(cfgs: seq<C.Relay>, t0: int, acts: seq<Action>, i: nat)
    requires C.ValidRelays(cfgs) && i < |cfgs| && Run(Fresh(cfgs, t0), acts).phase.Stopped?
    ensures var s, id := Fresh(cfgs, t0), cfgs[i].id;
      var t := Run(s, acts);
      && id in t.relays
      && (t.relays[id].energised <==> exists k: nat :: HappensAt(s, acts, id, GivesUpEnergised, k))
      && (LastDriven(t.history, cfgs[i].gpio) == Some(true) <==> t.relays[id].energised)
  {
    hide Run, Governed, GivesUpEnergised, HappensAt, Inv, Sound, Configured, Tidy, Fresh, LastDriven;
    var s, id := Fresh(cfgs, t0), cfgs[i].id;
    AllGoverned();
    NewRelayRests(cfgs[i]);
    GovernedFresh(cfgs, t0, acts, i, LeftEnergised, GivesUpEnergised, Never);
    NeverHappens(s, acts, id);
    FreshLevels(cfgs, t0);
    ReleasedRun(s, acts);
    HistoryGivesLevels(s, acts);
    ReachableRelay(cfgs, t0, acts, i);
  }

  lemma NeverHappens(s: Sys, acts: seq<Action>, id: int)
    ensures HappenedForGood(s, acts, id, GivesUpEnergised, Never) <==>
      exists k: nat :: HappensAt(s, acts, id, GivesUpEnergised, k)
  {
    hide GivesUpEnergised, RelayAt, At, Concerns;
    assert forall m: nat :: !HappensAt(s, acts, id, Never, m);
  }

  /** Shutdown has treated the first `n` relays. */
  ghost predicate ShutUpTo(s: Sys, acts: seq<Action>, n: nat) {
    forall i :: 0 <= i < n && i < |s.order| ==> WasShut(s, acts, s.order[i])
  }

  ghost predicate WasShut(s: Sys, acts: seq<Action>, id: int) {
    exists k: nat :: ShutAt(s, acts, id, k)
  }

  predicate ShutAt(s: Sys, acts: seq<Action>, id: int, k: nat) {
    OpAt(s, acts, id, k).Some? && OpAt(s, acts, id, k).value.Shut?
  }

  function HowFar(s: Sys): nat {
    match s.phase
    case Serving => 0
    case Stopping(n) => n
    case _ => |s.order|
  }

  lemma ShutStays(s: Sys, acts: seq<Action>, id: int)
    requires acts != [] && WasShut(s, Init(acts), id)
    ensures WasShut(s, acts, id)
  {
    hide Run, Concerns;
    var k: nat :| ShutAt(s, Init(acts), id, k);
    assert Init(acts)[..k] == acts[..k] && Init(acts)[k] == acts[k];
    assert ShutAt(s, acts, id, k);
  }

  lemma AdvanceShuts(s: Sys, a: Action)
    requires forall i :: 0 <= i < |s.order| ==> s.order[i] in s.relays
    requires HowFar(s) <= |s.order| && Step(s, a).order == s.order
    ensures HowFar(s) <= HowFar(Step(s, a)) <= HowFar(s) + 1 && HowFar(Step(s, a)) <= |s.order|
    ensures HowFar(Step(s, a)) > HowFar(s) ==>
      Concerns(s, a, s.order[HowFar(s)]).Some? && Concerns(s, a, s.order[HowFar(s)]).value.Shut?
  {
    PhaseStep(s, a);
    hide Step;
  }

  /** Shutdown leaves no relay out: in any run, once it is past its loop, every relay
      of the controller has been switched off by an iteration of it. */
  lemma {:induction false} ShutdownTreatsEveryRelay(s: Sys, acts: seq<Action>)
    requires s.phase.Serving? && forall i :: 0 <= i < |s.order| ==> s.order[i] in s.relays
    ensures var t := Run(s, acts);
      && t.order == s.order && HowFar(t) <= |s.order| && ShutUpTo(s, acts, HowFar(t))
      && (t.phase.Closing? || t.phase.Stopped? ==>
            forall i :: 0 <= i < |s.order| ==> WasShut(s, acts, s.order[i]))
  {
    hide Step, WasShut;
    if acts == [] {
    } else {
      var before := Init(acts);
      ShutdownTreatsEveryRelay(s, before);
      var b := Run(s, before);
      SameKeys(s, before);
      assert forall i :: 0 <= i < |b.order| ==> b.order[i] in b.relays.Keys;
      SameOrder(b, Last(acts));
      AdvanceShuts(b, Last(acts));
      forall i | 0 <= i < HowFar(Run(s, acts))
        ensures WasShut(s, acts, s.order[i])
      {
        if i < HowFar(b) {
          ShutStays(s, acts, s.order[i]);
        } else {
          ShutNow(s, acts, s.order[i]);
        }
      }
    }
  }

  lemma SameOrder(s: Sys, a: Action)
    ensures Step(s, a).order == s.order
  {
    hide Apply, Drives, Publishes;
  }

  lemma ShutNow(s: Sys, acts: seq<Action>, id: int)
    requires acts != [] && var o := Concerns(Run(s, Init(acts)), Last(acts), id); o.Some? && o.value.Shut?
    ensures WasShut(s, acts, id)
  {
    assert acts[..|acts| - 1] == Init(acts);
    assert ShutAt(s, acts, id, |acts| - 1);
  }

  /** A relay that is off still has a deadline, in any run whatever: exactly when
      Shutdown met it during a pulse and no command has succeeded since. It then
      reports time left for as long as the pulse would have lasted. */
  lemma UntidyIff(cfgs: seq<C.Relay>, t0: int, acts: seq<Action>, i: nat)
    requires C.ValidRelays(cfgs) && i < |cfgs|
    ensures var s, id := Fresh(cfgs, t0), cfgs[i].id;
      && id in Run(s, acts).relays
      && (Untidy(Run(s, acts).relays[id]) <==> HappenedForGood(s, acts, id, LeavesDeadline, ClearsUp))
      && forall now :: ReportsTimeWhileOff(Run(s, acts).relays[id], now)
  {
    hide Run, Governed, HappenedForGood, Untidy, LeavesDeadline, ClearsUp;
    AllGoverned();
    NewRelayRests(cfgs[i]);
    GovernedFresh(cfgs, t0, acts, i, Untidy, LeavesDeadline, ClearsUp);
    forall now
      ensures ReportsTimeWhileOff(Run(Fresh(cfgs, t0), acts).relays[cfgs[i].id], now)
    {
      TimeWhileOff(Run(Fresh(cfgs, t0), acts).relays[cfgs[i].id], now);
    }
  }

  /** It reports time left although it is off exactly while untidy. */
  predicate ReportsTimeWhileOff(r: Relay, now: int) {
    var st := TakeSnapshot(r, now);
    !st.on && st.remainingMs > 0 <==> Untidy(r) && now + NS_PER_MS <= r.deadline.value
  }

  lemma TimeWhileOff(r: Relay, now: int)
    ensures ReportsTimeWhileOff(r, now)
  {
  }

  // ---------- Runs in which they happen ----------

  /** A Trigger and then an Off that fails leave a relay stranded. */
  lemma StrandedIsReachable(cfgs: seq<C.Relay>, t0: int, i: nat)
    requires C.ValidRelays(cfgs) && i < |cfgs| && cfgs[i].enabled
    ensures var s := Run(Fresh(cfgs, t0), [Do(cfgs[i].id, Trigger(0, true)), Do(cfgs[i].id, Off(false))]);
      cfgs[i].id in s.relays && Stranded(s.relays[cfgs[i].id]) && s.relays[cfgs[i].id].energised
  {
    var s, id := Fresh(cfgs, t0), cfgs[i].id;
    var a, b := Do(id, Trigger(0, true)), Do(id, Off(false));
    FreshRelay(cfgs, t0, i);
    RunOne(s, [], a);
    RunOne(s, [a], b);
    assert [] + [a] == [a] && [a] + [b] == [a, b] && Run(s, []) == s;
    hide Run, Fresh, Step, Apply, Stranded, NewRelay;
    DoStep(s, id, Trigger(0, true));
    DoStep(Step(s, a), id, Off(false));
    OffFails(s.relays[id], s.now);
  }

  lemma OffFails(r: Relay, now: int)
    requires r == NewRelay(r.cfg) && r.cfg.enabled
    ensures var t := Apply(Apply(r, Trigger(0, true), now), Off(false), now); Stranded(t) && t.energised
  {
  }

  /** A pulse that the driver fails to end leaves the line energised. */
  lemma RunawayIsReachable(cfgs: seq<C.Relay>, t0: int, i: nat) returns (acts: seq<Action>)
    requires C.ValidRelays(cfgs) && i < |cfgs| && cfgs[i].enabled
    ensures BeforeStop(acts)
    ensures var s := Run(Fresh(cfgs, t0), acts);
      cfgs[i].id in s.relays && Runaway(s.relays[cfgs[i].id]) && !s.relays[cfgs[i].id].on
  {
    var s, id, d := Fresh(cfgs, t0), cfgs[i].id, cfgs[i].durationMs * NS_PER_MS;
    FreshRelay(cfgs, t0, i);
    assert C.ValidRelay(cfgs[i]);
    hide Run, Fresh, Step, Runaway, NewRelay, C.ValidRelays;
    acts := [Do(id, Trigger(0, true)), Tick(d), Do(id, Fire(Closure(1, s.now + d), false))];
    RunThree(s, acts);
    PulseThenFailure(s, id, d);
  }

  lemma PulseThenFailure(s: Sys, id: int, d: nat)
    requires id in s.relays && s.relays[id] == NewRelay(s.relays[id].cfg) && s.relays[id].cfg.enabled
    requires d == s.relays[id].cfg.durationMs * NS_PER_MS
    ensures var t := Step(Step(Step(s, Do(id, Trigger(0, true))), Tick(d)), Do(id, Fire(Closure(1, s.now + d), false)));
      id in t.relays && Runaway(t.relays[id]) && !t.relays[id].on
  {
    hide Step, Apply, Runaway, NewRelay;
    DoStep(s, id, Trigger(0, true));
    var u := Step(s, Do(id, Trigger(0, true)));
    TickStep(u, d);
    DoStep(Step(u, Tick(d)), id, Fire(Closure(1, s.now + d), false));
    ExpiryFails(s.relays[id], s.now, d);
  }

  lemma ExpiryFails(r: Relay, now: int, d: int)
    requires r == NewRelay(r.cfg) && r.cfg.enabled && d == r.cfg.durationMs * NS_PER_MS && d >= 0
    ensures var t := Apply(Apply(r, Trigger(0, true), now), Fire(Closure(1, now + d), false), now + d);
      Runaway(t) && !t.on
  {
    var u := Apply(r, Trigger(0, true), now);
    assert Closure(1, now + d) in u.closures;
  }

  // ---------- A line that outlives the daemon ----------

  /** A controller with one relay. */
  predicate Solo(s: Sys, id: int, r: Relay, phase: Phase, now: int) {
    s.relays == map[id := r] && s.order == [id] && s.phase == phase && s.now == now
  }

  lemma SoloDo(s: Sys, id: int, r: Relay, phase: Phase, now: int, op: Op)
    requires Solo(s, id, r, phase, now) && BeforeShutdown(op)
    ensures Solo(Step(s, Do(id, op)), id, Apply(r, op, now), phase, now)
  {
    hide Apply;
    PerformFrame(s, id, op);
  }

  lemma SoloTick(s: Sys, id: int, r: Relay, phase: Phase, now: int, d: nat)
    requires Solo(s, id, r, phase, now)
    ensures Solo(Step(s, Tick(d)), id, r, phase, now + d)
  {
  }

  lemma SoloAdvance(s: Sys, id: int, r: Relay, now: int, ok: bool)
    ensures Solo(s, id, r, Serving, now) ==> Solo(Step(s, Advance(ok)), id, r, Stopping(0), now)
    ensures Solo(s, id, r, Stopping(0), now) ==>
      Solo(Step(s, Advance(ok)), id, Apply(r, Shut(ok), now), Closing({id}), now)
  {
    hide Apply;
    if Solo(s, id, r, Stopping(0), now) { PerformFrame(s, id, Shut(ok)); }
  }

  lemma SoloClose(s: Sys, id: int, r: Relay, now: int, ok: bool)
    requires Solo(s, id, r, Closing({id}), now)
    ensures Solo(Step(s, CloseOne(id, ok)), id, Apply(r, RelayMachine.Close(ok), now), Stopped, now)
  {
    hide Apply;
    PerformFrame(s, id, RelayMachine.Close(ok));
    assert {id} - {id} == {};
  }

  /** A Trigger that slips in between Shutdown's loop and closeAll, and a close
      that fails: Shutdown is done, the pulse has expired, the relay is off, and
      the line stays energised, although every drive but the close succeeded. */
  lemma LineCanOutliveTheDaemon(cfg: C.Relay, t0: int) returns (acts: seq<Action>)
    requires C.ValidRelay(cfg) && cfg.enabled
    ensures forall a :: a in acts && Fault(a) ==> a.CloseOne?
    ensures var s := Run(Fresh([cfg], t0), acts);
      && s.phase.Stopped? && cfg.id in s.relays
      && s.relays[cfg.id].energised && !s.relays[cfg.id].on && s.relays[cfg.id].timer.None?
  {
    var s, id, d := Fresh([cfg], t0), cfg.id, cfg.durationMs * NS_PER_MS;
    var r := NewRelay(cfg);
    SoloFresh(cfg, t0);
    hide Fresh, Step, Apply, Solo, NewRelay;
    var fire := Fire(Closure(2, t0 + d), true);
    acts := [Advance(true), Advance(true), Do(id, Trigger(0, true)), CloseOne(id, false), Tick(d), Do(id, fire)];
    var s1 := Step(s, acts[0]);
    SoloAdvance(s, id, r, t0, true);
    var s2, r2 := Step(s1, acts[1]), Apply(r, Shut(true), t0);
    SoloAdvance(s1, id, r, t0, true);
    var s3, r3 := Step(s2, acts[2]), Apply(r2, Trigger(0, true), t0);
    SoloDo(s2, id, r2, Closing({id}), t0, Trigger(0, true));
    var s4, r4 := Step(s3, acts[3]), Apply(r3, RelayMachine.Close(false), t0);
    SoloClose(s3, id, r3, t0, false);
    var s5 := Step(s4, acts[4]);
    SoloTick(s4, id, r4, Stopped, t0, d);
    var s6, r6 := Step(s5, acts[5]), Apply(r4, fire, t0 + d);
    SoloDo(s5, id, r4, Stopped, t0 + d, fire);
    LeftBehind(cfg, t0, d);
    RunSix(s, acts);
    SoloMeans(s6, id, r6, Stopped, t0 + d);
  }

  lemma SoloFresh(cfg: C.Relay, t0: int)
    ensures Solo(Fresh([cfg], t0), cfg.id, NewRelay(cfg), Serving, t0)
  {
    assert Init([cfg]) == [];
  }

  lemma SoloMeans(s: Sys, id: int, r: Relay, phase: Phase, now: int)
    requires Solo(s, id, r, phase, now)
    ensures id in s.relays && s.relays[id] == r && s.phase == phase
  {
  }

  lemma LeftBehind(cfg: C.Relay, now: int, d: int)
    requires cfg.enabled && d == cfg.durationMs * NS_PER_MS && d >= 0
    ensures var r := Apply(NewRelay(cfg), Shut(true), now);
      var t := Apply(Apply(r, Trigger(0, true), now), RelayMachine.Close(false), now);
      var u := Apply(t, Fire(Closure(2, now + d), true), now + d);
      u.energised && !u.on && u.timer.None?
  {
    var r := Apply(NewRelay(cfg), Shut(true), now);
    assert r.gen == 1 && r.attached && !r.on;
    var t := Apply(Apply(r, Trigger(0, true), now), RelayMachine.Close(false), now);
    assert Closure(2, now + d) in t.closures;
  }

  lemma RunSix(s: Sys, xs: seq<Action>)
    requires |xs| == 6
    ensures Run(s, xs) == Step(Step(Step(Step(Step(Step(s, xs[0]), xs[1]), xs[2]), xs[3]), xs[4]), xs[5])
  {
    hide Step;
    RunOne(s, xs[..0], xs[0]);
    RunOne(s, xs[..1], xs[1]);
    RunOne(s, xs[..2], xs[2]);
    RunOne(s, xs[..3], xs[3]);
    RunOne(s, xs[..4], xs[4]);
    RunOne(s, xs[..5], xs[5]);
    assert xs[..0] + [xs[0]] == xs[..1] && xs[..1] + [xs[1]] == xs[..2] && xs[..2] + [xs[2]] == xs[..3];
    assert xs[..3] + [xs[3]] == xs[..4] && xs[..4] + [xs[4]] == xs[..5] && xs[..5] + [xs[5]] == xs;
    assert Run(s, xs[..0]) == s;
    hide Run;
  }

  /** A Trigger and then Shutdown leave a relay that reports time while off. */
  lemma ShutdownReportsTimeLeft(cfgs: seq<C.Relay>, t0: int)
    requires C.ValidRelays(cfgs) && cfgs != [] && cfgs[0].enabled
    ensures var s := Run(Fresh(cfgs, t0), [Do(cfgs[0].id, Trigger(0, true)), Advance(true), Advance(true)]);
      && cfgs[0].id in s.relays
      && var st := TakeSnapshot(s.relays[cfgs[0].id], s.now);
      !st.on && st.remainingMs == cfgs[0].durationMs
  {
    var s, id := Fresh(cfgs, t0), cfgs[0].id;
    var a, b := Do(id, Trigger(0, true)), Advance(true);
    FreshRelays(cfgs, t0);
    assert Init([a, b, b]) == [a, b] && Init([a, b]) == [a] && Init([a]) == [];
    hide Fresh;
    assert Run(s, [a]) == Step(s, a);
    assert Run(s, [a, b]) == Step(Step(s, a), b);
    assert Run(s, [a, b, b]) == Step(Step(Step(s, a), b), b);
    hide Run;
    ThenShut(s, id);
  }

  lemma ThenShut(s: Sys, id: int)
    requires id in s.relays && s.relays[id] == NewRelay(s.relays[id].cfg) && s.relays[id].cfg.enabled
    requires s.phase.Serving? && s.order != [] && s.order[0] == id && s.relays[id].cfg.durationMs > 0
    ensures var t := Step(Step(Step(s, Do(id, Trigger(0, true))), Advance(true)), Advance(true));
      && id in t.relays && !t.relays[id].on
      && MsUntil(t.relays[id].deadline, t.now) == s.relays[id].cfg.durationMs
  {
    var t := Step(s, Do(id, Trigger(0, true)));
    assert t.relays[id] == Apply(s.relays[id], Trigger(0, true), s.now) && t.now == s.now;
    var u := Step(t, Advance(true));
    assert u.relays == t.relays && u.phase == Stopping(0) && u.now == s.now;
    assert Step(u, Advance(true)).relays[id] == Apply(t.relays[id], Shut(true), s.now);
  }
}
