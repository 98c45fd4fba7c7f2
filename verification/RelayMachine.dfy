/** One relay of the pulse controller (internal/relay/relay.go).

    Every body that the source runs under the relay's mutex is one atomic
    operation on a `Relay` value. Times are nanoseconds on a clock that only
    moves forward. `closures` is the collection of all expiry closures that
    have been scheduled and have not run yet: stopping a timer does not take
    its closure out, because it may already have fired and be waiting for the
    mutex. The driver's outcome is a parameter `ok` of each operation; a
    failing SetActive leaves the level as it was. */
module RelayMachine {
  import opened Basics
  import C = Configs

  const NS_PER_MS := 1_000_000

  // ---------- State ----------

  datatype Closure = Closure(gen: nat, due: int)

  datatype Relay = Relay(
    cfg: C.Relay,
    attached: bool,             // line != nil
    energised: bool,            // the level last driven on the relay's line
    on: bool,
    latched: bool,
    deadline: Option<int>,      // None is the zero time
    timer: Option<nat>,         // the generation of the armed timer, None is nil
    gen: nat,
    closures: multiset<Closure>)

  /** What the API reports about a relay. */
  datatype Snapshot = Snapshot(
    id: int, name: string, gpio: int, enabled: bool,
    on: bool, latched: bool, remainingMs: int)

  datatype Op =
    | Trigger(d: int, ok: bool)
    | On(ok: bool)
    | Off(ok: bool)
    | Fire(c: Closure, ok: bool)  // expire, up to its unlock
    | Drop(c: Closure)            // a stopped timer's closure never ran
    | Shut(ok: bool)              // one iteration of Shutdown
    | Close(ok: bool)             // one iteration of closeAll

  datatype Answer =
    | Disabled
    | DriverError
    | Done(on: bool, deduplicated: bool, remainingMs: int)
    | Silent  // not an API call

  function NewRelay(cfg: C.Relay): Relay {
    Relay(cfg, cfg.enabled, false, false, false, None, None, 0, multiset{})
  }

  function MsUntil(deadline: Option<int>, now: int): int {
    match deadline
    case None => 0
    case Some(t) => if t < now then 0 else (t - now) / NS_PER_MS
  }

  function PulseLength(cfg: C.Relay, d: int): int {
    if d <= 0 then cfg.durationMs * NS_PER_MS else d
  }

  function TakeSnapshot(r: Relay, now: int): Snapshot {
    Snapshot(r.cfg.id, r.cfg.name, r.cfg.gpio, r.attached, r.on, r.latched, MsUntil(r.deadline, now))
  }

  // ---------- The operations ----------

  /** A closure can only run once its time has come. */
  predicate CanFire(r: Relay, c: Closure, now: int) {
    c in r.closures && c.due <= now
  }

  /** An operation that is not possible in `r` (a closure that is not
      outstanding, or not due) changes nothing, so every list of operations is
      a run. */
  function Apply(r: Relay, op: Op, now: int): Relay {
    match op
    case Trigger(d, ok) =>
      if !r.attached || r.on then r
      else if !ok then r.(gen := r.gen + 1)
      else
        var due := now + PulseLength(r.cfg, d);
        r.(gen := r.gen + 1, energised := true, on := true, latched := false,
           deadline := Some(due), timer := Some(r.gen + 1),
           closures := r.closures + multiset{Closure(r.gen + 1, due)})
    case On(ok) =>
      if !r.attached then r
      else if !r.on && !ok then r.(gen := r.gen + 1, timer := None)
      else
        r.(gen := r.gen + 1, timer := None, energised := if r.on then r.energised else true,
           on := true, latched := true, deadline := None)
    case Off(ok) =>
      if !r.attached then r
      else if !ok then r.(gen := r.gen + 1, timer := None)
      else
        r.(gen := r.gen + 1, timer := None, energised := false,
           on := false, latched := false, deadline := None)
    case Fire(c, ok) =>
      if !CanFire(r, c, now) then r
      else
        var run := r.(closures := r.closures - multiset{c});
        if c.gen != r.gen then run
        else
          run.(energised := if r.attached && ok then false else r.energised,
               on := false, latched := false, deadline := None, timer := None)
    case Drop(c) =>
      if c in r.closures && r.timer != Some(c.gen) then r.(closures := r.closures - multiset{c}) else r
    case Shut(ok) =>
      r.(gen := r.gen + 1, timer := None, energised := if r.attached && ok then false else r.energised,
         on := false, latched := false)
    case Close(ok) =>
      if !r.attached then r
      else r.(attached := false, energised := if ok then false else r.energised)
  }

  /** The expiry that takes effect: it is due and its generation is current. */
  predicate Expires(r: Relay, op: Op, now: int) {
    op.Fire? && CanFire(r, op.c, now) && op.c.gen == r.gen
  }

  /** The level that the operation drives on the line, if any. */
  function Drives(r: Relay, op: Op, now: int): Option<bool> {
    if !r.attached then None
    else
      match op
      case Trigger(_, ok) => if !r.on && ok then Some(true) else None
      case On(ok) => if !r.on && ok then Some(true) else None
      case Off(ok) => if ok then Some(false) else None
      case Fire(_, ok) => if Expires(r, op, now) && ok then Some(false) else None
      case Drop(_) => None
      case Shut(ok) => if ok then Some(false) else None
      case Close(ok) => if ok then Some(false) else None
  }

  /** Whether the operation publishes the snapshot it leaves behind. */
  predicate Publishes(r: Relay, op: Op, now: int) {
    match op
    case Trigger(_, ok) => r.attached && !r.on && ok
    case On(ok) => r.attached && (r.on || ok)
    case Off(ok) => r.attached && ok
    case Fire(_, _) => Expires(r, op, now)
    case _ => false
  }

  /** What the API call answers; a coalesced Trigger reports the running pulse. */
  function Reply(r: Relay, op: Op, now: int): Answer {
    match op
    case Trigger(d, ok) =>
      if !r.attached then Disabled
      else if r.on && r.latched then Done(true, false, 0)
      else if r.on then Done(true, true, MsUntil(r.deadline, now))
      else if !ok then DriverError
      else Done(true, false, PulseLength(r.cfg, d) / NS_PER_MS)
    case On(ok) =>
      if !r.attached then Disabled
      else if !r.on && !ok then DriverError
      else Done(true, false, 0)
    case Off(ok) =>
      if !r.attached then Disabled
      else if !ok then DriverError
      else Done(false, false, 0)
    case _ => Silent
  }

  // ---------- Invariants ----------

  /** Holds in every reachable state, whatever the driver does. */
  ghost predicate Inv(r: Relay) {
    && (forall c :: c in r.closures ==> 1 <= c.gen <= r.gen && r.closures[c] == 1)
    && (forall c, c' :: c in r.closures && c' in r.closures && c.gen == c'.gen ==> c == c')
    && (r.latched ==> r.on && r.deadline.None?)
    && (r.on && !r.latched ==> r.deadline.Some?)
    && (r.on && r.attached ==> r.energised)
    && (match r.timer
        case None => forall c :: c in r.closures ==> c.gen < r.gen
        case Some(g) => r.on && !r.latched && g == r.gen && Closure(g, r.deadline.GetOr(0)) in r.closures)
  }

  /** Holds until Shutdown, which leaves the deadline in place. */
  predicate Tidy(r: Relay) {
    !r.on ==> r.deadline.None?
  }

  /** Holds as long as the driver has not failed. */
  predicate Sound(r: Relay) {
    && (r.energised <==> r.on && r.attached)
    && (r.on && !r.latched ==> r.timer.Some?)
  }

  /** Holds until Shutdown releases the lines. */
  predicate Configured(r: Relay) {
    r.attached == r.cfg.enabled && (r.on ==> r.attached)
  }

  predicate DriverOk(op: Op) {
    op.Drop? || op.ok
  }

  predicate BeforeShutdown(op: Op) {
    !op.Shut? && !op.Close?
  }

  lemma NewRelayInv(cfg: C.Relay)
    ensures Inv(NewRelay(cfg)) && Tidy(NewRelay(cfg)) && Sound(NewRelay(cfg)) && Configured(NewRelay(cfg))
  {
  }

  lemma InvStep(r: Relay, op: Op, now: int)
    requires Inv(r)
    ensures Inv(Apply(r, op, now))
    ensures Apply(r, op, now).cfg == r.cfg
  {
    hide Inv;
    match op
    case Trigger(d, ok) => TriggerInv(r, d, ok, now);
    case Fire(c, ok) => FireInv(r, c, ok, now);
    case Drop(c) => DropInv(r, c, now);
    case _ => UntimedInv(r, op, now);
  }

  lemma UntimedInv(r: Relay, op: Op, now: int)
    requires Inv(r) && (op.On? || op.Off? || op.Shut? || op.Close?)
    ensures Inv(Apply(r, op, now))
  {
    assert Apply(r, op, now).closures == r.closures;
  }

  lemma SoundStep(r: Relay, op: Op, now: int)
    requires Inv(r)
    ensures Tidy(r) && BeforeShutdown(op) ==> Tidy(Apply(r, op, now))
    ensures Sound(r) && DriverOk(op) ==> Sound(Apply(r, op, now))
    ensures Configured(r) && BeforeShutdown(op) ==> Configured(Apply(r, op, now))
  {
    if Expires(r, op, now) {
      assert r.timer == Some(r.gen);
    }
  }

  lemma TriggerInv(r: Relay, d: int, ok: bool, now: int)
    requires Inv(r)
    ensures Inv(Apply(r, Trigger(d, ok), now))
  {
    if r.attached && !r.on && ok {
      var c := Closure(r.gen + 1, now + PulseLength(r.cfg, d));
      var r' := Apply(r, Trigger(d, ok), now);
      assert r.timer.None?;
      assert c !in r.closures;
      assert r'.closures == r.closures + multiset{c};
      assert forall x :: x in r'.closures <==> x in r.closures || x == c;
      assert forall x :: x in r.closures ==> r'.closures[x] == r.closures[x];
      assert r'.closures[c] == 1;
    }
  }

  lemma FireInv(r: Relay, c: Closure, ok: bool, now: int)
    requires Inv(r)
    ensures Inv(Apply(r, Fire(c, ok), now))
  {
    if CanFire(r, c, now) {
      RemovedClosure(r, c);
      assert Apply(r, Fire(c, ok), now).closures == r.closures - multiset{c};
    }
  }

  lemma DropInv(r: Relay, c: Closure, now: int)
    requires Inv(r)
    ensures Inv(Apply(r, Drop(c), now))
  {
    if c in r.closures && r.timer != Some(c.gen) {
      RemovedClosure(r, c);
      assert Apply(r, Drop(c), now).closures == r.closures - multiset{c};
    }
  }

  lemma RemovedClosure(r: Relay, c: Closure)
    requires Inv(r)
    ensures forall x :: x in r.closures - multiset{c} <==> x in r.closures && x != c
    ensures forall x :: x in r.closures - multiset{c} ==> (r.closures - multiset{c})[x] == 1
  {
  }

  /** The closure that owns the running pulse. */
  predicate Live(r: Relay, c: Closure) {
    c in r.closures && c.gen == r.gen
  }

  /** The generation rule: a timed pulse is running exactly when one closure
      of the current generation is outstanding, and then the timer is set, the
      deadline is that closure's time, and no second such closure exists. */
  lemma GenerationRule(r: Relay)
    requires Inv(r) && Tidy(r) && Sound(r)
    ensures r.on && !r.latched <==> r.timer.Some?
    ensures r.on && !r.latched <==> r.deadline.Some?
    ensures r.on && !r.latched <==> exists c :: Live(r, c)
    ensures forall c, c' :: Live(r, c) && Live(r, c') ==> c == c' && r.closures[c] == 1
    ensures forall c :: Live(r, c) ==> r.deadline == Some(c.due) && r.timer == Some(c.gen)
    ensures r.latched ==> r.on
    ensures r.attached ==> (r.energised <==> r.on)
  {
    if r.timer.Some? {
      assert Live(r, Closure(r.gen, r.deadline.value));
    }
  }

  // ---------- The three-state relay ----------

  /** The relay as its documentation describes it: no generations, no timers,
      no closures. */
  datatype Simple = Opened | Pulse(deadline: int) | Latched

  datatype SimpleOp = Press(d: int) | Hold | Release | Lapse | Idle

  function View(r: Relay): Simple {
    if !r.on then Opened
    else if r.latched then Latched
    else Pulse(r.deadline.GetOr(0))
  }

  /** A pulse lasts as long as was asked for, or else as configured, in
      milliseconds. */
  function AskedFor(cfg: C.Relay, d: int): int {
    if d > 0 then d else cfg.durationMs * 1_000_000
  }

  function SimpleApply(cfg: C.Relay, s: Simple, op: SimpleOp, now: int): Simple {
    if !cfg.enabled then s
    else
      match op
      case Press(d) => if s.Opened? then Pulse(now + AskedFor(cfg, d)) else s
      case Hold => Latched
      case Release => Opened
      case Lapse => if s.Pulse? && s.deadline <= now then Opened else s
      case Idle => s
  }

  function TimeLeft(deadline: int, now: int): int {
    if deadline < now then 0 else (deadline - now) / 1_000_000
  }

  function SimpleReply(cfg: C.Relay, s: Simple, op: SimpleOp, now: int): Answer {
    match op
    case Press(d) =>
      if !cfg.enabled then Disabled
      else
        (match s
         case Opened => Done(true, false, AskedFor(cfg, d) / 1_000_000)
         case Pulse(t) => Done(true, true, TimeLeft(t, now))
         case Latched => Done(true, false, 0))
    case Hold => if !cfg.enabled then Disabled else Done(true, false, 0)
    case Release => if !cfg.enabled then Disabled else Done(false, false, 0)
    case _ => Silent
  }

  /** API calls stand for themselves; an expiry closure stands for the end of
      the pulse if its generation is current, and for nothing if it is stale. */
  function Lift(r: Relay, op: Op, now: int): SimpleOp {
    match op
    case Trigger(d, _) => Press(d)
    case On(_) => Hold
    case Off(_) => Release
    case _ => if Expires(r, op, now) then Lapse else Idle
  }

  lemma RefinesStep(r: Relay, op: Op, now: int)
    requires Inv(r) && Sound(r) && Configured(r)
    requires DriverOk(op) && BeforeShutdown(op)
    ensures View(Apply(r, op, now)) == SimpleApply(r.cfg, View(r), Lift(r, op, now), now)
    ensures Reply(r, op, now) == SimpleReply(r.cfg, View(r), Lift(r, op, now), now)
    ensures Expires(r, op, now) ==> View(r).Pulse? && View(r).deadline <= now
  {
    hide Inv, Sound, Configured;
    match op
    case Fire(c, ok) => FireRefines(r, c, ok, now);
    case Drop(_) =>
    case _ => CallRefines(r, op, now);
  }

  lemma CallRefines(r: Relay, op: Op, now: int)
    requires Inv(r) && Configured(r) && DriverOk(op)
    requires op.Trigger? || op.On? || op.Off?
    ensures View(Apply(r, op, now)) == SimpleApply(r.cfg, View(r), Lift(r, op, now), now)
    ensures Reply(r, op, now) == SimpleReply(r.cfg, View(r), Lift(r, op, now), now)
  {
  }

  lemma FireRefines(r: Relay, c: Closure, ok: bool, now: int)
    requires Inv(r) && Configured(r) && Sound(r)
    ensures View(Apply(r, Fire(c, ok), now)) == SimpleApply(r.cfg, View(r), Lift(r, Fire(c, ok), now), now)
    ensures Expires(r, Fire(c, ok), now) ==> View(r).Pulse? && View(r).deadline <= now
  {
    if Expires(r, Fire(c, ok), now) {
      assert r.timer == Some(r.gen);
      assert c == Closure(r.gen, r.deadline.value);
    }
  }

  /** A command that needs the driver: to open a relay always, to close one only
      if it is open. */
  predicate NeedsDriver(s: Simple, op: Op) {
    op.Off? || ((op.Trigger? || op.On?) && s.Opened?)
  }

  /** Commands under any driver faults and even while Shutdown takes the lines away:
      a relay that has lost its line answers as a disabled one; if the driver is
      needed and fails, the answer is an error and the relay and its line stay as
      they were; otherwise it is a step of the three-state relay. */
  lemma CommandUnderFaults(r: Relay, op: Op, now: int)
    requires Inv(r) && (op.Trigger? || op.On? || op.Off?)
    ensures var cfg := r.cfg.(enabled := r.attached);
      if r.attached && NeedsDriver(View(r), op) && !op.ok then
        && Reply(r, op, now) == DriverError && View(Apply(r, op, now)) == View(r)
        && Apply(r, op, now).energised == r.energised
      else
        && Reply(r, op, now) == SimpleReply(cfg, View(r), Lift(r, op, now), now)
        && View(Apply(r, op, now)) == SimpleApply(cfg, View(r), Lift(r, op, now), now)
  {
  }

  /** What the API should report of a three-state relay. */
  function Report(cfg: C.Relay, attached: bool, s: Simple, now: int): Snapshot {
    Snapshot(
      cfg.id, cfg.name, cfg.gpio, attached, !s.Opened?, s.Latched?,
      if s.Pulse? then TimeLeft(s.deadline, now) else 0)
  }

  lemma SnapshotIsReport(r: Relay, now: int)
    requires Inv(r)
    ensures var st := TakeSnapshot(r, now);
      if Untidy(r) then st.(remainingMs := 0) == Report(r.cfg, r.attached, View(r), now)
      else st == Report(r.cfg, r.attached, View(r), now)
  {
  }

  /** The other direction: whenever the three-state relay may end its pulse,
      the real one has exactly one closure that ends it, due at the deadline;
      running any other outstanding closure is invisible. */
  lemma LapseIsAvailable(r: Relay, now: int) returns (c: Closure)
    requires Inv(r) && Sound(r) && r.attached && View(r).Pulse?
    ensures c in r.closures && c.due == View(r).deadline
    ensures c.due <= now ==> View(Apply(r, Fire(c, true), now)) == Opened
    ensures forall x :: x in r.closures && x != c ==> View(Apply(r, Fire(x, true), now)) == View(r)
  {
    c := Closure(r.gen, r.deadline.value);
  }

  // ---------- Driver faults ----------

  /** On with neither a latch nor a closure that will end it. */
  predicate Stranded(r: Relay) {
    r.on && !r.latched && r.timer.None?
  }

  /** The line is energised and nothing will end that: the relay is off, or it
      has given its line up. */
  predicate Runaway(r: Relay) {
    r.energised && (!r.on || !r.attached)
  }

  /** The line is energised, and the relay has given it up. */
  predicate LeftEnergised(r: Relay) {
    r.energised && !r.attached
  }

  /** Off, with a deadline left from a pulse. */
  predicate Untidy(r: Relay) {
    !r.on && r.deadline.Some?
  }

  // What brings these about and what ends them, in terms of the relay, the
  // operation on it and the time.

  predicate Strands(r: Relay, op: Op, now: int) {
    op == Off(false) && r.attached && r.on && !r.latched
  }

  predicate Frees(r: Relay, op: Op, now: int) {
    op.Shut? || (r.attached && (op.On? || op == Off(true)))
  }

  predicate RunsAway(r: Relay, op: Op, now: int) {
    r.attached && r.energised && ((Expires(r, op, now) && !op.ok) || op == Shut(false) || op == Close(false))
  }

  predicate CatchesUp(r: Relay, op: Op, now: int) {
    r.attached && !op.Fire? && !op.Drop? && op.ok
  }

  predicate GivesUpEnergised(r: Relay, op: Op, now: int) {
    r.attached && r.energised && op == Close(false)
  }

  predicate LeavesDeadline(r: Relay, op: Op, now: int) {
    op.Shut? && r.on && !r.latched
  }

  predicate ClearsUp(r: Relay, op: Op, now: int) {
    r.attached && (op.Trigger? || op.On? || op.Off?) && op.ok
  }

  predicate Never(r: Relay, op: Op, now: int) {
    false
  }

  /** A relay is stranded by a failed Off and by nothing else, and only On, a
      successful Off or Shutdown frees it. The Stop branch in Trigger is never
      taken: a relay that is off has no timer and no live closure. */
  lemma FaultStep(r: Relay, op: Op, now: int)
    requires Inv(r)
    ensures !r.on ==> r.timer.None? && forall c :: c in r.closures ==> c.gen < r.gen
    ensures r.on && r.attached ==> r.energised
    ensures Stranded(Apply(r, op, now)) <==> Strands(r, op, now) || (Stranded(r) && !Frees(r, op, now))
  {
  }

  /** A line runs away through a failed de-energise in an expiry, in Shutdown or
      in closeAll and through nothing else, and only a later successful drive
      brings line and state together again. */
  lemma RunawayStep(r: Relay, op: Op, now: int)
    requires Inv(r)
    ensures Runaway(Apply(r, op, now)) <==> RunsAway(r, op, now) || (Runaway(r) && !CatchesUp(r, op, now))
    ensures LeftEnergised(Apply(r, op, now)) <==> GivesUpEnergised(r, op, now) || LeftEnergised(r)
  {
  }

  /** A deadline outlives its pulse through Shutdown and through nothing else,
      and only a later successful command clears it. */
  lemma UntidyStep(r: Relay, op: Op, now: int)
    requires Inv(r)
    ensures Untidy(Apply(r, op, now)) <==> LeavesDeadline(r, op, now) || (Untidy(r) && !ClearsUp(r, op, now))
  {
  }
}
