/** The whole controller: many relays, the event queue, the transition history
    of the GPIO lines and the Shutdown goroutine, all interleaved. */
module System {
  import opened Basics
  import opened RelayMachine
  import R = RelayRuns
  import C = Configs

  const QUEUE_CAPACITY := 64

  datatype Transition = Transition(offset: int, active: bool, at: int)

  /** Who published: a command, under the relay's mutex, or an expiry, after
      it has released the mutex. */
  datatype Origin = Command | Expiry

  datatype Attempt = Attempt(st: Snapshot, origin: Origin)

  /** All event streams take from the one channel. */
  datatype Delivery = Delivery(stream: nat, st: Snapshot)

  /** Where the Shutdown goroutine is: not started, about to treat order[next],
      closing the lines of `left`, or done. */
  datatype Phase = Serving | Stopping(next: nat) | Closing(left: set<int>) | Stopped

  datatype Sys = Sys(
    relays: map<int, Relay>,
    order: seq<int>,
    now: int,
    phase: Phase,
    history: seq<Transition>,
    late: multiset<Snapshot>,   // taken by expire, not yet published
    queue: seq<Snapshot>,       // the buffered channel
    sent: seq<Attempt>,         // every publish so far, in order
    received: seq<Delivery>,
    dropped: nat)

  datatype Action =
    | Tick(dt: nat)
    | Do(id: int, op: Op)       // an API call or a timer event on one relay
    | PublishLate(st: Snapshot)
    | Receive(stream: nat)
    | Advance(ok: bool)         // the next iteration of Shutdown's first loop
    | CloseOne(id: int, ok: bool)

  // ---------- Publishing ----------

  /** The non-blocking send. */
  function Publish(s: Sys, st: Snapshot, origin: Origin): Sys {
    var t := s.(sent := s.sent + [Attempt(st, origin)]);
    if |s.queue| < QUEUE_CAPACITY then t.(queue := s.queue + [st]) else t.(dropped := s.dropped + 1)
  }

  /** The effect of one operation on its relay, on the history and on the
      events. */
  function Perform(s: Sys, id: int, op: Op): Sys
    requires id in s.relays
  {
    var r := s.relays[id];
    var after := Apply(r, op, s.now);
    var driven := s.(
      relays := s.relays[id := after],
      history := s.history +
        (match Drives(r, op, s.now)
         case None => []
         case Some(level) => [Transition(r.cfg.gpio, level, s.now)]));
    if !Publishes(r, op, s.now) then driven
    else if op.Fire? then driven.(late := s.late + multiset{TakeSnapshot(after, s.now)})
    else Publish(driven, TakeSnapshot(after, s.now), Command)
  }

  /** Shutdown's loop runs over `order`; what follows is closeAll, which visits
      the map in no particular order. */
  function NextStop(s: Sys, next: nat): Phase {
    if next < |s.order| then Stopping(next) else Close(s.relays.Keys)
  }

  function Close(left: set<int>): Phase {
    if left == {} then Stopped else Closing(left)
  }

  /** The operation that an action performs, and on which relay. */
  datatype Target = Nothing | Target(id: int, op: Op)

  function TargetOf(s: Sys, a: Action): (t: Target)
    ensures t.Target? ==> t.id in s.relays
  {
    match a
    case Do(id, op) => if id in s.relays && BeforeShutdown(op) then Target(id, op) else Nothing
    case Advance(ok) =>
      if s.phase.Stopping? && s.phase.next < |s.order| && s.order[s.phase.next] in s.relays
      then Target(s.order[s.phase.next], Shut(ok)) else Nothing
    case CloseOne(id, ok) =>
      if s.phase.Closing? && id in s.phase.left && id in s.relays
      then Target(id, RelayMachine.Close(ok)) else Nothing
    case _ => Nothing
  }

  function NextPhase(s: Sys, a: Action): Phase {
    match a
    case Advance(_) => (
      match s.phase
      case Serving => NextStop(s, 0)
      case Stopping(next) => NextStop(s, next + 1)
      case _ => s.phase)
    case CloseOne(id, _) => if s.phase.Closing? && id in s.phase.left then Close(s.phase.left - {id}) else s.phase
    case _ => s.phase
  }

  /** An action that is not possible changes nothing, so every list of actions
      is a run. */
  function Step(s: Sys, a: Action): Sys {
    match TargetOf(s, a)
    case Target(id, op) => Perform(s, id, op).(phase := NextPhase(s, a))
    case Nothing => Housekeeping(s, a).(phase := NextPhase(s, a))
  }

  /** The actions that touch no relay. */
  function Housekeeping(s: Sys, a: Action): Sys {
    match a
    case Tick(dt) => s.(now := s.now + dt)
    case PublishLate(st) =>
      if st in s.late then Publish(s.(late := s.late - multiset{st}), st, Expiry) else s
    case Receive(stream) =>
      if s.queue == [] then s
      else s.(queue := s.queue[1..], received := s.received + [Delivery(stream, s.queue[0])])
    case _ => s
  }

  function Run(s: Sys, acts: seq<Action>): Sys {
    if acts == [] then s else Step(Run(s, Init(acts)), Last(acts))
  }

  lemma {:induction false} RunJoin(s: Sys, xs: seq<Action>, ys: seq<Action>)
    ensures Run(s, xs + ys) == Run(Run(s, xs), ys)
    decreases |ys|
  {
    hide Step;
    if ys == [] {
      assert xs + ys == xs;
    } else {
      assert Init(xs + ys) == xs + Init(ys);
      RunJoin(s, xs, Init(ys));
    }
  }

  // ---------- Relays do not interfere ----------

  /** The operation that the action performs on relay `id`, if any. */
  function Concerns(s: Sys, a: Action, id: int): Option<Op> {
    match TargetOf(s, a)
    case Target(i, op) => if i == id then Some(op) else None
    case Nothing => None
  }

  /** What relay `id` sees of a run. */
  function Project(s: Sys, acts: seq<Action>, id: int): seq<R.Timed> {
    if acts == [] then []
    else
      var before := Run(s, Init(acts));
      Project(s, Init(acts), id) +
      (match Concerns(before, Last(acts), id)
       case None => []
       case Some(op) => [R.Timed(before.now, op)])
  }

  lemma PerformFrame(s: Sys, id: int, op: Op)
    requires id in s.relays
    ensures var t := Perform(s, id, op);
      && t.relays == s.relays[id := Apply(s.relays[id], op, s.now)]
      && t.order == s.order && t.now == s.now && t.phase == s.phase && t.received == s.received
  {
  }

  lemma StepFrame(s: Sys, a: Action, id: int)
    requires id in s.relays
    ensures Step(s, a).relays.Keys == s.relays.Keys && Step(s, a).order == s.order
    ensures s.now <= Step(s, a).now
    ensures Step(s, a).relays[id] ==
      match Concerns(s, a, id)
      case None => s.relays[id]
      case Some(op) => Apply(s.relays[id], op, s.now)
  {
    hide Apply, Perform;
    match TargetOf(s, a)
    case Target(i, op) => PerformFrame(s, i, op);
    case Nothing =>
  }

  /** Each relay runs as if it were alone: in every interleaving it goes
      through the run of the operations that were addressed to it, and nothing
      done to another relay, to the queue or by Shutdown elsewhere touches it. */
  lemma {:induction false} RelaysAreIndependent(s: Sys, acts: seq<Action>, id: int)
    requires id in s.relays
    ensures Run(s, acts).relays.Keys == s.relays.Keys
    ensures Run(s, acts).order == s.order && s.now <= Run(s, acts).now
    ensures Run(s, acts).relays[id] == R.Run(s.relays[id], Project(s, acts, id))
    ensures R.ClockMovesForward(Project(s, acts, id))
    ensures forall t :: t in Project(s, acts, id) ==> s.now <= t.at <= Run(s, acts).now
  {
    hide Step, Concerns, Apply;
    if acts == [] {
    } else {
      RelaysAreIndependent(s, Init(acts), id);
      var before := Run(s, Init(acts));
      StepFrame(before, Last(acts), id);
      var p := Project(s, acts, id);
      if Concerns(before, Last(acts), id).Some? {
        assert Init(p) == Project(s, Init(acts), id);
      } else {
        assert p == Project(s, Init(acts), id);
      }
    }
  }

  // ---------- Short runs ----------

  lemma RunOne(s: Sys, xs: seq<Action>, a: Action)
    ensures Run(s, xs + [a]) == Step(Run(s, xs), a)
  {
    assert Init(xs + [a]) == xs;
  }

  lemma RunThree(s: Sys, xs: seq<Action>)
    requires |xs| == 3
    ensures Run(s, xs) == Step(Step(Step(s, xs[0]), xs[1]), xs[2])
  {
    hide Step;
    RunOne(s, xs[..0], xs[0]);
    RunOne(s, xs[..1], xs[1]);
    RunOne(s, xs[..2], xs[2]);
    assert xs[..0] + [xs[0]] == xs[..1] && xs[..1] + [xs[1]] == xs[..2] && xs[..2] + [xs[2]] == xs;
    assert Run(s, xs[..0]) == s;
    hide Run;
  }

  lemma DoStep(s: Sys, id: int, op: Op)
    requires id in s.relays && BeforeShutdown(op)
    ensures var t := Step(s, Do(id, op));
      && id in t.relays && t.relays[id] == Apply(s.relays[id], op, s.now)
      && t.now == s.now && t.phase == s.phase && t.order == s.order
  {
    hide Apply;
    PerformFrame(s, id, op);
  }

  lemma TickStep(s: Sys, d: nat)
    ensures Step(s, Tick(d)) == s.(now := s.now + d)
  {
    hide Apply, Perform;
  }

  // ---------- Fresh controllers ----------

  /** One more relay, as New appends it. */
  function Appended(s: Sys, cfg: C.Relay): Sys {
    s.(relays := s.relays[cfg.id := NewRelay(cfg)], order := s.order + [cfg.id])
  }

  /** The controller that New returns for a configuration. */
  function Fresh(cfgs: seq<C.Relay>, now: int): Sys {
    if cfgs == [] then Sys(map[], [], now, Serving, [], multiset{}, [], [], [], 0)
    else Appended(Fresh(Init(cfgs), now), Last(cfgs))
  }

  predicate LatestAt(cfgs: seq<C.Relay>, id: int, j: int) {
    0 <= j < |cfgs| && cfgs[j].id == id && forall n :: j < n < |cfgs| ==> cfgs[n].id != id
  }

  /** Of the relays with one id the controller holds the last. */
  lemma {:induction false} FreshLatest(cfgs: seq<C.Relay>, now: int)
    ensures forall id, j :: LatestAt(cfgs, id, j) ==>
      id in Fresh(cfgs, now).relays && Fresh(cfgs, now).relays[id] == NewRelay(cfgs[j])
    ensures forall id :: id in Fresh(cfgs, now).relays ==>
      exists j :: LatestAt(cfgs, id, j) && Fresh(cfgs, now).relays[id] == NewRelay(cfgs[j])
  {
    hide NewRelay;
    if cfgs == [] {
    } else {
      var n := |cfgs| - 1;
      FreshLatest(Init(cfgs), now);
      assert LatestAt(cfgs, cfgs[n].id, n);
      forall id, j | id != cfgs[n].id
        ensures LatestAt(cfgs, id, j) <==> LatestAt(Init(cfgs), id, j)
      {
      }
    }
  }

  lemma {:induction false} FreshShape(cfgs: seq<C.Relay>, now: int)
    ensures Fresh(cfgs, now) == Sys(
      Fresh(cfgs, now).relays, Fresh(cfgs, now).order, now, Serving, [], multiset{}, [], [], [], 0)
    ensures |Fresh(cfgs, now).order| == |cfgs|
    ensures forall k :: 0 <= k < |cfgs| ==> Fresh(cfgs, now).order[k] == cfgs[k].id
  {
    hide NewRelay;
    if cfgs == [] {
    } else {
      FreshShape(Init(cfgs), now);
    }
  }

  /** It holds each configured relay, new, and nothing else. */
  lemma FreshRelays(cfgs: seq<C.Relay>, now: int)
    requires C.ValidRelays(cfgs)
    ensures forall k :: 0 <= k < |cfgs| ==>
      cfgs[k].id in Fresh(cfgs, now).relays && Fresh(cfgs, now).relays[cfgs[k].id] == NewRelay(cfgs[k])
    ensures forall id :: id in Fresh(cfgs, now).relays ==> exists k :: 0 <= k < |cfgs| && cfgs[k].id == id
    ensures Fresh(cfgs, now) == Sys(
      Fresh(cfgs, now).relays, Fresh(cfgs, now).order, now, Serving, [], multiset{}, [], [], [], 0)
    ensures |Fresh(cfgs, now).order| == |cfgs|
    ensures forall k :: 0 <= k < |cfgs| ==> Fresh(cfgs, now).order[k] == cfgs[k].id
  {
    hide NewRelay, Fresh;
    FreshShape(cfgs, now);
    FreshLatest(cfgs, now);
    forall k | 0 <= k < |cfgs|
      ensures LatestAt(cfgs, cfgs[k].id, k)
    {
    }
    forall id | id in Fresh(cfgs, now).relays
      ensures exists k :: 0 <= k < |cfgs| && cfgs[k].id == id
    {
      var k :| LatestAt(cfgs, id, k) && Fresh(cfgs, now).relays[id] == NewRelay(cfgs[k]);
    }
  }
}
