/** The controller and its GPIO backend as the objects they are
    (internal/relay/relay.go, internal/gpio/mock.go). Each method is proved to
    take the step of `System` that its name says; what those steps guarantee
    is proved there. `ok` is whether the driver accepts a SetActive, `now` the
    reading of the clock. */
module Daemon {
  import opened Basics
  import opened RelayMachine
  import opened System
  import C = Configs

  // ---------- internal/gpio/mock.go ----------

  class Mock {
    var lines: map<int, Line>
    var transitions: seq<Transition>

    constructor ()
      ensures lines == map[] && transitions == []
    {
      lines := map[];
      transitions := [];
    }

    /** `ok` is false when the backend refuses the line. */
    method RequestLine(offset: int, activeHigh: bool, ok: bool) returns (line: Line?)
      modifies this`lines
      ensures line != null <==> ok && offset !in old(lines)
      ensures line == null ==> lines == old(lines)
      ensures line != null ==>
        && fresh(line) && line.backend == this && line.offset == offset && line.activeHigh == activeHigh
        && !line.active && lines == old(lines)[offset := line]
    {
      if !ok || offset in lines { return null; }
      line := new Line(this, offset, activeHigh);
      lines := lines[offset := line];
    }
  }

  class Line {
    const backend: Mock
    const offset: int
    const activeHigh: bool
    var active: bool

    /** The physical level of the pin. */
    ghost predicate High()
      reads this
    {
      active == activeHigh
    }

    constructor (backend: Mock, offset: int, activeHigh: bool)
      ensures this.backend == backend && this.offset == offset && this.activeHigh == activeHigh && !active
    {
      this.backend, this.offset, this.activeHigh, this.active := backend, offset, activeHigh, false;
    }

    method SetActive(level: bool, ok: bool, now: int) returns (err: bool)
      modifies this`active, backend`transitions
      ensures err == !ok
      ensures active == (if ok then level else old(active))
      ensures backend.transitions ==
        old(backend.transitions) + if ok then [Transition(offset, level, now)] else []
    {
      if !ok { return true; }
      active := level;
      backend.transitions := backend.transitions + [Transition(offset, level, now)];
      return false;
    }

    /** Drives the line inactive and gives it back, even if the drive failed. */
    method Close(ok: bool, now: int) returns (err: bool)
      modifies this`active, backend
      ensures err == !ok
      ensures active == (if ok then false else old(active))
      ensures backend.transitions ==
        old(backend.transitions) + if ok then [Transition(offset, false, now)] else []
      ensures backend.lines == old(backend.lines) - {offset}
    {
      err := SetActive(false, ok, now);
      backend.lines := backend.lines - {offset};
    }
  }

  // ---------- The relay struct of internal/relay/relay.go ----------

  function Driven(r: RelayMachine.Relay, op: Op, now: int): seq<Transition> {
    match Drives(r, op, now)
    case None => []
    case Some(level) => [Transition(r.cfg.gpio, level, now)]
  }

  /** The branches of Trigger, spelled out. */
  lemma TriggerBranches(r: RelayMachine.Relay, d: int, ok: bool, now: int)
    ensures var op := Trigger(d, ok);
      var length := PulseLength(r.cfg, d);
      var due := now + length;
      if !r.attached || r.on then
        && Apply(r, op, now) == r && !Publishes(r, op, now) && Driven(r, op, now) == []
        && Reply(r, op, now) == (
          if !r.attached then Disabled
          else if r.latched then Done(true, false, 0)
          else Done(true, true, MsUntil(r.deadline, now)))
      else if !ok then
        && Apply(r, op, now) == r.(gen := r.gen + 1) && !Publishes(r, op, now) && Driven(r, op, now) == []
        && Reply(r, op, now) == DriverError
      else
        && Apply(r, op, now) == RelayMachine.Relay(
             r.cfg, true, true, true, false, Some(due), Some(r.gen + 1), r.gen + 1,
             r.closures + multiset{Closure(r.gen + 1, due)})
        && Publishes(r, op, now) && Driven(r, op, now) == [Transition(r.cfg.gpio, true, now)]
        && Reply(r, op, now) == Done(true, false, length / NS_PER_MS)
  {
  }

  /** The branches of On, spelled out. */
  lemma OnBranches(r: RelayMachine.Relay, ok: bool, now: int)
    ensures var op := On(ok);
      if !r.attached then
        && Apply(r, op, now) == r && !Publishes(r, op, now) && Driven(r, op, now) == []
        && Reply(r, op, now) == Disabled
      else if !r.on && !ok then
        && Apply(r, op, now) == r.(gen := r.gen + 1, timer := None)
        && !Publishes(r, op, now) && Driven(r, op, now) == [] && Reply(r, op, now) == DriverError
      else
        && Apply(r, op, now) == RelayMachine.Relay(
             r.cfg, true, if r.on then r.energised else true, true, true, None, None, r.gen + 1, r.closures)
        && Publishes(r, op, now) && Reply(r, op, now) == Done(true, false, 0)
        && Driven(r, op, now) == if r.on then [] else [Transition(r.cfg.gpio, true, now)]
  {
  }

  /** The branches of expire, spelled out. */
  lemma FireBranches(r: RelayMachine.Relay, c: Closure, ok: bool, now: int)
    requires CanFire(r, c, now)
    ensures var op := Fire(c, ok);
      var rest := r.closures - multiset{c};
      if c.gen != r.gen then
        Apply(r, op, now) == r.(closures := rest) && !Publishes(r, op, now) && Driven(r, op, now) == []
      else
        && Apply(r, op, now) == RelayMachine.Relay(
             r.cfg, r.attached, if r.attached && ok then false else r.energised, false, false, None, None, r.gen, rest)
        && Publishes(r, op, now)
        && Driven(r, op, now) == if r.attached && ok then [Transition(r.cfg.gpio, false, now)] else []
  {
  }

  class Cell {
    const cfg: C.Relay
    var line: Line?
    var on: bool
    var latched: bool
    var deadline: Option<int>
    var timer: Option<nat>
    var gen: nat
    ghost var level: bool
    ghost var closures: multiset<Closure>

    constructor (cfg: C.Relay, line: Line?)
      requires line != null ==> cfg.enabled && !line.active
      requires line == null ==> !cfg.enabled
      ensures this.cfg == cfg && this.line == line
      ensures Value() == NewRelay(cfg) && (line != null ==> line.active == level)
    {
      this.cfg, this.line, on, latched, deadline, timer, gen := cfg, line, false, false, None, None, 0;
      level, closures := false, multiset{};
    }

    ghost function Value(): RelayMachine.Relay
      reads this
    {
      RelayMachine.Relay(cfg, line != null, level, on, latched, deadline, timer, gen, closures)
    }

    /** The relay holds its own line of this backend. */
    ghost predicate Wired(backend: Mock)
      reads this, line
    {
      line != null ==>
        && line.backend == backend && line.offset == cfg.gpio && line.activeHigh == cfg.activeHigh
        && line.active == level
    }

    /** r.line.SetActive, with the record of the level. */
    method SetLine(backend: Mock, to: bool, ok: bool, now: int) returns (err: bool)
      requires line != null && Wired(backend)
      modifies this`level, line, backend`transitions
      ensures Wired(backend) && err == !ok && level == (if ok then to else old(level))
      ensures backend.transitions ==
        old(backend.transitions) + if ok then [Transition(cfg.gpio, to, now)] else []
    {
      err := line.SetActive(to, ok, now);
      if !err { level := to; }
    }

    // The bodies that run under the relay's mutex. `published` says whether
    // the snapshot that is left behind is to be published.

    method Trigger(backend: Mock, d: int, ok: bool, now: int) returns (ans: Answer, published: bool)
      requires Wired(backend)
      modifies this, line, backend`transitions
      ensures Wired(backend) && line == old(line)
      ensures Value() == Apply(old(Value()), Op.Trigger(d, ok), now)
      ensures ans == Reply(old(Value()), Op.Trigger(d, ok), now)
      ensures published == Publishes(old(Value()), Op.Trigger(d, ok), now)
      ensures backend.transitions == old(backend.transitions) + Driven(old(Value()), Op.Trigger(d, ok), now)
    {
      TriggerBranches(Value(), d, ok, now);
      hide Apply, Reply, Publishes, Driven;
      if line == null { return Disabled, false; }
      if on && latched { return Done(true, false, 0), false; }
      if on { return Done(true, true, MsUntil(deadline, now)), false; }
      var length := if d <= 0 then cfg.durationMs * NS_PER_MS else d;
      gen := gen + 1;
      var err := SetLine(backend, true, ok, now);
      if err { return DriverError, false; }
      on := true;
      latched := false;
      deadline := Some(now + length);
      timer := Some(gen);  // time.AfterFunc
      closures := closures + multiset{Closure(gen, now + length)};
      return Done(true, false, length / NS_PER_MS), true;
    }

    method On(backend: Mock, ok: bool, now: int) returns (ans: Answer, published: bool)
      requires Wired(backend)
      modifies this, line, backend`transitions
      ensures Wired(backend) && line == old(line)
      ensures Value() == Apply(old(Value()), Op.On(ok), now)
      ensures ans == Reply(old(Value()), Op.On(ok), now)
      ensures published == Publishes(old(Value()), Op.On(ok), now)
      ensures backend.transitions == old(backend.transitions) + Driven(old(Value()), Op.On(ok), now)
    {
      OnBranches(Value(), ok, now);
      hide Apply, Reply, Publishes, Driven;
      if line == null { return Disabled, false; }
      gen := gen + 1;
      timer := None;
      if !on {
        var err := SetLine(backend, true, ok, now);
        if err { return DriverError, false; }
      }
      on := true;
      latched := true;
      deadline := None;
      return Done(true, false, 0), true;
    }

    method Off(backend: Mock, ok: bool, now: int) returns (ans: Answer, published: bool)
      requires Wired(backend)
      modifies this, line, backend`transitions
      ensures Wired(backend) && line == old(line)
      ensures Value() == Apply(old(Value()), Op.Off(ok), now)
      ensures ans == Reply(old(Value()), Op.Off(ok), now)
      ensures published == Publishes(old(Value()), Op.Off(ok), now)
      ensures backend.transitions == old(backend.transitions) + Driven(old(Value()), Op.Off(ok), now)
    {
      if line == null { return Disabled, false; }
      gen := gen + 1;
      timer := None;
      var err := SetLine(backend, false, ok, now);
      if err { return DriverError, false; }
      on := false;
      latched := false;
      deadline := None;
      return Done(false, false, 0), true;
    }

    /** expire, up to its unlock. `c` is the closure that runs. */
    method Expire(backend: Mock, c: Closure, ok: bool, now: int) returns (published: bool)
      requires Wired(backend) && CanFire(Value(), c, now)
      modifies this, line, backend`transitions
      ensures Wired(backend) && line == old(line)
      ensures Value() == Apply(old(Value()), Fire(c, ok), now)
      ensures published == Publishes(old(Value()), Fire(c, ok), now)
      ensures backend.transitions == old(backend.transitions) + Driven(old(Value()), Fire(c, ok), now)
    {
      ghost var v := Value();
      FireBranches(v, c, ok, now);
      hide Apply, Publishes, Driven, CanFire;
      closures := closures - multiset{c};
      if c.gen != gen { return false; }
      EndPulse(backend, ok, now);
      return true;
    }

    /** expire after its generation check. */
    method EndPulse(backend: Mock, ok: bool, now: int)
      requires Wired(backend)
      modifies this, line, backend`transitions
      ensures Wired(backend) && line == old(line)
      ensures var v := old(Value());
        Value() == RelayMachine.Relay(
          cfg, v.attached, if v.attached && ok then false else v.energised, false, false, None, None, v.gen, v.closures)
      ensures backend.transitions == old(backend.transitions) +
        if line != null && ok then [Transition(cfg.gpio, false, now)] else []
    {
      Release(backend, ok, now);
      deadline := None;
      timer := None;
    }

    /** The release that expire and Shutdown share: a driver error is ignored. */
    method Release(backend: Mock, ok: bool, now: int)
      requires Wired(backend)
      modifies this`on, this`latched, this`level, line, backend`transitions
      ensures Wired(backend) && !on && !latched
      ensures level == if line != null && ok then false else old(level)
      ensures backend.transitions == old(backend.transitions) +
        if line != null && ok then [Transition(cfg.gpio, false, now)] else []
    {
      if line != null {
        var _ := SetLine(backend, false, ok, now);
      }
      on := false;
      latched := false;
    }

    /** The locked body that `op` names. */
    method Locked(backend: Mock, op: Op, now: int) returns (ans: Answer, published: bool)
      requires Wired(backend)
      requires BeforeShutdown(op) && !op.Drop? && (op.Fire? ==> CanFire(Value(), op.c, now))
      modifies this, line, backend`transitions
      ensures Wired(backend) && line == old(line)
      ensures Value() == Apply(old(Value()), op, now)
      ensures ans == Reply(old(Value()), op, now)
      ensures published == Publishes(old(Value()), op, now)
      ensures backend.transitions == old(backend.transitions) + Driven(old(Value()), op, now)
    {
      hide Apply, Publishes, Driven, Wired;
      match op {
        case Trigger(d, ok) => ans, published := Trigger(backend, d, ok, now);
        case On(ok) => ans, published := On(backend, ok, now);
        case Off(ok) => ans, published := Off(backend, ok, now);
        case Fire(c, ok) => ans := Silent; published := Expire(backend, c, ok, now);
      }
    }

    method Snapshot(now: int) returns (st: RelayMachine.Snapshot)
      ensures st == TakeSnapshot(Value(), now)
    {
      return RelayMachine.Snapshot(cfg.id, cfg.name, cfg.gpio, line != null, on, latched, MsUntil(deadline, now));
    }

    /** One iteration of Shutdown. */
    method Shut(backend: Mock, ok: bool, now: int)
      requires Wired(backend)
      modifies this, line, backend`transitions
      ensures Wired(backend) && line == old(line)
      ensures Value() == Apply(old(Value()), Op.Shut(ok), now)
      ensures backend.transitions == old(backend.transitions) + Driven(old(Value()), Op.Shut(ok), now)
    {
      gen := gen + 1;
      timer := None;
      Release(backend, ok, now);
    }

    /** One iteration of closeAll. */
    method Close(backend: Mock, ok: bool, now: int)
      requires Wired(backend)
      modifies this, line, backend
      ensures Wired(backend) && line == null
      ensures Value() == Apply(old(Value()), Op.Close(ok), now)
      ensures backend.transitions == old(backend.transitions) + Driven(old(Value()), Op.Close(ok), now)
      ensures backend.lines == old(backend.lines) - if old(line) == null then {} else {cfg.gpio}
    {
      if line != null {
        var err := line.Close(ok, now);
        if !err { level := false; }
        line := null;
      }
    }
  }

  // ---------- The Controller of internal/relay/relay.go ----------

  class Controller {
    const backend: Mock
    var relays: map<int, Cell>
    var order: seq<int>
    var events: seq<Snapshot>   // the buffered channel
    ghost var model: Sys

    constructor (backend: Mock, relays: map<int, Cell>, order: seq<int>, ghost model: Sys)
      ensures this.backend == backend && this.relays == relays && this.order == order
      ensures this.events == [] && this.model == model
    {
      this.backend, this.relays, this.order, this.events, this.model := backend, relays, order, [], model;
    }

    ghost function Cells(): set<Cell>
      reads this
    {
      set id | id in relays :: relays[id]
    }

    ghost function Lines(): set<Line>
      reads this, Cells()
    {
      set id | id in relays && relays[id].line != null :: relays[id].line
    }

    /** The objects are apart, and each line is the backend's line of its pin. */
    ghost predicate Wired()
      reads this, backend, Cells(), Lines()
    {
      && (forall i, j :: i in relays && j in relays && i != j ==>
            relays[i] != relays[j] && (relays[i].line != null ==> relays[i].line != relays[j].line))
      && (forall i :: i in relays ==> relays[i].cfg.id == i && relays[i].Wired(backend))
      && (forall i :: i in relays && relays[i].line != null ==>
            relays[i].cfg.gpio in backend.lines && backend.lines[relays[i].cfg.gpio] == relays[i].line)
    }

    /** The objects are in the state that the model says. */
    ghost predicate Valid()
      reads this, backend, Cells(), Lines()
    {
      && Wired()
      && model.relays.Keys == relays.Keys
      && (forall i :: i in relays ==> relays[i].Value() == model.relays[i])
      && (forall k :: 0 <= k < |order| ==> order[k] in relays)
      && model.order == order && model.queue == events && model.history == backend.transitions
    }

    /** What the pins show: a pin is high exactly if its relay's level is that of its
        polarity, so that an active-low relay is energised by a low pin. */
    lemma PinShowsLevel(id: int)
      requires Valid() && id in relays && relays[id].line != null
      ensures id in model.relays && relays[id].cfg.gpio in backend.lines
      ensures var r := model.relays[id];
        backend.lines[r.cfg.gpio].High() <==> r.energised == r.cfg.activeHigh
    {
      assert relays[id].Value() == model.relays[id];
    }

    /** What no method changes. */
    twostate predicate SameWiring()
      reads this, Cells(), backend
    {
      && relays == old(relays) && order == old(order)
      && (forall i :: i in relays ==> relays[i].line == old(relays[i].line))
      && backend.lines == old(backend.lines)
    }

    // ----- publish: a send that never blocks -----

    /** `<-events`, by one of the streams, when there is an event to take. */
    method Receive(stream: nat) returns (st: Snapshot)
      requires Valid() && events != []
      modifies this`events, this`model
      ensures st == old(events)[0]
      ensures model == Step(old(model), System.Receive(stream))
      ensures Valid() && SameWiring()
    {
      st := events[0];
      events := events[1..];
      model := Step(model, System.Receive(stream));
    }

    method Publish(st: Snapshot, origin: Origin)
      requires Valid()
      modifies this`events, this`model
      ensures model == System.Publish(old(model), st, origin)
      ensures Valid() && SameWiring()
    {
      if |events| < QUEUE_CAPACITY {
        events := events + [st];
      }
      model := System.Publish(model, st, origin);
    }

    /** What expire has in hand between its unlock and its publish. */
    ghost method SetLate(late: multiset<RelayMachine.Snapshot>)
      requires Valid()
      modifies this`model
      ensures Valid() && SameWiring()
      ensures model == old(model).(late := late)
    {
      model := model.(late := late);
    }

    ghost method Elapse(now: int)
      requires Valid() && model.now <= now
      modifies this`model
      ensures Valid() && SameWiring()
      ensures model == Step(old(model), Tick(now - old(model).now))
    {
      model := model.(now := now);
    }

    ghost method SetPhase(phase: Phase)
      requires Valid()
      modifies this`model
      ensures Valid() && SameWiring()
      ensures model == old(model).(phase := phase)
    {
      model := model.(phase := phase);
    }

    // ----- the lock-held bodies -----

    /** What a body that runs on one relay may rely on. */
    lemma Ready(id: int)
      requires Valid() && id in relays
      ensures relays[id].Wired(backend) && id in model.relays && model.relays[id] == relays[id].Value()
      ensures model.history == backend.transitions && relays[id].cfg.id == id
      ensures forall i :: i in relays && i != id ==>
        relays[i] != relays[id] && (relays[i].line != null ==> relays[i].line != relays[id].line)
    {
    }

    /** The pin of the line that the relay has given back. */
    ghost function Given(before: Line?, cell: Cell): set<int>
      reads cell
    {
      if before != null && cell.line == null then {cell.cfg.gpio} else {}
    }

    /** Nothing but that relay, its line and the history has changed. */
    twostate lemma StillValid(id: int)
      requires old(Valid()) && relays == old(relays) && order == old(order) && events == old(events)
      requires id in relays && backend.lines == old(backend.lines) - Given(old(relays[id].line), relays[id])
      requires forall i :: i in relays && i != id ==>
        unchanged(relays[i]) && (relays[i].line != null ==> unchanged(relays[i].line))
      requires (relays[id].line == null || relays[id].line == old(relays[id].line)) && relays[id].Wired(backend)
      requires model.relays == old(model).relays[id := relays[id].Value()]
      requires model.order == old(model).order && model.queue == old(model).queue
      requires model.history == backend.transitions
      ensures Valid()
    {
      StillWired(id);
      hide Wired;
      assert model.relays.Keys == relays.Keys;
      forall i | i in relays && i != id
        ensures relays[i].Value() == old(relays[i].Value())
      {
        OtherCell(relays[i]);
      }
      hide Cell.Value, Cell.Wired;
    }

    twostate lemma StillWired(id: int)
      requires old(Wired()) && relays == old(relays) && id in relays
      requires backend.lines == old(backend.lines) - Given(old(relays[id].line), relays[id])
      requires forall i :: i in relays && i != id ==>
        unchanged(relays[i]) && (relays[i].line != null ==> unchanged(relays[i].line))
      requires (relays[id].line == null || relays[id].line == old(relays[id].line)) && relays[id].Wired(backend)
      ensures Wired()
    {
      forall i | i in relays && i != id
        ensures relays[i].Wired(backend) && relays[i].line == old(relays[i].line)
      {
        OtherCell(relays[i]);
      }
      hide Cell.Value, Cell.Wired;
    }

    twostate lemma OtherCell(cell: Cell)
      requires unchanged(cell) && (cell.line != null ==> unchanged(cell.line))
      ensures cell.Value() == old(cell.Value()) && cell.Wired(backend) == old(cell.Wired(backend))
      ensures cell.line == old(cell.line)
    {
    }

    /** Runs the body of `op` on its relay. The other relays stay as they are. */
    method Locked(id: int, op: Op, now: int) returns (ans: Answer, published: bool)
      requires Valid() && id in relays && model.now == now
      requires BeforeShutdown(op) && !op.Drop? && (op.Fire? ==> CanFire(model.relays[id], op.c, now))
      modifies this`model, backend`transitions, relays[id], relays[id].line
      ensures Valid()
      ensures SameWiring()
      ensures ans == Reply(old(model).relays[id], op, now)
      ensures published == Publishes(old(model).relays[id], op, now)
      ensures model == Unpublished(old(model), id, op)
    {
      hide Apply, Reply, Publishes, Driven, CanFire, BeforeShutdown, Valid, Cell.Wired, Cell.Value;
      Ready(id);
      ans, published := relays[id].Locked(backend, op, now);
      model := Unpublished(model, id, op);
      StillValid(id);
    }

    method SnapshotOf(id: int, now: int) returns (st: RelayMachine.Snapshot)
      requires Valid() && id in relays
      ensures Valid() && id in model.relays && st == TakeSnapshot(model.relays[id], now)
    {
      Ready(id);
      hide TakeSnapshot;
      st := relays[id].Snapshot(now);
    }

    /** Get. */
    method Get(id: int, now: int) returns (res: Option<RelayMachine.Snapshot>)
      requires Valid() && model.now <= now
      ensures res == if id in model.relays then Some(TakeSnapshot(model.relays[id], now)) else None
    {
      if id !in relays { return None; }
      var st := relays[id].Snapshot(now);
      return Some(st);
    }

    /** List: every relay, in configuration order. */
    method List(now: int) returns (out: seq<RelayMachine.Snapshot>)
      requires Valid() && model.now <= now
      ensures |out| == |model.order|
      ensures forall k :: 0 <= k < |out| ==>
        model.order[k] in model.relays && out[k] == TakeSnapshot(model.relays[model.order[k]], now)
    {
      hide TakeSnapshot;
      out := [];
      for k := 0 to |order|
        invariant |out| == k && Valid()
        invariant forall m :: 0 <= m < k ==> out[m] == TakeSnapshot(model.relays[order[m]], now)
      {
        var id := order[k];
        var st := relays[id].Snapshot(now);
        assert relays[id].Value() == model.relays[id];
        out := out + [st];
      }
    }

    // ----- the API calls -----

    /** The shape of Trigger, On and Off: look the relay up, run the body under
        its mutex, publish before letting go. An unknown id is ErrNotFound. */
    method Command(id: int, op: Op, now: int) returns (res: Option<Answer>)
      requires Valid() && model.now <= now && (op.Trigger? || op.On? || op.Off?)
      modifies this`events, this`model, backend`transitions, Cells(), Lines()
      ensures Valid() && SameWiring()
      ensures res == if id in relays then Some(Reply(old(model).relays[id], op, now)) else None
      ensures model == Step(Step(old(model), Tick(now - old(model).now)), Do(id, op))
    {
      hide Apply, Reply, Publishes, Driven, TakeSnapshot, System.Publish, Valid, Cell.Wired, Cell.Value;
      ModelMatches();
      Elapse(now);
      ModelMatches();
      if id !in relays {
        assert id !in model.relays.Keys;
        return None;
      }
      assert id in model.relays.Keys;
      ghost var s := model;
      var ans, published := Locked(id, op, now);
      if published {
        var st := SnapshotOf(id, now);
        Publish(st, Origin.Command);
      }
      StepParts(s, id, op);
      return Some(ans);
    }

    method Trigger(id: int, d: int, ok: bool, now: int) returns (res: Option<Answer>)
      requires Valid() && model.now <= now
      modifies this`events, this`model, backend`transitions, Cells(), Lines()
      ensures Valid() && SameWiring()
      ensures res == if id in relays then Some(Reply(old(model).relays[id], Op.Trigger(d, ok), now)) else None
      ensures model == Step(Step(old(model), Tick(now - old(model).now)), Do(id, Op.Trigger(d, ok)))
    {
      res := Command(id, Op.Trigger(d, ok), now);
    }

    method On(id: int, ok: bool, now: int) returns (res: Option<Answer>)
      requires Valid() && model.now <= now
      modifies this`events, this`model, backend`transitions, Cells(), Lines()
      ensures Valid() && SameWiring()
      ensures res == if id in relays then Some(Reply(old(model).relays[id], Op.On(ok), now)) else None
      ensures model == Step(Step(old(model), Tick(now - old(model).now)), Do(id, Op.On(ok)))
    {
      res := Command(id, Op.On(ok), now);
    }

    method Off(id: int, ok: bool, now: int) returns (res: Option<Answer>)
      requires Valid() && model.now <= now
      modifies this`events, this`model, backend`transitions, Cells(), Lines()
      ensures Valid() && SameWiring()
      ensures res == if id in relays then Some(Reply(old(model).relays[id], Op.Off(ok), now)) else None
      ensures model == Step(Step(old(model), Tick(now - old(model).now)), Do(id, Op.Off(ok)))
    {
      res := Command(id, Op.Off(ok), now);
    }

    /** expire up to its unlock: the snapshot is taken under the mutex but not
        yet published. */
    method ExpireLocked(id: int, c: Closure, ok: bool, now: int) returns (st: Option<RelayMachine.Snapshot>)
      requires Valid() && model.now == now && id in relays && CanFire(model.relays[id], c, now)
      modifies this`model, backend`transitions, Cells(), Lines()
      ensures Valid() && SameWiring() && events == old(events)
      ensures model == Step(old(model), Do(id, Fire(c, ok)))
      ensures st.Some? <==> Expires(old(model).relays[id], Fire(c, ok), now)
      ensures st.Some? ==> st.value in model.late && st.value == TakeSnapshot(model.relays[id], now)
    {
      Ready(id);
      FirePublishes(model.relays[id], c, ok, now);
      hide Apply, Reply, Publishes, Driven, TakeSnapshot, CanFire, Expires, Step, Valid, Cell.Wired, Cell.Value;
      StepParts(model, id, Fire(c, ok));
      var _, published := Locked(id, Fire(c, ok), now);
      if !published { return None; }
      var snap := SnapshotOf(id, now);
      SetLate(model.late + multiset{snap});
      return Some(snap);
    }

    /** expire after its unlock. */
    method PublishExpiry(st: RelayMachine.Snapshot)
      requires Valid() && st in model.late
      modifies this`events, this`model
      ensures Valid() && SameWiring()
      ensures model == Step(old(model), System.PublishLate(st))
    {
      SetLate(model.late - multiset{st});
      Publish(st, Expiry);
    }

    // ----- Shutdown -----

    method ShutBody(id: int, ok: bool, now: int)
      requires Valid() && model.now == now && id in relays
      modifies this`model, backend`transitions, relays[id], relays[id].line
      ensures Valid() && SameWiring() && events == old(events)
      ensures model == Unpublished(old(model), id, Op.Shut(ok))
    {
      hide Apply, Driven, Valid, Cell.Wired, Cell.Value;
      Ready(id);
      relays[id].Shut(backend, ok, now);
      model := Unpublished(model, id, Op.Shut(ok));
      StillValid(id);
    }

    /** One iteration of Shutdown's loop. */
    method ShutOne(k: nat, ok: bool, now: int)
      requires Valid() && model.now == now && model.phase == Stopping(k) && k < |order|
      modifies this`model, backend`transitions, Cells(), Lines()
      ensures Valid() && SameWiring() && events == old(events)
      ensures model == Step(old(model), Advance(ok))
    {
      OrderMatches(k);
      AdvanceParts(model, k, ok);
      hide Apply, Unpublished, Valid, Step;
      ghost var next := NextStop(model, k + 1);
      ShutBody(order[k], ok, now);
      SetPhase(next);
    }

    method CloseBody(id: int, ok: bool, now: int)
      requires Valid() && model.now == now && id in relays
      modifies this`model, backend, relays[id], relays[id].line
      ensures Valid() && events == old(events) && relays == old(relays) && order == old(order)
      ensures model == Unpublished(old(model), id, Op.Close(ok))
      ensures relays[id].line == null
      ensures forall i :: i in relays && i != id ==> relays[i].line == old(relays[i].line)
      ensures backend.lines == old(backend.lines) - if old(relays[id].line) == null then {} else {relays[id].cfg.gpio}
    {
      hide Apply, Driven, Valid, Cell.Wired, Cell.Value;
      Ready(id);
      relays[id].Close(backend, ok, now);
      model := Unpublished(model, id, Op.Close(ok));
      StillValid(id);
    }

    /** One iteration of closeAll's loop. */
    method CloseLine(id: int, ok: bool, now: int)
      requires Valid() && model.now == now && model.phase.Closing? && id in model.phase.left && id in relays
      modifies this`model, backend, relays[id], relays[id].line
      ensures Valid() && events == old(events) && relays == old(relays) && order == old(order)
      ensures model == Step(old(model), System.CloseOne(id, ok))
      ensures relays[id].line == null
      ensures forall i :: i in relays && i != id ==> relays[i].line == old(relays[i].line)
      ensures backend.lines == old(backend.lines) - if old(relays[id].line) == null then {} else {relays[id].cfg.gpio}
    {
      ModelMatches();
      assert id in model.relays.Keys;
      CloseParts(model, id, ok);
      hide Apply, Unpublished, Valid, Step;
      ghost var next := System.Close(model.phase.left - {id});
      CloseBody(id, ok, now);
      SetPhase(next);
    }

    /** Shutdown, run to its end without interruption; `okToShut` and
        `okToClose` are the driver's answers for each relay. It takes exactly
        Shutdown's own steps: one for each relay in configuration order, then one
        close for each relay, in the order `closed` in which the map gave them. */
    method Shutdown(okToShut: int -> bool, okToClose: int -> bool, now: int) returns (ghost closed: seq<int>)
      requires Valid() && model.now == now && model.phase.Serving?
      modifies this`model, backend, Cells(), Lines()
      ensures Valid() && relays == old(relays) && order == old(order) && events == old(events)
      ensures model == Run(old(model), ShutActions(order, okToShut, |order|) + CloseActions(closed, okToClose))
      ensures Lists(closed, relays.Keys) && model.phase.Stopped?
      ensures forall id :: id in relays ==> relays[id].line == null
      ensures forall p :: p in backend.lines <==> p in old(backend.lines) && !old(Held(p))
    {
      hide Valid, Run, ShutActions, CloseActions, Lists;
      ShutAll(okToShut, now);
      assert forall p :: Held(p) <==> old(Held(p)) by { assert forall i, p :: Holds(i, p) <==> old(Holds(i, p)); }
      closed := CloseAll(okToClose, now);
      System.RunJoin(old(model), ShutActions(order, okToShut, |order|), CloseActions(closed, okToClose));
    }

    method ShutAll(okToShut: int -> bool, now: int)
      requires Valid() && model.now == now && model.phase.Serving?
      modifies this`model, backend`transitions, Cells(), Lines()
      ensures Valid() && SameWiring() && model.now == now && events == old(events)
      ensures model == Run(old(model), ShutActions(order, okToShut, |order|))
      ensures model.phase == System.Close(relays.Keys)
    {
      hide Valid, Run, ShutActions;
      ShutdownStarts(model, order, okToShut);
      ModelMatches();
      SetPhase(NextStop(model, 0));
      for k := 0 to |order|
        invariant Valid() && SameWiring() && model.now == now && events == old(events)
        invariant model == Run(old(model), ShutActions(order, okToShut, k)) && model.phase == NextStop(model, k)
      {
        ShutNext(k, okToShut(order[k]), now);
        ShutdownGoesOn(old(model), order, okToShut, k);
      }
      ModelMatches();
    }

    lemma OrderMatches(k: nat)
      requires Valid() && k < |order|
      ensures order[k] in relays && order[k] in model.relays && model.order == order
    {
      assert order[k] in model.relays.Keys;
    }

    lemma ModelMatches()
      requires Valid()
      ensures model.order == order && model.relays.Keys == relays.Keys
    {
    }

    method ShutNext(k: nat, ok: bool, now: int)
      requires Valid() && model.now == now && k < |order| && model.phase == NextStop(model, k)
      modifies this`model, backend`transitions, Cells(), Lines()
      ensures Valid() && SameWiring() && model.now == now && events == old(events)
      ensures model == Step(old(model), Advance(ok)) && model.phase == NextStop(model, k + 1)
    {
      hide Step;
      ShutOne(k, ok, now);
      StepKeeps(old(model), Advance(ok));
    }

    /** closeAll, over all relays in the order in which the map gives them. */
    method CloseAll(okToClose: int -> bool, now: int) returns (ghost closed: seq<int>)
      requires Valid() && model.now == now && model.phase == System.Close(relays.Keys)
      modifies this`model, backend, Cells(), Lines()
      ensures Valid() && relays == old(relays) && order == old(order) && events == old(events)
      ensures model == Run(old(model), CloseActions(closed, okToClose)) && model.phase.Stopped?
      ensures Lists(closed, relays.Keys)
      ensures forall id :: id in relays ==> relays[id].line == null
      ensures forall p :: p in backend.lines <==> p in old(backend.lines) && !old(Held(p))
      ensures forall p :: p in backend.lines ==> backend.lines[p] == old(backend.lines)[p]
    {
      ghost var pins := map id | id in relays && relays[id].line != null :: relays[id].cfg.gpio;
      PinsHold(pins);
      var left := relays.Keys;
      ghost var gone: set<int> := {};
      closed := [];
      NothingClosed(model, left, okToClose);
      assert Closing(model, backend.lines, closed, gone, left, pins, okToClose);
      hide Valid, Closing, Held, PinHeld, Lists, CloseActions, Run;
      while left != {}
        invariant Valid() && model.now == now && left <= relays.Keys
        invariant relays == old(relays) && order == old(order) && events == old(events)
        invariant forall i :: i in relays && relays[i].line != null ==> relays[i].line == old(relays[i].line)
        invariant Closing(old(model), old(backend.lines), closed, gone, left, pins, okToClose)
      {
        NotEmpty(left);
        var id :| id in left;
        CloseNext(id, okToClose, now, old(model), old(backend.lines), closed, gone, left, pins);
        gone := gone + PinOf(pins, id);
        closed := closed + [id];
        left := left - {id};
      }
      AllClosed(old(model), old(backend.lines), closed, gone, pins, okToClose);
    }

    lemma PinsHold(pins: map<int, int>)
      requires pins == map id | id in relays && relays[id].line != null :: relays[id].cfg.gpio
      ensures forall p :: Held(p) <==> PinHeld(pins, p)
    {
      forall p
        ensures Held(p) <==> PinHeld(pins, p)
      {
        if i :| Holds(i, p) { assert i in pins && pins[i] == p; }
        if i :| i in pins && pins[i] == p { assert Holds(i, p); }
      }
    }

    /** How far closeAll has come: `closed` are done and `left` are not, the lines
        of the pins in `gone` have been given back. */
    ghost predicate Closing(
        start: Sys, was: map<int, Line>, closed: seq<int>, gone: set<int>, left: set<int>, pins: map<int, int>,
        ok: int -> bool)
      reads this, backend, Cells()
    {
      && Lists(closed, relays.Keys - left) && pins.Keys <= relays.Keys
      && model == Run(start, CloseActions(closed, ok)) && model.phase == System.Close(left)
      && backend.lines == was - gone && Gone(pins, relays.Keys - left, gone) && PinsOf(pins, left)
    }

    /** `pins` has the pins of the lines that the relays of `left` hold, and the
        other relays hold none. */
    ghost predicate PinsOf(pins: map<int, int>, left: set<int>)
      reads this, Cells()
    {
      forall i :: i in relays ==>
        && (relays[i].line != null <==> i in left && i in pins)
        && (i in pins ==> relays[i].cfg.gpio == pins[i])
    }

    lemma AllClosed(
        start: Sys, was: map<int, Line>, closed: seq<int>, gone: set<int>, pins: map<int, int>, ok: int -> bool)
      requires Closing(start, was, closed, gone, {}, pins, ok)
      ensures model == Run(start, CloseActions(closed, ok)) && model.phase.Stopped? && Lists(closed, relays.Keys)
      ensures forall id :: id in relays ==> relays[id].line == null
      ensures backend.lines == was - gone && forall p :: p in gone <==> PinHeld(pins, p)
    {
      hide Run, CloseActions, Lists;
      assert relays.Keys - {} == relays.Keys;
      GoneAll(pins, relays.Keys, gone);
      hide Gone;
    }

    method CloseNext(
        id: int, okToClose: int -> bool, now: int, ghost start: Sys, ghost was: map<int, Line>,
        ghost closed: seq<int>, ghost gone: set<int>, ghost left: set<int>, ghost pins: map<int, int>)
      requires Valid() && model.now == now && id in left && left <= relays.Keys
      requires Closing(start, was, closed, gone, left, pins, okToClose)
      modifies this`model, backend, relays[id], relays[id].line
      ensures Valid() && relays == old(relays) && order == old(order) && events == old(events) && model.now == now
      ensures Closing(start, was, closed + [id], gone + PinOf(pins, id), left - {id}, pins, okToClose)
      ensures forall i :: i in relays && relays[i].line != null ==> relays[i].line == old(relays[i].line)
    {
      hide Step, Valid, Run, CloseActions, Lists, Gone;
      var ok := okToClose(id);
      StepKeeps(model, System.CloseOne(id, ok));
      ClosingGoesOn(start, closed, id, okToClose);
      GoneGrows(pins, relays.Keys - left, gone, id);
      ListsMore(closed, id, relays.Keys - left);
      assert relays.Keys - (left - {id}) == relays.Keys - left + {id};
      CloseLine(id, ok, now);
    }

    // ----- New -----

    /** The relay that holds the line of pin `p`. */
    ghost predicate Holds(i: int, p: int)
      reads this, Cells()
    {
      i in relays && relays[i].line != null && relays[i].cfg.gpio == p
    }

    ghost predicate Held(p: int)
      reads this, Cells()
    {
      exists i :: Holds(i, p)
    }

    /** closeAll on a controller whose construction failed. */
    method Abandon(okToClose: int -> bool, now: int)
      requires Valid() && model.now == now
      modifies this`model, backend, Cells(), Lines()
      ensures forall p :: p in backend.lines <==> p in old(backend.lines) && !old(Held(p))
      ensures forall p :: p in backend.lines ==> backend.lines[p] == old(backend.lines)[p]
    {
      hide Valid;
      SetPhase(System.Close(relays.Keys));
      assert forall p :: Held(p) <==> old(Held(p)) by { assert forall i, p :: Holds(i, p) <==> old(Holds(i, p)); }
      ghost var _ := CloseAll(okToClose, now);
    }

    /** Appends one relay to the controller under construction. A relay that has
        the same id is no longer in the map. */
    method Add(cell: Cell)
      requires Valid() && events == [] && cell !in Cells()
      requires forall i :: i in relays && relays[i].line != null ==> relays[i].line != cell.line
      requires cell.Wired(backend) && cell.Value() == NewRelay(cell.cfg)
      requires cell.line != null ==> cell.cfg.gpio in backend.lines && backend.lines[cell.cfg.gpio] == cell.line
      modifies this
      ensures Valid() && events == [] && relays == old(relays)[cell.cfg.id := cell]
      ensures model == Appended(old(model), cell.cfg)
    {
      hide NewRelay, Cell.Wired, Cell.Value;
      relays := relays[cell.cfg.id := cell];
      order := order + [cell.cfg.id];
      model := Appended(model, cell.cfg);
      AddedWired(cell);
      hide Wired;
      assert model.relays.Keys == relays.Keys;
    }

    twostate lemma AddedWired(cell: Cell)
      requires old(Wired()) && relays == old(relays)[cell.cfg.id := cell] && cell !in old(Cells())
      requires unchanged(backend) && unchanged(old(Cells())) && unchanged(old(Lines()))
      requires forall i :: i in old(relays) && relays[i].line != null ==> old(relays[i].line) != cell.line
      requires cell.Wired(backend)
      requires cell.line != null ==> cell.cfg.gpio in backend.lines && backend.lines[cell.cfg.gpio] == cell.line
      ensures Wired()
    {
      forall i | i in relays && i != cell.cfg.id
        ensures relays[i] == old(relays[i]) && relays[i].Wired(backend) && relays[i].line == old(relays[i].line)
      {
        assert relays[i] in old(Cells());
        OtherCell(relays[i]);
      }
      hide Cell.Wired;
    }

    /** The first `k` relays are in place; `base` are the lines and `h` the
        transitions that the backend had before. */
    ghost predicate Opening(cfgs: seq<C.Relay>, k: nat, now: int, base: map<int, Line>, h: seq<Transition>)
      reads this, backend, Cells(), Lines(), backend.lines.Values
    {
      && k <= |cfgs|
      && Valid() && events == [] && backend.transitions == h
      && model == Fresh(cfgs[..k], now).(history := h)
      && (forall p :: p in backend.lines <==> p in base || Occupied(cfgs, k, p))
      && (forall p :: p in base ==> p in backend.lines && backend.lines[p] == base[p] && !Occupied(cfgs, k, p))
      && Unshared(cfgs, k)
      && AtRest(backend.lines, cfgs, k)
    }

    lemma AllOpen(cfgs: seq<C.Relay>, now: int, base: map<int, Line>, h: seq<Transition>)
      requires Opening(cfgs, |cfgs|, now, base, h)
      ensures Valid() && model == Fresh(cfgs, now).(history := h)
      ensures forall p :: p in backend.lines <==> p in base || Occupied(cfgs, |cfgs|, p)
      ensures forall p :: p in base ==> p in backend.lines && backend.lines[p] == base[p]
      ensures AtRest(backend.lines, cfgs, |cfgs|)
    {
      assert cfgs[..|cfgs|] == cfgs;
    }

    /** The relays that hold a line are the ones that no later relay replaced. */
    lemma HoldsLatest(cfgs: seq<C.Relay>, k: nat, now: int, h: seq<Transition>, p: int)
      requires k <= |cfgs| && Valid() && model == Fresh(cfgs[..k], now).(history := h) && Unshared(cfgs, k)
      ensures Held(p) <==> Occupied(cfgs, k, p) && !Leaked(cfgs, k, p)
    {
      FreshLatest(cfgs[..k], now);
      assert forall j :: 0 <= j < k ==> cfgs[..k][j] == cfgs[j];
      hide Fresh, NewRelay;
      if i :| Holds(i, p) {
        assert i in model.relays.Keys && relays[i].Value() == model.relays[i];
        var j :| LatestAt(cfgs[..k], i, j) && model.relays[i] == NewRelay(cfgs[..k][j]);
        NewRelayFields(cfgs[j]);
        assert cfgs[j].enabled && cfgs[j].gpio == p;
        assert !Leaked(cfgs, k, p) by {
          assert forall m, n :: Replaced(cfgs, k, p, m, n) ==> m == j;
        }
      }
      if Occupied(cfgs, k, p) && !Leaked(cfgs, k, p) {
        var j :| 0 <= j < k && cfgs[j].enabled && cfgs[j].gpio == p;
        assert forall n :: j < n < k ==> (cfgs[n].id == cfgs[j].id ==> Replaced(cfgs, k, p, j, n));
        assert LatestAt(cfgs[..k], cfgs[j].id, j);
        NewRelayFields(cfgs[j]);
        assert cfgs[j].id in model.relays.Keys;
        assert relays[cfgs[j].id].Value() == model.relays[cfgs[j].id];
        assert Holds(cfgs[j].id, p);
      }
    }

    /** The end of a New that fails at relay `k`. */
    method GiveUp(
        cfgs: seq<C.Relay>, k: nat, okToClose: int -> bool, now: int,
        ghost base: map<int, Line>, ghost h: seq<Transition>)
      requires Opening(cfgs, k, now, base, h)
      modifies this`model, backend, Cells(), Lines()
      ensures forall p :: p in backend.lines <==> p in base || Leaked(cfgs, k, p)
      ensures forall p :: p in base ==> p in backend.lines && backend.lines[p] == base[p] && !Leaked(cfgs, k, p)
    {
      FreshClock(cfgs[..k], now);
      forall p
        ensures Held(p) <==> Occupied(cfgs, k, p) && !Leaked(cfgs, k, p)
      {
        HoldsLatest(cfgs, k, now, h, p);
      }
      LeakedWasOccupied(cfgs, k);
      hide Fresh, Wired, Occupied, Unshared, Leaked, Held;
      Abandon(okToClose, now);
    }

    /** One iteration of New's loop. If the backend refuses the line, closeAll
        gives back every line that a relay in the map holds. */
    method OpenNext(
        cfgs: seq<C.Relay>, k: nat, grants: int -> bool, okToClose: int -> bool, now: int,
        ghost base: map<int, Line>, ghost h: seq<Transition>)
      returns (ok: bool)
      requires k < |cfgs| && Opening(cfgs, k, now, base, h)
      modifies this, backend, Cells(), Lines()
      ensures ok == !Refused(cfgs, k, grants, base.Keys)
      ensures !ok ==> forall p :: p in backend.lines <==> p in base || Leaked(cfgs, k, p)
      ensures !ok ==> forall p :: p in base ==>
        p in backend.lines && backend.lines[p] == base[p] && !Leaked(cfgs, k, p)
      ensures ok ==>
        && Opening(cfgs, k + 1, now, base, h)
        && fresh(Cells() - old(Cells())) && fresh(Lines() - old(Lines()))
    {
      hide Fresh, Wired, Occupied, Unshared, Leaked, AtRest;
      var line: Line? := null;
      if cfgs[k].enabled {
        ghost var before := backend.lines;
        line := OpenLine(cfgs[k], grants(cfgs[k].gpio));
        if line != null { AtRestGrows(before, cfgs, k, cfgs[k].gpio, line); }
        if line == null {
          GiveUp(cfgs, k, okToClose, now, base, h);
          return false;
        }
      }
      Place(cfgs, k, line, now, base, h);
      return true;
    }

    /** Relay `k` takes its place, with the line that it has been given. */
    method Place(
        cfgs: seq<C.Relay>, k: nat, line: Line?, now: int, ghost base: map<int, Line>, ghost h: seq<Transition>)
      requires k < |cfgs| && Unshared(cfgs, k) && (line != null <==> cfgs[k].enabled)
      requires AtRest(backend.lines, cfgs, k)
      requires Valid() && events == [] && backend.transitions == h && model == Fresh(cfgs[..k], now).(history := h)
      requires line != null ==>
        && line.backend == backend && line.offset == cfgs[k].gpio && line.activeHigh == cfgs[k].activeHigh
        && !line.active && line !in Lines()
        && cfgs[k].gpio in backend.lines && backend.lines[cfgs[k].gpio] == line
        && cfgs[k].gpio !in base && !Occupied(cfgs, k, cfgs[k].gpio)
      requires forall p :: p in backend.lines <==>
        p in base || Occupied(cfgs, k, p) || (cfgs[k].enabled && cfgs[k].gpio == p)
      requires forall p :: p in base ==> p in backend.lines && backend.lines[p] == base[p] && !Occupied(cfgs, k, p)
      modifies this
      ensures Opening(cfgs, k + 1, now, base, h)
      ensures fresh(Cells() - old(Cells())) && Lines() <= old(Lines()) + if line == null then {} else {line}
    {
      hide Fresh, Appended, Occupied, Unshared, AtRest;
      FreshAppended(cfgs, k, now, h);
      OccupiedNext(cfgs, k);
      AtRestNext(backend.lines, cfgs, k);
      var cell := new Cell(cfgs[k], line);
      Add(cell);
    }

    /** The pin may be taken, by this controller or by somebody else. */
    method OpenLine(rc: C.Relay, granted: bool) returns (line: Line?)
      requires Valid()
      modifies backend`lines
      ensures Valid()
      ensures line != null <==> granted && rc.gpio !in old(backend.lines)
      ensures line == null ==> backend.lines == old(backend.lines)
      ensures line != null ==>
        && fresh(line) && line.backend == backend && line.offset == rc.gpio && line.activeHigh == rc.activeHigh
        && !line.active && backend.lines == old(backend.lines)[rc.gpio := line]
    {
      line := backend.RequestLine(rc.gpio, rc.activeHigh, granted);
    }
  }

  /** The step of `op` up to its publication. */
  ghost function Unpublished(s: Sys, id: int, op: Op): Sys
    requires id in s.relays
  {
    s.(relays := s.relays[id := Apply(s.relays[id], op, s.now)],
       history := s.history + Driven(s.relays[id], op, s.now))
  }

  lemma FirePublishes(r: RelayMachine.Relay, c: Closure, ok: bool, now: int)
    ensures Publishes(r, Fire(c, ok), now) == Expires(r, Fire(c, ok), now)
  {
  }

  /** A step is its unpublished part and then its publication. */
  lemma StepParts(s: Sys, id: int, op: Op)
    requires id in s.relays && BeforeShutdown(op)
    ensures var u := Unpublished(s, id, op);
      var st := TakeSnapshot(Apply(s.relays[id], op, s.now), s.now);
      Step(s, Do(id, op)) ==
        if !Publishes(s.relays[id], op, s.now) then u
        else if op.Fire? then u.(late := s.late + multiset{st})
        else System.Publish(u, st, Origin.Command)
  {
    hide Apply, Drives, Publishes, TakeSnapshot;
  }

  lemma SilentParts(s: Sys, id: int, op: Op)
    requires id in s.relays && (op.Shut? || op.Close?)
    ensures Perform(s, id, op) == Unpublished(s, id, op)
  {
    hide Apply, Drives;
  }

  lemma AdvanceParts(s: Sys, k: nat, ok: bool)
    requires s.phase == Stopping(k) && k < |s.order| && s.order[k] in s.relays
    ensures Step(s, Advance(ok)) == Unpublished(s, s.order[k], Op.Shut(ok)).(phase := NextStop(s, k + 1))
  {
    SilentParts(s, s.order[k], Op.Shut(ok));
    hide Perform, Unpublished;
  }

  lemma CloseParts(s: Sys, id: int, ok: bool)
    requires s.phase.Closing? && id in s.phase.left && id in s.relays
    ensures Step(s, System.CloseOne(id, ok))
         == Unpublished(s, id, Op.Close(ok)).(phase := System.Close(s.phase.left - {id}))
  {
    SilentParts(s, id, Op.Close(ok));
    hide Perform, Unpublished;
  }

  // ---------- The steps of Shutdown ----------

  /** The start, and the first `k` iterations of the loop over `order`. */
  function ShutActions(order: seq<int>, ok: int -> bool, k: nat): seq<Action>
    requires k <= |order|
  {
    if k == 0 then [Advance(true)] else ShutActions(order, ok, k - 1) + [Advance(ok(order[k - 1]))]
  }

  function CloseActions(closed: seq<int>, ok: int -> bool): seq<Action> {
    if closed == [] then [] else CloseActions(Init(closed), ok) + [System.CloseOne(Last(closed), ok(Last(closed)))]
  }

  /** Each element of `s` once, in some order. */
  predicate Lists(xs: seq<int>, s: set<int>) {
    && (forall i, j :: 0 <= i < j < |xs| ==> xs[i] != xs[j])
    && (forall x :: x in xs ==> x in s)
    && (forall x :: x in s ==> x in xs)
  }

  lemma ListsMore(xs: seq<int>, x: int, s: set<int>)
    requires Lists(xs, s) && x !in s
    ensures Lists(xs + [x], s + {x})
  {
  }

  lemma ShutdownStarts(s: Sys, order: seq<int>, ok: int -> bool)
    requires s.phase.Serving?
    ensures Run(s, ShutActions(order, ok, 0)) == s.(phase := NextStop(s, 0))
  {
    assert Init([Advance(true)]) == [];
  }

  lemma ShutdownGoesOn(s: Sys, order: seq<int>, ok: int -> bool, k: nat)
    requires k < |order|
    ensures Run(s, ShutActions(order, ok, k + 1)) == Step(Run(s, ShutActions(order, ok, k)), Advance(ok(order[k])))
  {
    hide Step;
    assert Init(ShutActions(order, ok, k + 1)) == ShutActions(order, ok, k);
  }

  lemma NothingClosed(s: Sys, all: set<int>, ok: int -> bool)
    ensures Run(s, CloseActions([], ok)) == s && Lists([], all - all)
    ensures forall pins :: Gone(pins, all - all, {})
  {
  }

  function PinOf(pins: map<int, int>, id: int): set<int> {
    if id in pins then {pins[id]} else {}
  }

  ghost predicate PinHeld(pins: map<int, int>, p: int) {
    exists i :: i in pins && pins[i] == p
  }

  /** The pins of the relays that are closed. */
  ghost predicate Gone(pins: map<int, int>, closed: set<int>, gone: set<int>) {
    forall p :: p in gone <==> exists i :: i in closed && i in pins && pins[i] == p
  }

  lemma GoneAll(pins: map<int, int>, all: set<int>, gone: set<int>)
    requires Gone(pins, all, gone) && pins.Keys <= all
    ensures forall p :: p in gone <==> PinHeld(pins, p)
  {
  }

  lemma GoneGrows(pins: map<int, int>, closed: set<int>, gone: set<int>, id: int)
    requires Gone(pins, closed, gone)
    ensures Gone(pins, closed + {id}, gone + PinOf(pins, id))
  {
    forall p
      ensures p in gone + PinOf(pins, id) <==> exists i :: i in closed + {id} && i in pins && pins[i] == p
    {
      if i :| i in closed && i in pins && pins[i] == p { assert i in closed + {id}; }
      if p in PinOf(pins, id) { assert id in closed + {id}; }
    }
  }

  lemma ClosingGoesOn(s: Sys, closed: seq<int>, id: int, ok: int -> bool)
    ensures Run(s, CloseActions(closed + [id], ok))
         == Step(Run(s, CloseActions(closed, ok)), System.CloseOne(id, ok(id)))
  {
    hide Step;
    assert Init(closed + [id]) == closed;
    assert Init(CloseActions(closed + [id], ok)) == CloseActions(closed, ok);
  }

  lemma StepKeeps(s: Sys, a: Action)
    ensures Step(s, a).phase == NextPhase(s, a) && Step(s, a).order == s.order
    ensures Step(s, a).relays.Keys == s.relays.Keys && (!a.Tick? ==> Step(s, a).now == s.now)
  {
    match TargetOf(s, a)
    case Target(id, op) =>
      hide Perform;
      PerformFrame(s, id, op);
    case Nothing =>
  }

  lemma NotEmpty(s: set<int>)
    ensures s == {} || exists x :: x in s
  {
    if forall x :: x !in s {
      assert s == {};
    }
  }

  // ---------- New ----------

  lemma FreshAppended(cfgs: seq<C.Relay>, k: nat, now: int, h: seq<Transition>)
    requires k < |cfgs|
    ensures Fresh(cfgs[..k + 1], now).(history := h) == Appended(Fresh(cfgs[..k], now).(history := h), cfgs[k])
  {
    assert Init(cfgs[..k + 1]) == cfgs[..k];
  }

  lemma {:induction false} FreshClock(cfgs: seq<C.Relay>, now: int)
    ensures Fresh(cfgs, now).now == now
  {
    if cfgs == [] {
    } else {
      FreshClock(Init(cfgs), now);
    }
  }

  lemma NewRelayFields(cfg: C.Relay)
    ensures NewRelay(cfg).cfg == cfg && (NewRelay(cfg).attached <==> cfg.enabled)
  {
  }

  /** The pins that the first `k` relays occupy. */
  ghost predicate Occupied(cfgs: seq<C.Relay>, k: nat, p: int) {
    exists j :: 0 <= j < k && j < |cfgs| && cfgs[j].enabled && cfgs[j].gpio == p
  }

  predicate Unshared(cfgs: seq<C.Relay>, k: nat)
    requires k <= |cfgs|
  {
    forall i, j :: 0 <= i < j < k && cfgs[i].enabled && cfgs[j].enabled ==> cfgs[i].gpio != cfgs[j].gpio
  }

  /** The pins of the first `k` relays are open, at the level that leaves the relay
      released: low for an active-high relay, high for an active-low one. */
  ghost predicate AtRest(lines: map<int, Line>, cfgs: seq<C.Relay>, k: nat)
    requires k <= |cfgs|
    reads lines.Values
  {
    forall j :: 0 <= j < k && cfgs[j].enabled ==>
      cfgs[j].gpio in lines && (lines[cfgs[j].gpio].High() <==> !cfgs[j].activeHigh)
  }

  lemma AtRestNext(lines: map<int, Line>, cfgs: seq<C.Relay>, k: nat)
    requires k < |cfgs| && AtRest(lines, cfgs, k)
    requires cfgs[k].enabled ==> cfgs[k].gpio in lines && (lines[cfgs[k].gpio].High() <==> !cfgs[k].activeHigh)
    ensures AtRest(lines, cfgs, k + 1)
  {
  }

  lemma AtRestGrows(lines: map<int, Line>, cfgs: seq<C.Relay>, k: nat, p: int, line: Line)
    requires k <= |cfgs| && AtRest(lines, cfgs, k) && p !in lines
    ensures AtRest(lines[p := line], cfgs, k)
  {
  }

  /** Relay `m` opened pin `p`, and relay `n`, before the `k`th, took its place. */
  predicate Replaced(cfgs: seq<C.Relay>, k: nat, p: int, m: int, n: int) {
    0 <= m < n < k <= |cfgs| && cfgs[m].enabled && cfgs[m].gpio == p && cfgs[n].id == cfgs[m].id
  }

  /** The line of pin `p` was opened, but no relay in the map holds it. */
  ghost predicate Leaked(cfgs: seq<C.Relay>, k: nat, p: int) {
    exists m, n :: Replaced(cfgs, k, p, m, n)
  }

  lemma LeakedWasOccupied(cfgs: seq<C.Relay>, k: nat)
    ensures forall p :: Leaked(cfgs, k, p) ==> Occupied(cfgs, k, p)
  {
  }

  lemma OccupiedNext(cfgs: seq<C.Relay>, k: nat)
    requires k < |cfgs|
    ensures forall p :: Occupied(cfgs, k + 1, p) <==> Occupied(cfgs, k, p) || (cfgs[k].enabled && cfgs[k].gpio == p)
    ensures Unshared(cfgs, k) && (cfgs[k].enabled ==> !Occupied(cfgs, k, cfgs[k].gpio)) ==> Unshared(cfgs, k + 1)
  {
    forall p
      ensures Occupied(cfgs, k + 1, p) <==> Occupied(cfgs, k, p) || (cfgs[k].enabled && cfgs[k].gpio == p)
    {
      if j :| 0 <= j < k && cfgs[j].enabled && cfgs[j].gpio == p {
        assert 0 <= j < k + 1;
      } else if cfgs[k].enabled && cfgs[k].gpio == p {
        assert Occupied(cfgs, k + 1, p);
      }
    }
  }

  /** The backend does not give relay `k` its line. */
  ghost predicate Refused(cfgs: seq<C.Relay>, k: nat, grants: int -> bool, taken: set<int>) {
    k < |cfgs| && cfgs[k].enabled
    && (!grants(cfgs[k].gpio) || cfgs[k].gpio in taken || Occupied(cfgs, k, cfgs[k].gpio))
  }

  ghost predicate FirstRefused(cfgs: seq<C.Relay>, k: nat, grants: int -> bool, taken: set<int>) {
    Refused(cfgs, k, grants, taken) && forall j: nat :: j < k ==> !Refused(cfgs, j, grants, taken)
  }

  method Empty(backend: Mock, cfgs: seq<C.Relay>, now: int) returns (c: Controller)
    ensures fresh(c) && c.backend == backend && c.Cells() == {} && c.Lines() == {}
    ensures c.Opening(cfgs, 0, now, backend.lines, backend.transitions)
  {
    c := new Controller(backend, map[], [], Fresh([], now).(history := backend.transitions));
    assert cfgs[..0] == [];
  }

  /** New, for any list of relays and any backend. It fails exactly when the
      backend refuses the line of an enabled relay, which it does when the pin is
      already taken; then it gives back all lines but those that leaked: lines of
      relays whose place in the map a later relay with the same id has taken. The
      backend is as it was exactly if there is no such relay.
      Otherwise exactly the lines of the enabled relays are open, at their inactive
      level, and nothing has been driven. */
  method New(backend: Mock, cfgs: seq<C.Relay>, grants: int -> bool, okToClose: int -> bool, now: int)
    returns (c: Controller?)
    modifies backend
    ensures c == null <==> exists k: nat :: Refused(cfgs, k, grants, old(backend.lines).Keys)
    ensures c == null ==> exists k: nat ::
      && FirstRefused(cfgs, k, grants, old(backend.lines).Keys)
      && (forall p :: p in backend.lines <==> p in old(backend.lines) || Leaked(cfgs, k, p))
      && (backend.lines == old(backend.lines) <==> !Shadowed(cfgs, k))
    ensures c != null ==>
      && fresh(c) && c.Valid() && c.backend == backend
      && c.model == Fresh(cfgs, now).(history := old(backend.transitions))
    ensures c != null ==> forall p :: p in backend.lines <==> p in old(backend.lines) || Occupied(cfgs, |cfgs|, p)
    ensures c != null ==> AtRest(backend.lines, cfgs, |cfgs|)
    ensures forall p :: p in old(backend.lines) ==> p in backend.lines && backend.lines[p] == old(backend.lines)[p]
  {
    hide Controller.Opening, Controller.Valid, Leaked, Occupied;
    ghost var base, h := backend.lines, backend.transitions;
    c := Empty(backend, cfgs, now);
    for k := 0 to |cfgs|
      invariant c != null && fresh(c) && c.backend == backend && c.Opening(cfgs, k, now, base, h)
      invariant fresh(c.Cells()) && fresh(c.Lines())
      invariant forall j: nat :: j < k ==> !Refused(cfgs, j, grants, base.Keys)
    {
      var ok := c.OpenNext(cfgs, k, grants, okToClose, now, base, h);
      if !ok {
        assert FirstRefused(cfgs, k, grants, base.Keys);
        SameLines(backend.lines, base, cfgs, k);
        return null;
      }
    }
    c.AllOpen(cfgs, now, base, h);
  }

  /** For a validated configuration New is all or nothing: nothing leaks, and no
      pin is refused for being taken by another of its relays. */
  lemma ValidatedIsAllOrNothing(cfgs: seq<C.Relay>, k: nat, p: int)
    requires C.ValidRelays(cfgs)
    ensures !Leaked(cfgs, k, p)
    ensures k < |cfgs| ==> !Occupied(cfgs, k, cfgs[k].gpio)
  {
  }

  /** An enabled relay before the `k`th has a later namesake there. */
  ghost predicate Shadowed(cfgs: seq<C.Relay>, k: nat) {
    exists m, n :: 0 <= m < n < k <= |cfgs| && cfgs[m].enabled && cfgs[n].id == cfgs[m].id
  }

  lemma LeaksIff(cfgs: seq<C.Relay>, k: nat)
    requires k <= |cfgs|
    ensures (exists p :: Leaked(cfgs, k, p)) <==> Shadowed(cfgs, k)
  {
    if m, n :| 0 <= m < n < k && cfgs[m].enabled && cfgs[n].id == cfgs[m].id {
      assert Replaced(cfgs, k, cfgs[m].gpio, m, n);
      assert Leaked(cfgs, k, cfgs[m].gpio);
    }
    if p :| Leaked(cfgs, k, p) {
      var m, n :| Replaced(cfgs, k, p, m, n);
    }
  }

  lemma SameLines(lines: map<int, Line>, base: map<int, Line>, cfgs: seq<C.Relay>, k: nat)
    requires k <= |cfgs| && forall p :: p in lines <==> p in base || Leaked(cfgs, k, p)
    requires forall p :: p in base ==> p in lines && lines[p] == base[p] && !Leaked(cfgs, k, p)
    ensures lines == base <==> !Shadowed(cfgs, k)
  {
    LeaksIff(cfgs, k);
    hide Leaked, Shadowed;
    if p :| Leaked(cfgs, k, p) {
      assert p in lines && p !in base;
    } else {
      assert forall p :: !Leaked(cfgs, k, p);
      assert lines.Keys == base.Keys by {
        assert forall p :: p in lines.Keys <==> p in base.Keys;
      }
      assert forall p :: p in lines.Keys ==> lines[p] == base[p];
      assert lines == base;
    }
  }

  lemma FirstRefusedUnique(cfgs: seq<C.Relay>, k: nat, m: nat, grants: int -> bool, taken: set<int>)
    requires FirstRefused(cfgs, k, grants, taken) && FirstRefused(cfgs, m, grants, taken)
    ensures k == m
  {
  }

  /** It does happen, on an idle backend that grants every line: an enabled relay,
      a disabled one with the same id, and a third that wants the pin of the first,
      whose line New has lost sight of. */
  method NewCanLeak(a: C.Relay, b: C.Relay, c: C.Relay, now: int) returns (backend: Mock)
    requires a.enabled && !b.enabled && c.enabled && b.id == a.id && c.gpio == a.gpio
    ensures fresh(backend) && a.gpio in backend.lines
  {
    backend := new Mock();
    var cfgs := [a, b, c];
    assert cfgs[0] == a && cfgs[1] == b && cfgs[2] == c;
    assert Replaced(cfgs, 2, a.gpio, 0, 1) && Leaked(cfgs, 2, a.gpio) && Occupied(cfgs, 2, a.gpio);
    assert forall p :: !Occupied(cfgs, 0, p);
    var all := (p: int) => true;
    ghost var before := backend.lines;
    assert FirstRefused(cfgs, 2, all, before.Keys);
    var _ := New(backend, cfgs, all, all, now);
    ghost var k: nat :| FirstRefused(cfgs, k, all, before.Keys)
      && forall p :: p in backend.lines <==> p in before || Leaked(cfgs, k, p);
    FirstRefusedUnique(cfgs, k, 2, all, before.Keys);
  }
}
