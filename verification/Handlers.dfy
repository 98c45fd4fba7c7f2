/** The handlers of internal/httpapi interleaved. requireAuth's look into the
    cache, its check of the password and its remembering, the gate's read of the
    served configuration, the handler's Load, its Save, its Store and the flush
    of the cache are separate steps, and any number of requests take theirs in
    any order. Save is one step, the rename that makes its document readable:
    `Saves` shows that nothing else of a Save can be read.

    Everything that happens is logged, with the request it belongs to. What the
    log of a run can look like (`LogOk`) is proved here once; `HandlerRuns`
    reads the results off the log. */
module Handlers {
  import opened Basics
  import opened Auth
  import opened Server
  import C = Configs

  /** Where a request is. A password change has no gate to pass. */
  datatype Thread =
    | AtCheck(header: string, route: Route)
    | AtVerify(header: string, route: Route)
    | AtRemember(header: string, route: Route)
    | AtGate(route: Route)
    | Entered(route: Route)
    | ToSave(route: Route, next: C.Config)
    | ToStore(route: Route, next: C.Config)
    | ToFlush(route: Route)
    | Ended

  datatype Event =
    | Answered(id: nat, header: string, at: int)        // the cache answers for the header
    | Verified(id: nat, header: string, cfg: C.Config)  // the header is genuine for `cfg`
    | Remembered(id: nat, header: string, at: int)
    | Loaded(id: nat, route: Route, cfg: C.Config)      // the handler's body runs, on `cfg`
    | Saved(id: nat, route: Route, next: C.Config)
    | Stored(id: nat, route: Route, next: C.Config)
    | Flushed(id: nat)

  datatype World = World(
    cfg: C.Config, doc: C.Config, cache: Cache, now: int, threads: map<nat, Thread>, log: seq<Event>)

  datatype Action = Tick(dt: nat) | Begin(id: nat, header: string, route: Route) | Advance(id: nat, saved: bool)

  /** Past authentication. */
  function Inside(route: Route): Thread {
    if route.PutPassword? then Entered(route) else AtGate(route)
  }

  ghost function Accepted(env: Env, cfg: C.Config, route: Route): Option<C.Config> {
    var next := Proposal(env, cfg, route).0;
    if next.Some? && C.ValidConfig(env.isIP, next.value) then next else None
  }

  /** What the next step of request `id` logs. */
  ghost function Logs(env: Env, w: World, id: nat, saved: bool): Option<Event>
    requires id in w.threads
  {
    match w.threads[id]
    case AtCheck(header, _) =>
      if env.parse(header).Some? && Hit(w.cache, env.sha(header), w.now)
      then Some(Answered(id, header, w.now)) else None
    case AtVerify(header, _) => if Genuine(env, w.cfg, header) then Some(Verified(id, header, w.cfg)) else None
    case AtRemember(header, _) => Some(Remembered(id, header, w.now))
    case Entered(route) => Some(Loaded(id, route, w.cfg))
    case ToSave(route, next) => if saved then Some(Saved(id, route, next)) else None
    case ToStore(route, next) => Some(Stored(id, route, next))
    case ToFlush(_) => Some(Flushed(id))
    case _ => None
  }

  /** Where it goes from there. */
  ghost function Next(env: Env, w: World, id: nat, saved: bool): Thread
    requires id in w.threads
  {
    match w.threads[id]
    case AtCheck(header, route) =>
      if env.parse(header).None? then Ended
      else if Hit(w.cache, env.sha(header), w.now) then Inside(route)
      else AtVerify(header, route)
    case AtVerify(header, route) => if Genuine(env, w.cfg, header) then AtRemember(header, route) else Ended
    case AtRemember(_, route) => Inside(route)
    case AtGate(route) => if w.cfg.auth.mustChange then Ended else Entered(route)
    case Entered(route) =>
      (match Accepted(env, w.cfg, route)
       case None => Ended
       case Some(next) => ToSave(route, next))
    case ToSave(route, next) => if saved then ToStore(route, next) else Ended
    case ToStore(route, _) => if route.PutPassword? then ToFlush(route) else Ended
    case ToFlush(_) => Ended
    case Ended => Ended
  }

  function CacheAfter(env: Env, w: World, id: nat): Cache
    requires id in w.threads
  {
    match w.threads[id]
    case AtCheck(header, _) => if env.parse(header).None? then w.cache else Purge(w.cache, env.sha(header), w.now)
    case AtRemember(header, _) => w.cache[env.sha(header) := w.now + TTL]
    case ToFlush(_) => map[]
    case _ => w.cache
  }

  function Append(log: seq<Event>, e: Option<Event>): seq<Event> {
    match e
    case None => log
    case Some(x) => log + [x]
  }

  ghost function StepThread(env: Env, w: World, id: nat, saved: bool): World
    requires id in w.threads
  {
    var t := w.threads[id];
    World(
      if t.ToStore? then t.next else w.cfg,
      if t.ToSave? && saved then t.next else w.doc,
      CacheAfter(env, w, id),
      w.now,
      w.threads[id := Next(env, w, id, saved)],
      Append(w.log, Logs(env, w, id, saved)))
  }

  ghost function Step(env: Env, w: World, a: Action): World {
    match a
    case Tick(dt) => w.(now := w.now + dt)
    case Begin(id, header, route) =>
      if id in w.threads then w else w.(threads := w.threads[id := AtCheck(header, route)])
    case Advance(id, saved) => if id in w.threads then StepThread(env, w, id, saved) else w
  }

  ghost function Run(env: Env, w: World, acts: seq<Action>): World {
    if acts == [] then w else Step(env, Run(env, w, Init(acts)), Last(acts))
  }

  /** A server that has just started with a configuration. */
  function Started(cfg: C.Config): World {
    World(cfg, cfg, map[], 0, map[], [])
  }

  /** A request arriving now would be let in, if nothing came in between. */
  predicate Admits(env: Env, w: World, header: string) {
    env.parse(header).Some? && (Hit(w.cache, env.sha(header), w.now) || Genuine(env, w.cfg, header))
  }

  // ---------- What a log says ----------

  /** The configuration served after these events. */
  function Served(log: seq<Event>, first: C.Config): C.Config {
    if log == [] then first else if Last(log).Stored? then Last(log).next else Served(Init(log), first)
  }

  /** The document on disk after these events. */
  function Document(log: seq<Event>, first: C.Config): C.Config {
    if log == [] then first else if Last(log).Saved? then Last(log).next else Document(Init(log), first)
  }

  predicate DidLoad(log: seq<Event>, id: nat) {
    exists k :: 0 <= k < |log| && log[k].Loaded? && log[k].id == id
  }

  predicate DidSave(log: seq<Event>, id: nat) {
    exists k :: 0 <= k < |log| && log[k].Saved? && log[k].id == id
  }

  predicate DidStore(log: seq<Event>, id: nat) {
    exists k :: 0 <= k < |log| && log[k].Stored? && log[k].id == id
  }

  /** The request loaded a configuration from which its route makes `next`. */
  predicate Proposed(env: Env, log: seq<Event>, id: nat, route: Route, next: C.Config) {
    exists k :: 0 <= k < |log|
      && log[k].Loaded? && log[k].id == id && log[k].route == route
      && Proposal(env, log[k].cfg, route).0 == Some(next)
  }

  predicate DidVerify(log: seq<Event>, id: nat, header: string) {
    exists k :: 0 <= k < |log| && log[k].Verified? && log[k].id == id && log[k].header == header
  }

  /** The request has been let in: the cache answered for its header, or it verified
      and remembered it. */
  predicate DidEnter(log: seq<Event>, id: nat) {
    exists k :: 0 <= k < |log| && (log[k].Answered? || log[k].Remembered?) && log[k].id == id
  }

  /** At some point of the log the gate was open. */
  predicate GateWasOpen(log: seq<Event>, first: C.Config) {
    exists n :: 0 <= n <= |log| && !Served(log[..n], first).auth.mustChange
  }

  /** `e` can come after `before`: a request loads what is served then, once, and
      behind the gate only if the gate was open; it saves, once, a valid
      configuration made from what it loaded; it stores, once, what it saved;
      it verifies against what is served then and remembers what it verified; and it
      loads only once it has been let in. */
  ghost predicate EventOk(env: Env, first: C.Config, before: seq<Event>, e: Event) {
    match e
    case Verified(_, header, cfg) => cfg == Served(before, first) && Genuine(env, cfg, header)
    case Remembered(id, header, _) => DidVerify(before, id, header)
    case Loaded(id, route, cfg) =>
      && cfg == Served(before, first) && !DidLoad(before, id) && DidEnter(before, id)
      && (route.PutPassword? || GateWasOpen(before, first))
    case Saved(id, route, next) =>
      Proposed(env, before, id, route, next) && C.ValidConfig(env.isIP, next) && !DidSave(before, id)
    case Stored(id, route, next) => Saved(id, route, next) in before && !DidStore(before, id)
    case _ => true
  }

  ghost predicate LogOk(env: Env, first: C.Config, log: seq<Event>) {
    forall k :: 0 <= k < |log| ==> EventOk(env, first, log[..k], log[k])
  }

  /** What the log knows about a request that is at `t`. */
  ghost predicate ThreadOk(env: Env, first: C.Config, log: seq<Event>, id: nat, t: Thread) {
    && (t.AtCheck? || t.AtVerify? || t.AtRemember? || t.AtGate? || t.Entered? ==>
          !DidLoad(log, id) && !DidSave(log, id) && !DidStore(log, id))
    && match t
       case AtRemember(header, _) => DidVerify(log, id, header)
       case AtGate(_) => DidEnter(log, id)
       case Entered(route) => DidEnter(log, id) && (route.PutPassword? || GateWasOpen(log, first))
       case ToSave(route, next) =>
         Proposed(env, log, id, route, next) && C.ValidConfig(env.isIP, next) && !DidSave(log, id) && !DidStore(log, id)
       case ToStore(route, next) => Saved(id, route, next) in log && !DidStore(log, id)
       case _ => true
  }

  ghost predicate WorldOk(env: Env, first: C.Config, w: World) {
    && LogOk(env, first, w.log)
    && w.cfg == Served(w.log, first) && w.doc == Document(w.log, first)
    && (forall id :: id in w.threads ==> ThreadOk(env, first, w.log, id, w.threads[id]))
    && (forall e :: e in w.log ==> e.id in w.threads)
    && (forall e :: e in w.log && e.Saved? ==> DidStore(w.log, e.id) || w.threads[e.id].ToStore?)
  }

  // ---------- Every run keeps its log in order ----------

  /** What an event adds to the log, and that it takes nothing away. */
  lemma LogGrows(env: Env, first: C.Config, log: seq<Event>, e: Event)
    ensures var l := log + [e];
      && Served(l, first) == (if e.Stored? then e.next else Served(log, first))
      && Document(l, first) == (if e.Saved? then e.next else Document(log, first))
      && (forall id :: DidLoad(l, id) <==> DidLoad(log, id) || (e.Loaded? && e.id == id))
      && (forall id :: DidSave(l, id) <==> DidSave(log, id) || (e.Saved? && e.id == id))
      && (forall id :: DidStore(l, id) <==> DidStore(log, id) || (e.Stored? && e.id == id))
  {
    var l := log + [e];
    assert Init(l) == log;
    assert forall k :: 0 <= k < |log| ==> l[k] == log[k];
    assert l[|log|] == e;
    forall id
      ensures DidLoad(log, id) ==> DidLoad(l, id)
      ensures DidSave(log, id) ==> DidSave(l, id)
      ensures DidStore(log, id) ==> DidStore(l, id)
    {
      if k :| 0 <= k < |log| && log[k].Loaded? && log[k].id == id { assert l[k].Loaded?; }
      if k :| 0 <= k < |log| && log[k].Saved? && log[k].id == id { assert l[k].Saved?; }
      if k :| 0 <= k < |log| && log[k].Stored? && log[k].id == id { assert l[k].Stored?; }
    }
  }

  lemma FactsStay(env: Env, first: C.Config, log: seq<Event>, e: Event)
    ensures var l := log + [e];
      && (forall id, route, next :: Proposed(env, log, id, route, next) ==> Proposed(env, l, id, route, next))
      && (forall id, header :: DidVerify(log, id, header) ==> DidVerify(l, id, header))
      && (forall id :: DidEnter(log, id) ==> DidEnter(l, id))
      && (GateWasOpen(log, first) ==> GateWasOpen(l, first))
  {
    hide Served, Proposal;
    var l := log + [e];
    assert forall k :: 0 <= k < |log| ==> l[k] == log[k];
    assert forall n :: 0 <= n <= |log| ==> l[..n] == log[..n];
    forall id, route, next | Proposed(env, log, id, route, next)
      ensures Proposed(env, l, id, route, next)
    {
      var k :| 0 <= k < |log| && log[k].Loaded? && log[k].id == id && log[k].route == route
        && Proposal(env, log[k].cfg, route).0 == Some(next);
      assert l[k] == log[k];
    }
  }

  lemma NewFacts(env: Env, first: C.Config, log: seq<Event>, e: Event)
    ensures var l := log + [e];
      && (e.Verified? ==> DidVerify(l, e.id, e.header))
      && (e.Answered? || e.Remembered? ==> DidEnter(l, e.id))
      && (e.Loaded? && Proposal(env, e.cfg, e.route).0.Some? ==>
            Proposed(env, l, e.id, e.route, Proposal(env, e.cfg, e.route).0.value))
  {
    hide Proposal;
    assert (log + [e])[|log|] == e;
  }

  lemma LogOkGrows(env: Env, first: C.Config, log: seq<Event>, e: Event)
    requires LogOk(env, first, log) && EventOk(env, first, log, e)
    ensures LogOk(env, first, log + [e])
  {
    hide EventOk;
    var l := log + [e];
    assert forall k :: 0 <= k <= |log| ==> l[..k] == log[..k];
    assert log[..|log|] == log;
  }

  /** Other requests are where they were. */
  lemma OthersStay(env: Env, first: C.Config, log: seq<Event>, e: Event, id: nat, t: Thread)
    requires ThreadOk(env, first, log, id, t) && e.id != id
    ensures ThreadOk(env, first, log + [e], id, t)
  {
    LogGrows(env, first, log, e);
    FactsStay(env, first, log, e);
    hide Proposed, DidVerify, DidEnter, GateWasOpen, DidLoad, DidSave, DidStore, C.ValidConfig;
    match t
    case ToStore(route, next) => assert Saved(id, route, next) in log + [e];
    case _ =>
  }

  /** What a step logs is in order. */
  lemma StepLogs(env: Env, first: C.Config, w: World, id: nat, saved: bool)
    requires WorldOk(env, first, w) && id in w.threads
    ensures Logs(env, w, id, saved).Some? ==>
      EventOk(env, first, w.log, Logs(env, w, id, saved).value) && Logs(env, w, id, saved).value.id == id
  {
    hide LogOk, Served, Document, Proposed, DidVerify, DidEnter, GateWasOpen, DidLoad, DidSave, DidStore;
    hide C.ValidConfig, Genuine;
    assert ThreadOk(env, first, w.log, id, w.threads[id]);
  }

  lemma GateSeen(log: seq<Event>, first: C.Config)
    requires !Served(log, first).auth.mustChange
    ensures GateWasOpen(log, first)
  {
    assert log[..|log|] == log;
  }

  /** And it fits the place where the request is then. */
  lemma StepThreadOk(env: Env, first: C.Config, w: World, id: nat, saved: bool)
    requires WorldOk(env, first, w) && id in w.threads
    ensures ThreadOk(env, first, Append(w.log, Logs(env, w, id, saved)), id, Next(env, w, id, saved))
  {
    hide LogOk, Served, Document, Proposed, DidVerify, DidEnter, GateWasOpen, DidLoad, DidSave, DidStore;
    hide C.ValidConfig, Genuine, Proposal;
    assert ThreadOk(env, first, w.log, id, w.threads[id]);
    var e := Logs(env, w, id, saved);
    if e.Some? {
      LogGrows(env, first, w.log, e.value);
      FactsStay(env, first, w.log, e.value);
      NewFacts(env, first, w.log, e.value);
    }
    match w.threads[id]
    case AtGate(_) => if !w.cfg.auth.mustChange { GateSeen(w.log, first); }
    case ToSave(route, next) => if saved { assert Saved(id, route, next) in w.log + [e.value]; }
    case _ =>
  }

  lemma SavedAreStored(env: Env, first: C.Config, w: World, id: nat, saved: bool)
    requires WorldOk(env, first, w) && id in w.threads
    ensures var v := StepThread(env, w, id, saved);
      && (forall e :: e in v.log ==> e.id in v.threads)
      && (forall e :: e in v.log && e.Saved? ==> DidStore(v.log, e.id) || v.threads[e.id].ToStore?)
  {
    StepLogs(env, first, w, id, saved);
    var e := Logs(env, w, id, saved);
    if e.Some? { LogGrows(env, first, w.log, e.value); }
    hide LogOk, ThreadOk, EventOk, Served, Document, DidLoad, DidSave, DidStore, Accepted, Genuine, CacheAfter;
    var v := StepThread(env, w, id, saved);
    forall x | x in v.log && x.Saved?
      ensures DidStore(v.log, x.id) || v.threads[x.id].ToStore?
    {
      if x in w.log {
        assert DidStore(w.log, x.id) || w.threads[x.id].ToStore?;
      }
    }
  }

  lemma StepOk(env: Env, first: C.Config, w: World, a: Action)
    requires WorldOk(env, first, w)
    ensures WorldOk(env, first, Step(env, w, a))
  {
    match a
    case Tick(_) =>
      hide LogOk, ThreadOk, Served, Document, DidStore;
    case Begin(id, header, route) =>
      if id !in w.threads {
        FreshThread(env, first, w, id, AtCheck(header, route));
      }
      hide LogOk, ThreadOk, Served, Document, DidStore;
    case Advance(id, saved) =>
      if id in w.threads { AdvanceOk(env, first, w, id, saved); }
      hide StepThread, WorldOk;
  }

  lemma FreshThread(env: Env, first: C.Config, w: World, id: nat, t: Thread)
    requires WorldOk(env, first, w) && id !in w.threads && t.AtCheck?
    ensures ThreadOk(env, first, w.log, id, t)
  {
    hide LogOk, Served, Document;
    assert forall k :: 0 <= k < |w.log| ==> w.log[k] in w.log;
  }

  lemma AdvanceLog(env: Env, first: C.Config, w: World, id: nat, saved: bool)
    requires WorldOk(env, first, w) && id in w.threads
    ensures var v := StepThread(env, w, id, saved);
      LogOk(env, first, v.log) && v.cfg == Served(v.log, first) && v.doc == Document(v.log, first)
  {
    StepLogs(env, first, w, id, saved);
    var e := Logs(env, w, id, saved);
    if e.Some? {
      LogGrows(env, first, w.log, e.value);
      LogOkGrows(env, first, w.log, e.value);
    }
    hide LogOk, ThreadOk, EventOk, Served, Document, DidLoad, DidSave, DidStore, Accepted, Genuine, CacheAfter;
  }

  lemma AdvanceThreads(env: Env, first: C.Config, w: World, id: nat, saved: bool)
    requires WorldOk(env, first, w) && id in w.threads
    ensures var v := StepThread(env, w, id, saved);
      forall i :: i in v.threads ==> ThreadOk(env, first, v.log, i, v.threads[i])
  {
    StepLogs(env, first, w, id, saved);
    StepThreadOk(env, first, w, id, saved);
    hide LogOk, EventOk, ThreadOk, Served, Document, DidStore, Next, CacheAfter;
    var e, v := Logs(env, w, id, saved), StepThread(env, w, id, saved);
    forall i | i in v.threads
      ensures ThreadOk(env, first, v.log, i, v.threads[i])
    {
      if i != id && e.Some? { OthersStay(env, first, w.log, e.value, i, w.threads[i]); }
    }
  }

  lemma AdvanceOk(env: Env, first: C.Config, w: World, id: nat, saved: bool)
    requires WorldOk(env, first, w) && id in w.threads
    ensures WorldOk(env, first, StepThread(env, w, id, saved))
  {
    AdvanceLog(env, first, w, id, saved);
    AdvanceThreads(env, first, w, id, saved);
    SavedAreStored(env, first, w, id, saved);
    hide LogOk, ThreadOk, Served, Document, DidStore, StepThread;
  }

  /** The log of every run is in order and says what is served, what is on disk
      and where each request is. */
  lemma {:induction false} RunOk(env: Env, first: C.Config, acts: seq<Action>)
    ensures WorldOk(env, first, Run(env, Started(first), acts))
  {
    hide Step, WorldOk;
    if acts == [] {
      StartOk(env, first);
    } else {
      RunOk(env, first, Init(acts));
      StepOk(env, first, Run(env, Started(first), Init(acts)), Last(acts));
    }
  }

  lemma StartOk(env: Env, first: C.Config)
    ensures WorldOk(env, first, Started(first))
  {
  }
}
