/** What callers get: the answers, the reports and the traces that commands leave,
    in every run of the controller and under any driver faults. */
module SystemReports {
  import opened Basics
  import opened RelayMachine
  import opened System
  import opened SystemRuns
  import C = Configs

  /** The relay of a reachable state. */
  function RelayOf(cfgs: seq<C.Relay>, t0: int, acts: seq<Action>, i: nat): Option<Relay>
    requires i < |cfgs|
  {
    var s := Run(Fresh(cfgs, t0), acts);
    if cfgs[i].id in s.relays then Some(s.relays[cfgs[i].id]) else None
  }

  lemma Reachable(cfgs: seq<C.Relay>, t0: int, acts: seq<Action>, i: nat)
    requires C.ValidRelays(cfgs) && i < |cfgs|
    ensures RelayOf(cfgs, t0, acts, i).Some?
    ensures Inv(RelayOf(cfgs, t0, acts, i).value) && RelayOf(cfgs, t0, acts, i).value.cfg == cfgs[i]
    ensures BeforeStop(acts) ==>
      Configured(RelayOf(cfgs, t0, acts, i).value) && Tidy(RelayOf(cfgs, t0, acts, i).value)
  {
    hide Inv, Run, Fresh, Configured, Tidy, Sound;
    ReachableRelay(cfgs, t0, acts, i);
  }

  /** Every answer: after any run whatever, a command on a relay that holds its line
      is refused with a driver error exactly if it needs the driver and that fails,
      and then changes nothing that can be seen; all others are answered as the
      three-state relay answers, and take it on as it goes on. */
  lemma EveryAnswer(cfgs: seq<C.Relay>, t0: int, acts: seq<Action>, i: nat, op: Op, now: int)
    requires C.ValidRelays(cfgs) && i < |cfgs| && (op.Trigger? || op.On? || op.Off?)
    ensures RelayOf(cfgs, t0, acts, i).Some?
    ensures var r := RelayOf(cfgs, t0, acts, i).value;
      var cfg := cfgs[i].(enabled := r.attached);
      && (BeforeStop(acts) ==> r.attached == cfgs[i].enabled)
      && if r.attached && NeedsDriver(View(r), op) && !op.ok then
           && Reply(r, op, now) == DriverError && View(Apply(r, op, now)) == View(r)
           && Apply(r, op, now).energised == r.energised
         else
           && Reply(r, op, now) == SimpleReply(cfg, View(r), Lift(r, op, now), now)
           && View(Apply(r, op, now)) == SimpleApply(cfg, View(r), Lift(r, op, now), now)
  {
    Reachable(cfgs, t0, acts, i);
    hide RelayOf, Inv, Apply, Reply, View, NeedsDriver, SimpleApply, SimpleReply, Lift;
    CommandUnderFaults(RelayOf(cfgs, t0, acts, i).value, op, now);
  }

  /** Every report: in any run whatever, a snapshot has the configured id, name and
      pin, says whether the relay holds its line, whether it is on and latched, and
      how much of its pulse is left; before Shutdown in all cases, and afterwards but
      for the time that a relay switched off in its pulse keeps reporting. */
  lemma EveryReport(cfgs: seq<C.Relay>, t0: int, acts: seq<Action>, i: nat, now: int)
    requires C.ValidRelays(cfgs) && i < |cfgs|
    ensures RelayOf(cfgs, t0, acts, i).Some?
    ensures var r := RelayOf(cfgs, t0, acts, i).value;
      var st := TakeSnapshot(r, now);
      && (BeforeStop(acts) ==> st == Report(cfgs[i], cfgs[i].enabled, View(r), now))
      && (if Untidy(r) then st.(remainingMs := 0) == Report(cfgs[i], r.attached, View(r), now)
          else st == Report(cfgs[i], r.attached, View(r), now))
  {
    Reachable(cfgs, t0, acts, i);
    hide RelayOf, Inv, View, TakeSnapshot, Report;
    SnapshotIsReport(RelayOf(cfgs, t0, acts, i).value, now);
  }

  /** What a command leaves behind: it drives the line exactly if it is carried out
      and changes the level or is an Off, and publishes one event exactly if it is
      carried out and not a Trigger on a relay that is on. */
  lemma CommandTraces(s: Sys, id: int, op: Op)
    requires id in s.relays && (op.Trigger? || op.On? || op.Off?)
    ensures var r, t := s.relays[id], Step(s, Do(id, op));
      var carriedOut := Reply(r, op, s.now).Done?;
      && id in t.relays
      && t.history == s.history +
           (if carriedOut && (op.Off? || !r.on) then [Transition(r.cfg.gpio, !op.Off?, s.now)] else [])
      && t.sent == s.sent +
           (if carriedOut && !(op.Trigger? && r.on)
            then [Attempt(TakeSnapshot(t.relays[id], s.now), Command)] else [])
      && t.late == s.late
  {
    hide TakeSnapshot;
    var r := s.relays[id];
    CommandDrives(r, op, s.now);
    hide Apply, Drives, Publishes, Reply;
    assert s.history + [] == s.history && s.sent + [] == s.sent;
  }

  lemma CommandDrives(r: Relay, op: Op, now: int)
    requires op.Trigger? || op.On? || op.Off?
    ensures Drives(r, op, now) ==
      if Reply(r, op, now).Done? && (op.Off? || !r.on) then Some(!op.Off?) else None
    ensures Publishes(r, op, now) <==> Reply(r, op, now).Done? && !(op.Trigger? && r.on)
  {
  }

  /** An expiry closure of the current generation that is due releases the line and
      takes one snapshot to publish later, which says "off"; any other leaves no
      trace. */
  lemma ExpiryTraces(s: Sys, id: int, c: Closure, ok: bool)
    requires id in s.relays
    ensures var r, t := s.relays[id], Step(s, Do(id, Fire(c, ok)));
      var live := c in r.closures && c.due <= s.now && c.gen == r.gen;
      && id in t.relays && t.sent == s.sent
      && t.history == s.history +
           (if live && r.attached && ok then [Transition(r.cfg.gpio, false, s.now)] else [])
      && t.late == s.late + (if live then multiset{TakeSnapshot(t.relays[id], s.now)} else multiset{})
      && (live ==> !t.relays[id].on && !t.relays[id].latched && t.relays[id].deadline.None?)
      && (!live ==> t.relays[id] == r.(closures := t.relays[id].closures))
  {
    hide TakeSnapshot;
    ExpiryDrives(s.relays[id], c, ok, s.now);
    hide Apply, Drives, Publishes;
    assert s.history + [] == s.history && s.late + multiset{} == s.late;
  }

  lemma ExpiryDrives(r: Relay, c: Closure, ok: bool, now: int)
    ensures var a := Apply(r, Fire(c, ok), now);
      var live := c in r.closures && c.due <= now && c.gen == r.gen;
      && Drives(r, Fire(c, ok), now) == (if live && r.attached && ok then Some(false) else None)
      && (Publishes(r, Fire(c, ok), now) <==> live)
      && (live ==> !a.on && !a.latched && a.deadline.None?)
      && (!live ==> a == r.(closures := a.closures))
  {
  }

  /** An iteration of Shutdown or of closeAll drives the line inactive if it is
      there, and publishes nothing. */
  lemma ShutdownTraces(s: Sys, id: int, op: Op)
    requires id in s.relays && (op.Shut? || op.Close?)
    ensures var r, t := s.relays[id], Perform(s, id, op);
      && t.sent == s.sent && t.late == s.late
      && t.history == s.history + (if r.attached && op.ok then [Transition(r.cfg.gpio, false, s.now)] else [])
      && id in t.relays && (op.Shut? ==> !t.relays[id].on && !t.relays[id].latched)
      && (op.Close? ==> !t.relays[id].attached)
  {
    assert s.history + [] == s.history;
  }

  /** A first boot: two relays in working order, on pins 17 and 27, whose Triggers last
      two and five seconds. */
  lemma FirstBoot(hash: string, t0: int)
    ensures var cfgs, s := C.Seeded(hash).relays, Fresh(C.Seeded(hash).relays, t0);
      && C.ValidRelays(cfgs) && s.order == [1, 2] && 1 in s.relays && 2 in s.relays
      && s.relays[1].cfg.gpio == 17 && s.relays[2].cfg.gpio == 27
      && !s.relays[1].cfg.activeHigh && !s.relays[2].cfg.activeHigh
      && Reply(s.relays[1], Trigger(0, true), t0) == Done(true, false, 2000)
      && Reply(s.relays[2], Trigger(0, true), t0) == Done(true, false, 5000)
  {
    FreshRelays(C.Seeded(hash).relays, t0);
    assert Fresh(C.Seeded(hash).relays, t0).order == [1, 2];
    hide Fresh;
  }
}
