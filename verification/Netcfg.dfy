/** Applying network settings (internal/netcfg/netcfg.go). NetworkManager is
    the environment: it keeps the connection profile and the settings that are
    active, rolls a live checkpoint back exactly when its time is up, and
    destroys a live checkpoint when asked. One Apply or Confirm is one step. */
module Netcfg {
  import opened Basics
  import C = Configs
  import N = Netmask

  const ROLLBACK := 60

  // ---------- Settings ----------

  datatype Value =
    | Text(text: string)
    | Addresses(list: seq<(string, nat)>)  // address and prefix length
    | Names(names: seq<string>)
    | Raw(raw: string)                     // anything this program does not build

  type Block = map<string, Value>
  type Settings = map<string, Block>

  const LEGACY: seq<string> := ["addresses", "routes", "address-labels"]

  function LegacyKeys(): set<string> {
    {"addresses", "routes", "address-labels"}
  }

  /** Every block without the legacy keys, and nothing else changed. */
  predicate Stripped(before: Settings, after: Settings) {
    after.Keys == before.Keys && forall b :: b in before ==> after[b] == before[b] - LegacyKeys()
  }

  /** stripLegacyAddressSettings: two nested loops that delete keys. */
  method StripLegacyAddressSettings(settings: Settings) returns (out: Settings)
    ensures Stripped(settings, out)
  {
    out := settings;
    var left := settings.Keys;
    while left != {}
      invariant left <= settings.Keys && out.Keys == settings.Keys
      invariant forall b :: b in settings ==> out[b] == if b in left then settings[b] else settings[b] - LegacyKeys()
    {
      var b :| b in left;
      var block := out[b];
      for k := 0 to |LEGACY|
        invariant forall key :: key in block <==> key in settings[b] && key !in LEGACY[..k]
        invariant forall key :: key in block ==> block[key] == settings[b][key]
      {
        assert LEGACY[..k + 1] == LEGACY[..k] + [LEGACY[k]];
        block := block - {LEGACY[k]};
      }
      assert LEGACY[..|LEGACY|] == LEGACY;
      assert block == settings[b] - LegacyKeys();
      out := out[b := block];
      left := left - {b};
    }
  }

  function BuildIPv4Settings(v6: string -> Option<N.Quad>, intent: C.Network): Option<Block> {
    if intent.mode == "dhcp" || intent.mode == "" then Some(map["method" := Text("auto")])
    else
      match N.NetmaskToPrefix(v6, intent.netmask)
      case None => None
      case Some(prefix) =>
        Some(map[
          "method" := Text("manual"),
          "address-data" := Addresses([(intent.address, prefix)]),
          "gateway" := Text(intent.gateway),
          "dns-data" := Names(intent.dns)])
  }

  /** What Apply sends: the current profile with the ipv4 block replaced and
      the legacy keys gone. */
  ghost predicate Wanted(v6: string -> Option<N.Quad>, profile: Settings, intent: C.Network, wanted: Settings) {
    && BuildIPv4Settings(v6, intent).Some?
    && Stripped(profile["ipv4" := BuildIPv4Settings(v6, intent).value], wanted)
  }

  /** The netmask that Get reports for the active settings. */
  function ReportedNetmask(active: Settings): Option<string> {
    if "ipv4" in active && "address-data" in active["ipv4"] && active["ipv4"]["address-data"].Addresses?
       && active["ipv4"]["address-data"].list != []
    then N.PrefixToNetmask(active["ipv4"]["address-data"].list[0].1)
    else None
  }

  /** A static intent's netmask survives Apply and Get exactly when it was
      written in dotted decimal. */
  lemma NetmaskSurvives(v6: string -> Option<N.Quad>, profile: Settings, intent: C.Network, wanted: Settings)
    requires Wanted(v6, profile, intent, wanted) && intent.mode == "static"
    ensures ReportedNetmask(wanted) == Some(intent.netmask) <==> N.ParseQuad(intent.netmask).Some?
  {
    hide N.NetmaskToPrefix, N.PrefixToNetmask, N.ParseQuad;
    var prefix := N.NetmaskToPrefix(v6, intent.netmask).value;
    N.NetmaskRoundTrip(v6, intent.netmask, prefix);
    assert "ipv4" in profile["ipv4" := BuildIPv4Settings(v6, intent).value];
  }

  // ---------- What is sent, read back ----------

  /** What Get reports of the active settings, but for the hostname; a value that
      is not there is left empty. */
  datatype Status = Status(mode: string, address: string, netmask: Option<string>, gateway: string, dns: seq<string>)

  function TextAt(block: Block, key: string): string {
    if key in block && block[key].Text? then block[key].text else ""
  }

  function Report(active: Settings): Status {
    var block := if "ipv4" in active then active["ipv4"] else map[];
    var addresses :=
      if "address-data" in block && block["address-data"].Addresses? then block["address-data"].list else [];
    Status(
      if TextAt(block, "method") == "manual" then "static" else "dhcp",
      if addresses != [] then addresses[0].0 else "",
      ReportedNetmask(active),
      TextAt(block, "gateway"),
      if "dns-data" in block && block["dns-data"].Names? then block["dns-data"].names else [])
  }

  /** A static intent is sent whole: its block has four keys and no others, and
      they say manual, the one address with the prefix of the netmask, the gateway
      and the name servers. */
  lemma StaticSettings(v6: string -> Option<N.Quad>, profile: Settings, intent: C.Network, wanted: Settings)
    requires Wanted(v6, profile, intent, wanted) && intent.mode != "dhcp" && intent.mode != ""
    ensures "ipv4" in wanted && N.NetmaskToPrefix(v6, intent.netmask).Some?
    ensures wanted["ipv4"] == map[
      "method" := Text("manual"),
      "address-data" := Addresses([(intent.address, N.NetmaskToPrefix(v6, intent.netmask).value)]),
      "gateway" := Text(intent.gateway),
      "dns-data" := Names(intent.dns)]
  {
    hide N.NetmaskToPrefix;
    assert "ipv4" in profile["ipv4" := BuildIPv4Settings(v6, intent).value];
  }

  lemma DhcpSettings(v6: string -> Option<N.Quad>, profile: Settings, intent: C.Network, wanted: Settings)
    requires Wanted(v6, profile, intent, wanted) && (intent.mode == "dhcp" || intent.mode == "")
    ensures "ipv4" in wanted && wanted["ipv4"] == map["method" := Text("auto")]
  {
    assert "ipv4" in profile["ipv4" := BuildIPv4Settings(v6, intent).value];
  }

  /** Nothing else is lost: every other block keeps every key but the legacy ones. */
  lemma OtherBlocksStay(
    v6: string -> Option<N.Quad>, profile: Settings, intent: C.Network, wanted: Settings, block: string, key: string)
    requires Wanted(v6, profile, intent, wanted) && block != "ipv4"
    ensures block in wanted <==> block in profile
    ensures block in profile ==>
      && (key in wanted[block] <==>
            key in profile[block] && key != "addresses" && key != "routes" && key != "address-labels")
      && (key in wanted[block] ==> wanted[block][key] == profile[block][key])
  {
    hide BuildIPv4Settings;
    var with := profile["ipv4" := BuildIPv4Settings(v6, intent).value];
    assert block in with <==> block in profile;
    assert block in profile ==> with[block] == profile[block];
    assert block in wanted.Keys <==> block in with.Keys;
  }

  /** What an operator put comes back from Get: a static intent in full, its
      netmask if it was written in dotted decimal; a dhcp intent as dhcp. */
  lemma IntentSurvives(v6: string -> Option<N.Quad>, profile: Settings, intent: C.Network, wanted: Settings)
    requires Wanted(v6, profile, intent, wanted)
    ensures intent.mode == "static" ==>
      && Report(wanted).(netmask := None) == Status("static", intent.address, None, intent.gateway, intent.dns)
      && (Report(wanted).netmask == Some(intent.netmask) <==> N.ParseQuad(intent.netmask).Some?)
    ensures intent.mode == "dhcp" || intent.mode == "" ==> Report(wanted) == Status("dhcp", "", None, "", [])
  {
    hide N.NetmaskToPrefix, N.PrefixToNetmask, N.ParseQuad, Wanted;
    if intent.mode == "static" {
      StaticSettings(v6, profile, intent, wanted);
      NetmaskSurvives(v6, profile, intent, wanted);
    } else if intent.mode == "dhcp" || intent.mode == "" {
      DhcpSettings(v6, profile, intent, wanted);
    }
  }

  /** Apply cannot make settings exactly when a netmask is needed and is not one. */
  lemma RefusedIntent(v6: string -> Option<N.Quad>, intent: C.Network)
    ensures BuildIPv4Settings(v6, intent).None? <==>
      intent.mode != "dhcp" && intent.mode != "" && N.NetmaskToPrefix(v6, intent.netmask).None?
  {
    hide N.NetmaskToPrefix;
  }

  // ---------- NetworkManager and the Manager ----------

  datatype InForce = InForce(profile: Settings, active: Settings)

  datatype Checkpoint = Checkpoint(saved: InForce, due: int)

  datatype NM = NM(force: InForce, live: map<nat, Checkpoint>, next: nat, now: int, rolledBack: seq<nat>)

  /** `checkpoint` is the Manager's field. */
  datatype Net = Net(nm: NM, checkpoint: Option<nat>)

  /** How far an Apply gets: it may stop before it takes the lock, or fail at
      one of NetworkManager's three calls. */
  datatype Outcome = Early | NoCheckpoint | NoUpdate | NoActivation | Applied

  datatype Action =
    | Pass(dt: nat)
    | Expire(id: nat)
    | Apply(wanted: Settings, outcome: Outcome)
    | Confirm

  function Destroy(nm: NM, id: nat): NM {
    nm.(live := nm.live - {id})
  }

  function CreateCheckpoint(nm: NM): NM {
    nm.(live := nm.live[nm.next := Checkpoint(nm.force, nm.now + ROLLBACK)], next := nm.next + 1)
  }

  function Disarmed(n: Net): Net {
    match n.checkpoint
    case None => n
    case Some(id) => Net(Destroy(n.nm, id), None)
  }

  function ApplyStep(n: Net, wanted: Settings, outcome: Outcome): Net {
    if outcome.Early? then n
    else
      var free := Disarmed(n);
      if outcome.NoCheckpoint? then free
      else
        var id := free.nm.next;
        var guarded := CreateCheckpoint(free.nm);
        if outcome.NoUpdate? then free.(nm := Destroy(guarded, id))
        else
          var updated := guarded.(force := guarded.force.(profile := wanted));
          if outcome.NoActivation? then free.(nm := Destroy(updated, id))
          else Net(updated.(force := InForce(wanted, wanted)), Some(id))
  }

  /** Time does not pass the moment at which a live checkpoint is due: the
      rollback comes first. */
  ghost predicate MayPass(nm: NM, dt: nat) {
    forall id :: id in nm.live ==> nm.now + dt <= nm.live[id].due
  }

  ghost function Step(n: Net, a: Action): Net {
    match a
    case Pass(dt) => if MayPass(n.nm, dt) then n.(nm := n.nm.(now := n.nm.now + dt)) else n
    case Expire(id) =>
      if id in n.nm.live && n.nm.live[id].due <= n.nm.now then
        n.(nm := Destroy(n.nm, id).(force := n.nm.live[id].saved, rolledBack := n.nm.rolledBack + [id]))
      else n
    case Apply(wanted, outcome) => ApplyStep(n, wanted, outcome)
    case Confirm => Disarmed(n)
  }

  ghost function Run(n: Net, acts: seq<Action>): Net {
    if acts == [] then n else Step(Run(n, Init(acts)), Last(acts))
  }

  /** At most one checkpoint is live, and it is the one that the Manager holds. */
  ghost predicate Inv(n: Net) {
    && (forall id :: id in n.nm.live ==> n.checkpoint == Some(id) && id < n.nm.next && id !in n.nm.rolledBack)
    && (n.checkpoint.Some? ==> n.checkpoint.value < n.nm.next)
    && (forall id :: id in n.nm.rolledBack ==> id < n.nm.next)
  }

  lemma {:induction false} RunInv(n: Net, acts: seq<Action>)
    requires Inv(n)
    ensures Inv(Run(n, acts)) && n.nm.next <= Run(n, acts).nm.next && n.nm.now <= Run(n, acts).nm.now
  {
    hide Step, Inv;
    if acts == [] {
    } else {
      RunInv(n, Init(acts));
      StepInv(Run(n, Init(acts)), Last(acts));
    }
  }

  lemma StepInv(n: Net, a: Action)
    requires Inv(n)
    ensures Inv(Step(n, a)) && n.nm.next <= Step(n, a).nm.next && n.nm.now <= Step(n, a).nm.now
  {
  }

  /** The actions that take the guard off the change that is pending. A second
      Apply does so as soon as it has the lock, whether or not it then succeeds. */
  predicate Disarms(a: Action) {
    a.Confirm? || (a.Apply? && !a.outcome.Early?)
  }

  ghost predicate DisarmedAt(n: Net, acts: seq<Action>, id: nat, k: nat)
    requires k < |acts|
  {
    Disarms(acts[k]) && id in Run(n, acts[..k]).nm.live
  }

  /** Where checkpoint `id` can be: live, rolled back, or disarmed while live. */
  lemma {:induction false} CheckpointFate(n: Net, acts: seq<Action>, id: nat)
    requires Inv(n) && id in n.nm.live
    ensures var m := Run(n, acts);
      && (id in m.nm.live ==> m.nm.live[id] == n.nm.live[id] && m.nm.force == n.nm.force && id !in m.nm.rolledBack)
      && (id in m.nm.live ==> m.nm.now <= n.nm.live[id].due || m.nm.now == n.nm.now)
      && !(id in m.nm.rolledBack && exists k: nat :: k < |acts| && DisarmedAt(n, acts, id, k))
      && (id in m.nm.live || id in m.nm.rolledBack || exists k: nat :: k < |acts| && DisarmedAt(n, acts, id, k))
      && (id in m.nm.live ==> forall k: nat :: k < |acts| ==> !DisarmedAt(n, acts, id, k))
  {
    if acts == [] {
    } else {
      var before := Init(acts);
      CheckpointFate(n, before, id);
      RunInv(n, before);
      RunInv(n, acts);
      FatePrefix(n, acts, id);
      FateStep(Run(n, before), Last(acts), id);
      hide Step, Inv, DisarmedAt;
      if exists k: nat :: k < |before| && DisarmedAt(n, before, id, k) {
        var k: nat :| k < |before| && DisarmedAt(n, before, id, k);
        assert DisarmedAt(n, acts, id, k);
      }
      if Disarms(Last(acts)) && id in Run(n, before).nm.live {
        assert DisarmedAt(n, acts, id, |before|);
      }
    }
  }

  lemma FatePrefix(n: Net, acts: seq<Action>, id: nat)
    requires acts != []
    ensures forall k: nat :: k < |acts| - 1 ==> (DisarmedAt(n, acts, id, k) <==> DisarmedAt(n, Init(acts), id, k))
    ensures DisarmedAt(n, acts, id, |acts| - 1) <==> Disarms(Last(acts)) && id in Run(n, Init(acts)).nm.live
  {
    assert forall k :: 0 <= k < |acts| ==> Init(acts)[..k] == acts[..k];
  }

  lemma FateStep(m: Net, a: Action, id: nat)
    requires Inv(m) && id < m.nm.next
    ensures var t := Step(m, a);
      && (id in t.nm.live ==>
            id in m.nm.live && !Disarms(a) && t.nm.live[id] == m.nm.live[id] && t.nm.force == m.nm.force)
      && (id in m.nm.live && !Disarms(a) && id !in t.nm.live ==> id in t.nm.rolledBack)
      && (id in m.nm.live && Disarms(a) ==> id !in t.nm.rolledBack)
      && (id !in m.nm.live ==> (id in t.nm.rolledBack <==> id in m.nm.rolledBack))
      && (id in t.nm.live ==> t.nm.now <= t.nm.live[id].due || t.nm.now == m.nm.now)
  {
  }

  /** The change that `a` makes is pending under a new checkpoint. */
  lemma ApplyArms(n: Net, a: Action)
    requires Inv(n) && a.Apply? && a.outcome.Applied?
    ensures var t := Step(n, a);
      && t.checkpoint == Some(n.nm.next) && n.nm.next in t.nm.live && Inv(t)
      && t.nm.live[n.nm.next] == Checkpoint(n.nm.force, n.nm.now + ROLLBACK)
      && t.nm.force == InForce(a.wanted, a.wanted) && t.nm.now == n.nm.now
  {
  }

  /** The guard, exactly: once its sixty seconds are over, a change has been
      rolled back if and only if it was never disarmed while pending, that is,
      no Confirm and no further Apply got the lock in time. */
  lemma RolledBackUnlessDisarmed(n: Net, a: Action, later: seq<Action>)
    requires Inv(n) && a.Apply? && a.outcome.Applied?
    requires Run(Step(n, a), later).nm.now > n.nm.now + 60
    ensures n.nm.next in Run(Step(n, a), later).nm.rolledBack <==>
      !exists k: nat :: k < |later| && DisarmedAt(Step(n, a), later, n.nm.next, k)
  {
    ApplyArms(n, a);
    CheckpointFate(Step(n, a), later, n.nm.next);
  }

  /** And the rollback restores what was in force just before that Apply, which
      stays in force until somebody gets the lock again. */
  lemma {:induction false} RollbackRestores(n: Net, a: Action, later: seq<Action>)
    requires Inv(n) && a.Apply? && a.outcome.Applied?
    requires forall b :: b in later ==> !Disarms(b)
    ensures var m := Run(Step(n, a), later);
      && m.nm.force == (if n.nm.next in m.nm.rolledBack then n.nm.force else InForce(a.wanted, a.wanted))
      && (m.nm.now > n.nm.now + 60 ==> m.nm.force == n.nm.force)
      && (m.nm.now < n.nm.now + 60 ==> m.nm.force == InForce(a.wanted, a.wanted))
      && (n.nm.next in m.nm.rolledBack || m.nm.live == map[n.nm.next := Checkpoint(n.nm.force, n.nm.now + ROLLBACK)])
      && (n.nm.next in m.nm.rolledBack ==> m.nm.live == map[] && n.nm.now + ROLLBACK <= m.nm.now)
  {
    ApplyArms(n, a);
    var id := n.nm.next;
    if later == [] {
      assert Step(n, a).nm.live.Keys == {id};
      assert id !in Step(n, a).nm.rolledBack;
    } else {
      RollbackRestores(n, a, Init(later));
      var m := Run(Step(n, a), Init(later));
      assert Last(later) in later;
      RestoreStep(m, Last(later), id);
    }
  }

  lemma RestoreStep(m: Net, a: Action, id: nat)
    requires !Disarms(a)
    ensures m.nm.live == map[] ==>
      Step(m, a).nm.live == map[] && Step(m, a).nm.force == m.nm.force
      && Step(m, a).nm.rolledBack == m.nm.rolledBack && m.nm.now <= Step(m, a).nm.now
    ensures id in m.nm.live && m.nm.live == map[id := m.nm.live[id]] ==>
      var c := m.nm.live[id];
      var t := Step(m, a);
      || (t.nm.live == m.nm.live && t.nm.force == m.nm.force && t.nm.rolledBack == m.nm.rolledBack
          && (t.nm.now <= c.due || t.nm.now == m.nm.now))
      || (t.nm.live == map[] && t.nm.force == c.saved && t.nm.rolledBack == m.nm.rolledBack + [id]
          && t.nm.now == m.nm.now && c.due <= t.nm.now)
  {
    if a.Expire? && a.id in m.nm.live && id in m.nm.live && m.nm.live == map[id := m.nm.live[id]] {
      assert a.id in m.nm.live.Keys;
      assert (m.nm.live - {id}).Keys == {};
    }
  }

  /** A second Apply that fails after it has the lock disarms the first change
      without putting anything in its place: nobody confirmed that change, and
      it is never rolled back. */
  lemma FailedApplyDisarms(n: Net, a: Action, second: Settings, later: seq<Action>)
    requires Inv(n) && a.Apply? && a.outcome.Applied?
    ensures n.nm.next !in Run(Step(n, a), [Apply(second, NoCheckpoint)] + later).nm.rolledBack
  {
    var acts := [Apply(second, NoCheckpoint)] + later;
    ApplyArms(n, a);
    CheckpointFate(Step(n, a), acts, n.nm.next);
    assert acts[..0] == [];
    assert DisarmedAt(Step(n, a), acts, n.nm.next, 0);
  }

  /** How far each Apply gets, in NetworkManager's terms: which settings are in
      the profile and active, and what guards them. */
  lemma ApplyLeaves(n: Net, wanted: Settings, outcome: Outcome)
    requires Inv(n)
    ensures var t := ApplyStep(n, wanted, outcome);
      && (outcome.Early? ==> t == n)
      && (outcome.NoCheckpoint? || outcome.NoUpdate? ==> t.nm.force == n.nm.force)
      && (outcome.NoActivation? ==> t.nm.force == InForce(wanted, n.nm.force.active))
      && (outcome.Applied? ==> t.nm.force == InForce(wanted, wanted))
      && (outcome.Applied? ==>
            && t.checkpoint == Some(n.nm.next)
            && t.nm.live == map[n.nm.next := Checkpoint(n.nm.force, n.nm.now + 60)])
      && (!outcome.Early? && !outcome.Applied? ==> t.checkpoint == None && t.nm.live == map[])
      && t.nm.now == n.nm.now && t.nm.rolledBack == n.nm.rolledBack
  {
    assert n.checkpoint.None? ==> n.nm.live.Keys == {};
    assert n.checkpoint.Some? ==> (n.nm.live - {n.checkpoint.value}).Keys == {};
    if !outcome.Early? {
      assert Disarmed(n).nm.live == map[];
    }
  }

  /** Confirm leaves the settings as they are and takes every guard off. */
  lemma ConfirmLeaves(n: Net)
    requires Inv(n)
    ensures Step(n, Confirm) == Net(n.nm.(live := map[]), None)
  {
    if n.checkpoint.Some? {
      assert (n.nm.live - {n.checkpoint.value}).Keys == {};
    } else {
      assert n.nm.live.Keys == {};
    }
  }

  // ---------- Reading the profile before the lock ----------

  /** What Apply leaves alone in a profile. */
  function Rest(p: Settings): Settings {
    map b | b in p && b != "ipv4" :: p[b] - LegacyKeys()
  }

  /** The settings that Apply sends depend on the rest of the profile alone, and
      keep it. */
  lemma WantedRest(v6: string -> Option<N.Quad>, p: Settings, q: Settings, intent: C.Network, wanted: Settings)
    requires Wanted(v6, p, intent, wanted)
    ensures Rest(wanted) == Rest(p)
    ensures Rest(p) == Rest(q) ==> Wanted(v6, q, intent, wanted)
  {
    hide BuildIPv4Settings;
    var block := BuildIPv4Settings(v6, intent).value;
    assert forall b :: b in p["ipv4" := block] <==> b in wanted.Keys;
    forall b | b in p && b != "ipv4"
      ensures b in wanted && wanted[b] - LegacyKeys() == p[b] - LegacyKeys()
    {
      assert p["ipv4" := block][b] == p[b];
      assert p[b] - LegacyKeys() - LegacyKeys() == p[b] - LegacyKeys();
    }
    if Rest(p) == Rest(q) {
      forall b | b != "ipv4"
        ensures b in p <==> b in q
        ensures b in p ==> p[b] - LegacyKeys() == q[b] - LegacyKeys()
      {
        assert b in p <==> b in Rest(p);
        assert b in q <==> b in Rest(q);
        assert b in p ==> Rest(p)[b] == p[b] - LegacyKeys() && Rest(q)[b] == q[b] - LegacyKeys();
      }
      assert wanted.Keys == q["ipv4" := block].Keys;
      assert p["ipv4" := block]["ipv4"] == q["ipv4" := block]["ipv4"];
    }
  }

  ghost predicate SameRest(n: Net, rest: Settings) {
    Rest(n.nm.force.profile) == rest && forall id :: id in n.nm.live ==> Rest(n.nm.live[id].saved.profile) == rest
  }

  lemma SameRestStep(n: Net, a: Action, rest: Settings)
    requires SameRest(n, rest) && (a.Apply? ==> Rest(a.wanted) == rest)
    ensures SameRest(Step(n, a), rest)
  {
    hide Rest;
  }

  /** The settings of each Apply were made from the profile as it was at some
      moment before it. */
  ghost predicate FromEarlierProfiles(v6: string -> Option<N.Quad>, n: Net, acts: seq<Action>) {
    forall k :: 0 <= k < |acts| && acts[k].Apply? ==>
      exists j, intent :: 0 <= j <= k && Wanted(v6, Run(n, acts[..j]).nm.force.profile, intent, acts[k].wanted)
  }

  lemma {:induction false} RestIsKept(v6: string -> Option<N.Quad>, n: Net, acts: seq<Action>, i: nat)
    requires n.nm.live == map[] && FromEarlierProfiles(v6, n, acts) && i <= |acts|
    ensures SameRest(Run(n, acts[..i]), Rest(n.nm.force.profile))
  {
    hide Step, SameRest, Rest, Wanted;
    if i == 0 {
      RestAtFirst(n);
    } else {
      RestIsKept(v6, n, acts, i - 1);
      assert Init(acts[..i]) == acts[..i - 1];
      var a := acts[i - 1];
      if a.Apply? {
        var j, intent :| 0 <= j <= i - 1 && Wanted(v6, Run(n, acts[..j]).nm.force.profile, intent, a.wanted);
        RestIsKept(v6, n, acts, j);
        WantedRest(v6, Run(n, acts[..j]).nm.force.profile, n.nm.force.profile, intent, a.wanted);
        SameProfile(Run(n, acts[..j]), Rest(n.nm.force.profile));
      }
      SameRestStep(Run(n, acts[..i - 1]), a, Rest(n.nm.force.profile));
    }
  }

  lemma RestAtFirst(n: Net)
    ensures n.nm.live == map[] ==> SameRest(n, Rest(n.nm.force.profile))
  {
  }

  lemma SameProfile(n: Net, rest: Settings)
    ensures SameRest(n, rest) ==> Rest(n.nm.force.profile) == rest
  {
  }

  /** Apply reads the profile before it takes its lock. That does no harm: in
      every run of Apply, Confirm and rollbacks, however long ago the settings were
      made, they are settings that would be made from the profile as it is now. */
  lemma EarlyReadIsHarmless(
    v6: string -> Option<N.Quad>, n: Net, acts: seq<Action>, i: nat, intent: C.Network, wanted: Settings)
    requires n.nm.live == map[] && FromEarlierProfiles(v6, n, acts) && i <= |acts|
    requires Wanted(v6, Run(n, acts[..i]).nm.force.profile, intent, wanted)
    ensures Wanted(v6, Run(n, acts).nm.force.profile, intent, wanted)
  {
    hide Run, Wanted, Rest, SameRest;
    assert acts[..|acts|] == acts;
    RestIsKept(v6, n, acts, i);
    RestIsKept(v6, n, acts, |acts|);
    SameProfile(Run(n, acts[..i]), Rest(n.nm.force.profile));
    SameProfile(Run(n, acts), Rest(n.nm.force.profile));
    WantedRest(v6, Run(n, acts[..i]).nm.force.profile, Run(n, acts).nm.force.profile, intent, wanted);
  }

  // ---------- The Manager as an object ----------

  class NetworkManager {
    var nm: NM

    constructor (nm: NM)
      ensures this.nm == nm
    {
      this.nm := nm;
    }

    method CheckpointCreate(ok: bool) returns (id: Option<nat>)
      modifies this
      ensures id == (if ok then Some(old(nm).next) else None)
      ensures nm == if ok then CreateCheckpoint(old(nm)) else old(nm)
    {
      if !ok { return None; }
      id := Some(nm.next);
      nm := CreateCheckpoint(nm);
    }

    method CheckpointDestroy(id: nat)
      modifies this
      ensures nm == Destroy(old(nm), id)
    {
      nm := Destroy(nm, id);
    }

    method Update(wanted: Settings, ok: bool)
      modifies this
      ensures nm == if ok then old(nm).(force := old(nm).force.(profile := wanted)) else old(nm)
    {
      if ok { nm := nm.(force := nm.force.(profile := wanted)); }
    }

    method ActivateConnection(ok: bool)
      modifies this
      ensures nm == if ok then old(nm).(force := old(nm).force.(active := old(nm).force.profile)) else old(nm)
    {
      if ok { nm := nm.(force := nm.force.(active := nm.force.profile)); }
    }
  }

  class Manager {
    const nm: NetworkManager
    var checkpoint: Option<nat>

    constructor (nm: NetworkManager)
      ensures this.nm == nm && checkpoint == None
    {
      this.nm, checkpoint := nm, None;
    }

    ghost function Value(): Net
      reads this, nm
    {
      Net(nm.nm, checkpoint)
    }

    /** Apply up to its lock: the settings to send, from the profile as it is
        now. `reachable` is false when the hostname, the device or its connection
        fails. */
    method Prepare(v6: string -> Option<N.Quad>, intent: C.Network, reachable: bool)
      returns (settings: Option<Settings>)
      ensures settings.Some? <==> reachable && BuildIPv4Settings(v6, intent).Some?
      ensures settings.Some? ==> Wanted(v6, nm.nm.force.profile, intent, settings.value)
    {
      if !reachable { return None; }
      var profile := nm.nm.force.profile;
      var ipv4 := BuildIPv4Settings(v6, intent);
      if ipv4.None? { return None; }
      var stripped := StripLegacyAddressSettings(profile["ipv4" := ipv4.value]);
      return Some(stripped);
    }

    /** Apply under its lock; the flags are NetworkManager's three calls. Other
        requests may have come between Prepare and this. */
    method Commit(settings: Settings, creates: bool, updates: bool, activates: bool) returns (ok: bool)
      modifies this, nm
      ensures var outcome :=
          if !creates then NoCheckpoint
          else if !updates then NoUpdate
          else if !activates then NoActivation
          else Applied;
        Value() == ApplyStep(old(Value()), settings, outcome) && ok == outcome.Applied?
    {
      if checkpoint.Some? {
        nm.CheckpointDestroy(checkpoint.value);
        checkpoint := None;
      }
      var created := nm.CheckpointCreate(creates);
      if created.None? { return false; }
      nm.Update(settings, updates);
      if !updates {
        nm.CheckpointDestroy(created.value);
        return false;
      }
      nm.ActivateConnection(activates);
      if !activates {
        nm.CheckpointDestroy(created.value);
        return false;
      }
      checkpoint := created;
      return true;
    }

    /** Apply with nothing in between. */
    method Apply(
        v6: string -> Option<N.Quad>, intent: C.Network,
        reachable: bool, creates: bool, updates: bool, activates: bool)
      returns (ok: bool, ghost wanted: Settings)
      modifies this, nm
      ensures var outcome :=
          if !reachable || BuildIPv4Settings(v6, intent).None? then Early
          else if !creates then NoCheckpoint
          else if !updates then NoUpdate
          else if !activates then NoActivation
          else Applied;
        && Value() == ApplyStep(old(Value()), wanted, outcome)
        && ok == outcome.Applied?
        && (!outcome.Early? ==> Wanted(v6, old(nm.nm).force.profile, intent, wanted))
    {
      var settings := Prepare(v6, intent, reachable);
      wanted := settings.GetOr(map[]);
      if settings.None? { return false, wanted; }
      ok := Commit(settings.value, creates, updates, activates);
    }

    method Confirm()
      modifies this, nm
      ensures Value() == Disarmed(old(Value()))
    {
      if checkpoint.None? { return; }
      nm.CheckpointDestroy(checkpoint.value);
      checkpoint := None;
    }
  }
}
