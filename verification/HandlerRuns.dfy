/** What holds over every interleaving of the handlers. Most results are about
    the log of a run: positions in it are moments of the run. */
module HandlerRuns {
  import opened Basics
  import opened Auth
  import S = Server
  import A = ServerAnswers
  import opened Handlers
  import C = Configs

  // ---------- What is served ----------

  /** Served is the last configuration stored, or the first if there is none. */
  lemma {:induction false} ServedIs(log: seq<Event>, first: C.Config)
    ensures (forall k :: 0 <= k < |log| ==> !log[k].Stored?) ==> Served(log, first) == first
    ensures forall k :: 0 <= k < |log| && log[k].Stored? && (forall m :: k < m < |log| ==> !log[m].Stored?)
              ==> Served(log, first) == log[k].next
  {
    if log == [] {
    } else if !Last(log).Stored? {
      ServedIs(Init(log), first);
      assert forall k :: 0 <= k < |log| - 1 ==> Init(log)[k] == log[k];
    }
  }

  lemma {:induction false} DocumentIs(log: seq<Event>, first: C.Config)
    ensures (forall k :: 0 <= k < |log| ==> !log[k].Saved?) ==> Document(log, first) == first
    ensures forall k :: 0 <= k < |log| && log[k].Saved? && (forall m :: k < m < |log| ==> !log[m].Saved?)
              ==> Document(log, first) == log[k].next
  {
    if log == [] {
    } else if !Last(log).Saved? {
      DocumentIs(Init(log), first);
      assert forall k :: 0 <= k < |log| - 1 ==> Init(log)[k] == log[k];
    }
  }

  /** If anything was stored, there is a last one; the same for saves. */
  lemma {:induction false} LastStore(log: seq<Event>) returns (k: int)
    ensures -1 <= k < |log| && (k >= 0 ==> log[k].Stored?)
    ensures forall m :: k < m < |log| ==> !log[m].Stored?
  {
    if log == [] {
      k := -1;
    } else if Last(log).Stored? {
      k := |log| - 1;
    } else {
      k := LastStore(Init(log));
    }
  }

  lemma {:induction false} LastSave(log: seq<Event>) returns (k: int)
    ensures -1 <= k < |log| && (k >= 0 ==> log[k].Saved?)
    ensures forall m :: k < m < |log| ==> !log[m].Saved?
  {
    if log == [] {
      k := -1;
    } else if Last(log).Saved? {
      k := |log| - 1;
    } else {
      k := LastSave(Init(log));
    }
  }

  lemma ServedNext(log: seq<Event>, first: C.Config, n: nat)
    requires n < |log|
    ensures Served(log[..n + 1], first) == if log[n].Stored? then log[n].next else Served(log[..n], first)
  {
    assert Init(log[..n + 1]) == log[..n];
  }

  /** A stored configuration was proposed by its request, which loaded it after
      what was served at that time, and by then had not loaded before. */
  lemma StoredWasLoaded(env: S.Env, first: C.Config, log: seq<Event>, k: nat) returns (j: nat)
    requires LogOk(env, first, log) && k < |log| && (log[k].Stored? || log[k].Saved?)
    ensures j < k && log[j].Loaded? && log[j].id == log[k].id && log[j].route == log[k].route
    ensures S.Proposal(env, log[j].cfg, log[j].route).0 == Some(log[k].next)
    ensures log[j].cfg == Served(log[..j], first)
    ensures forall i :: 0 <= i < |log| && log[i].Loaded? && log[i].id == log[k].id ==> i == j
    ensures C.ValidConfig(env.isIP, log[k].next)
    ensures log[k].Stored? ==> exists i :: j < i < k && log[i] == Saved(log[k].id, log[k].route, log[k].next)
  {
    hide Served, S.Proposal, C.ValidConfig, GateWasOpen;
    assert EventOk(env, first, log[..k], log[k]);
    var s := k;
    if log[k].Stored? {
      s :| 0 <= s < k && log[..k][s] == Saved(log[k].id, log[k].route, log[k].next);
      assert log[s] == Saved(log[k].id, log[k].route, log[k].next);
    }
    assert EventOk(env, first, log[..s], log[s]);
    j :| 0 <= j < |log[..s]| && log[..s][j].Loaded? && log[..s][j].id == log[s].id && log[..s][j].route == log[s].route
      && S.Proposal(env, log[..s][j].cfg, log[s].route).0 == Some(log[s].next);
    assert log[j] == log[..s][j];
    assert EventOk(env, first, log[..j], log[j]);
    forall i | 0 <= i < |log| && log[i].Loaded? && log[i].id == log[k].id
      ensures i == j
    {
      SameLoad(env, first, log, i, j);
    }
  }

  lemma SameLoad(env: S.Env, first: C.Config, log: seq<Event>, i: nat, j: nat)
    requires LogOk(env, first, log) && i < |log| && j < |log|
    requires log[i].Loaded? && log[j].Loaded? && log[i].id == log[j].id
    ensures i == j
  {
    hide Served, GateWasOpen;
    assert EventOk(env, first, log[..j], log[j]) && EventOk(env, first, log[..i], log[i]);
  }

  lemma SameSave(env: S.Env, first: C.Config, log: seq<Event>, i: nat, j: nat)
    requires LogOk(env, first, log) && i < |log| && j < |log|
    requires log[i].Saved? && log[j].Saved? && log[i].id == log[j].id
    ensures i == j
  {
    hide Proposed, C.ValidConfig;
    assert EventOk(env, first, log[..j], log[j]) && EventOk(env, first, log[..i], log[i]);
  }

  // ---------- The must-change gate ----------

  /** A successful password change against `seed`: the right current password,
      and a new one of at least eight bytes. */
  predicate ProperChange(env: S.Env, seed: C.Config, e: Event) {
    && e.Stored? && e.route.PutPassword? && e.route.body.Some? && e.route.hash.Some?
    && A.RightPassword(env, seed, seed.auth.username, e.route.body.value.0)
    && |e.route.body.value.1| >= 8
    && e.next == C.Config(
         seed.version, C.Auth(seed.auth.username, e.route.hash.value, false), seed.listen, seed.chip,
         seed.relays, seed.network)
  }

  /** The body of a handler behind the gate. */
  predicate Gated(e: Event) {
    e.Loaded? && !e.route.PutPassword?
  }

  ghost predicate ChangedBefore(env: S.Env, seed: C.Config, log: seq<Event>, i: nat) {
    exists j :: 0 <= j < i && j < |log| && ProperChange(env, seed, log[j])
  }

  lemma ProposalClears(env: S.Env, cfg: C.Config, route: S.Route)
    requires S.Proposal(env, cfg, route).0.Some?
    ensures route.PutPassword? || !cfg.auth.mustChange ==> !S.Proposal(env, cfg, route).0.value.auth.mustChange
    ensures route.PutPassword? ==>
      forall id :: ProperChange(env, cfg, Stored(id, route, S.Proposal(env, cfg, route).0.value))
    ensures !route.PutPassword? ==> S.Proposal(env, cfg, route).0.value.auth == cfg.auth
  {
  }

  /** Until a proper change is stored, nothing is stored and no gated handler
      runs. */
  lemma {:induction false} ClosedUntilChange(env: S.Env, seed: C.Config, log: seq<Event>, n: nat)
    requires LogOk(env, seed, log) && seed.auth.mustChange && n <= |log|
    ensures ChangedBefore(env, seed, log, n) || forall k :: 0 <= k < n ==> !log[k].Stored? && !Gated(log[k])
  {
    hide S.Proposal, ProperChange, Served, C.ValidConfig, DidEnter, DidLoad;
    if n == 0 {
    } else {
      ClosedUntilChange(env, seed, log, n - 1);
      if ChangedBefore(env, seed, log, n - 1) {
        assert ChangedBefore(env, seed, log, n);
      } else if log[n - 1].Stored? {
        var j := StoredWasLoaded(env, seed, log, n - 1);
        ServedIs(log[..j], seed);
        assert !Gated(log[j]);
        ProposalClears(env, log[j].cfg, log[j].route);
        assert ProperChange(env, seed, log[n - 1]);
      } else if Gated(log[n - 1]) {
        assert EventOk(env, seed, log[..n - 1], log[n - 1]);
        var m :| 0 <= m <= n - 1 && !Served(log[..n - 1][..m], seed).auth.mustChange;
        ServedIs(log[..n - 1][..m], seed);
      }
    }
  }

  lemma {:induction false} StaysCleared(log: seq<Event>, first: C.Config, n: nat, m: nat)
    requires n <= m <= |log| && !Served(log[..n], first).auth.mustChange
    requires forall k :: n <= k < m && log[k].Stored? ==> !log[k].next.auth.mustChange
    ensures !Served(log[..m], first).auth.mustChange
    decreases m
  {
    if n == m {
    } else {
      StaysCleared(log, first, n, m - 1);
      ServedNext(log, first, m - 1);
    }
  }

  /** The flag is never saved or stored again. */
  lemma {:induction false} FlagIsNeverBack(env: S.Env, first: C.Config, log: seq<Event>, k: nat)
    requires LogOk(env, first, log) && k < |log| && (log[k].Saved? || log[k].Stored?)
    ensures !log[k].next.auth.mustChange
    decreases k
  {
    hide S.Proposal, Served, C.ValidConfig, DidLoad;
    var j := StoredWasLoaded(env, first, log, k);
    ProposalClears(env, log[j].cfg, log[j].route);
    if Gated(log[j]) {
      assert EventOk(env, first, log[..j], log[j]);
      var n :| 0 <= n <= j && !Served(log[..j][..n], first).auth.mustChange;
      assert log[..j][..n] == log[..n];
      forall i | n <= i < j && log[i].Stored?
        ensures !log[i].next.auth.mustChange
      {
        FlagIsNeverBack(env, first, log, i);
      }
      StaysCleared(log, first, n, j);
    }
  }

  /** Must-change safety: in every interleaving, starting from a document whose
      password must be changed, no handler behind the gate runs before a
      password change has been stored that gave the right current password and
      a new one of at least eight bytes; and no document that is saved or served
      afterwards has the flag again. */
  lemma NothingBeforePasswordChange(env: S.Env, seed: C.Config, acts: seq<Action>)
    requires seed.auth.mustChange
    ensures var w := Run(env, Started(seed), acts);
      && (forall i :: 0 <= i < |w.log| && Gated(w.log[i]) ==> ChangedBefore(env, seed, w.log, i))
      && (forall i :: 0 <= i < |w.log| && (w.log[i].Saved? || w.log[i].Stored?) ==> !w.log[i].next.auth.mustChange)
      && (!w.cfg.auth.mustChange <==> ChangedBefore(env, seed, w.log, |w.log|))
  {
    hide Run, ProperChange, Gated;
    RunOk(env, seed, acts);
    var w := Run(env, Started(seed), acts);
    var log := w.log;
    forall i | 0 <= i < |log|
      ensures Gated(log[i]) ==> ChangedBefore(env, seed, log, i)
      ensures log[i].Saved? || log[i].Stored? ==> !log[i].next.auth.mustChange
    {
      ClosedUntilChange(env, seed, log, i + 1);
      if Gated(log[i]) && ChangedBefore(env, seed, log, i + 1) { StoresNothing(env, seed, log[i]); }
      if log[i].Saved? || log[i].Stored? { FlagIsNeverBack(env, seed, log, i); }
    }
    ClosedUntilChange(env, seed, log, |log|);
    ServedIs(log, seed);
    var k := LastStore(log);
    if ChangedBefore(env, seed, log, |log|) {
      var j :| 0 <= j < |log| && ProperChange(env, seed, log[j]);
      ChangeIsStore(env, seed, log[j]);
    }
  }

  lemma StoresNothing(env: S.Env, seed: C.Config, e: Event)
    ensures Gated(e) ==> !ProperChange(env, seed, e)
  {
  }

  lemma ChangeIsStore(env: S.Env, seed: C.Config, e: Event)
    ensures ProperChange(env, seed, e) ==> e.Stored?
  {
  }

  // ---------- The served configuration is always valid ----------

  /** In every interleaving, whatever saves fail, both the served configuration
      and the document on disk are valid. */
  lemma ServedConfigIsValid(env: S.Env, cfg: C.Config, acts: seq<Action>)
    requires C.ValidConfig(env.isIP, cfg)
    ensures var w := Run(env, Started(cfg), acts);
      C.ValidConfig(env.isIP, w.cfg) && C.ValidConfig(env.isIP, w.doc)
  {
    hide Run, C.ValidConfig;
    RunOk(env, cfg, acts);
    var log := Run(env, Started(cfg), acts).log;
    ServedIs(log, cfg);
    DocumentIs(log, cfg);
    var k := LastStore(log);
    var m := LastSave(log);
    if k >= 0 { var _ := StoredWasLoaded(env, cfg, log, k); }
    if m >= 0 { var _ := StoredWasLoaded(env, cfg, log, m); }
  }

  // ---------- Memory and disk ----------

  /** No handler is between its Save and its Store. */
  ghost predicate Quiet(w: World) {
    forall id :: id in w.threads ==> !w.threads[id].ToStore?
  }

  predicate LastSaveAt(log: seq<Event>, k: int) {
    0 <= k < |log| && log[k].Saved? && forall m :: k < m < |log| ==> !log[m].Saved?
  }

  predicate LastStoreAt(log: seq<Event>, k: int) {
    0 <= k < |log| && log[k].Stored? && forall m :: k < m < |log| ==> !log[m].Stored?
  }

  /** The two requests that saved and stored last crossed: the last to store had
      saved first, the last to save had stored first, and their documents differ.
      `a` and `b` are the saves of the one and the other, `c` and `d` the stores. */
  predicate CrossedAt(log: seq<Event>, a: int, b: int, c: int, d: int) {
    && 0 <= a < b < c < d < |log|
    && LastSaveAt(log, b) && LastStoreAt(log, d)
    && log[a].Saved? && log[c].Stored?
    && log[a].id == log[d].id && log[b].id == log[c].id && log[a].id != log[b].id
    && log[d].next != log[b].next
  }

  ghost predicate Crossed(log: seq<Event>) {
    exists a, b, c, d :: CrossedAt(log, a, b, c, d)
  }

  /** Memory and disk, exactly: when no handler is between Save and Store they
      differ if and only if the last two writers crossed, one saving first and
      storing last. */
  lemma MemoryIsDiskIff(env: S.Env, cfg: C.Config, acts: seq<Action>)
    requires Quiet(Run(env, Started(cfg), acts))
    ensures var w := Run(env, Started(cfg), acts);
      w.cfg != w.doc <==> Crossed(w.log)
  {
    hide Run;
    RunOk(env, cfg, acts);
    var w := Run(env, Started(cfg), acts);
    ServedIs(w.log, cfg);
    DocumentIs(w.log, cfg);
    if w.cfg != w.doc { Crosses(env, cfg, w); }
    hide LogOk, ThreadOk;
  }

  /** Each side's last write, and that each request that saved has stored. */
  lemma Crosses(env: S.Env, first: C.Config, w: World)
    requires WorldOk(env, first, w) && Quiet(w) && w.cfg != w.doc
    ensures Crossed(w.log)
  {
    hide ThreadOk, LogOk, Served, Document, DidStore;
    var log := w.log;
    ServedIs(log, first);
    DocumentIs(log, first);
    var d := LastStore(log);
    var b := LastSave(log);
    SavedMeansStored(env, first, w);
    assert d >= 0;
    var a := ItsSave(env, first, log, d);
    assert b >= a;
    var c := ItsStore(env, first, w, b);
    if log[a].id == log[b].id {
      SameSave(env, first, log, a, b);
      assert false;
    }
    assert CrossedAt(log, a, b, c, d);
  }

  lemma SavedMeansStored(env: S.Env, first: C.Config, w: World)
    requires WorldOk(env, first, w) && Quiet(w)
    ensures (forall k :: 0 <= k < |w.log| ==> !w.log[k].Stored?) ==> forall k :: 0 <= k < |w.log| ==> !w.log[k].Saved?
  {
    hide ThreadOk, LogOk;
    forall k | 0 <= k < |w.log| && w.log[k].Saved?
      ensures DidStore(w.log, w.log[k].id)
    {
      assert w.log[k] in w.log;
    }
  }

  lemma ItsSave(env: S.Env, first: C.Config, log: seq<Event>, d: nat) returns (a: nat)
    requires LogOk(env, first, log) && d < |log| && log[d].Stored?
    ensures a < d && log[a] == Saved(log[d].id, log[d].route, log[d].next)
  {
    var j := StoredWasLoaded(env, first, log, d);
    a :| j < a < d && log[a] == Saved(log[d].id, log[d].route, log[d].next);
  }

  lemma ItsStore(env: S.Env, first: C.Config, w: World, b: nat) returns (c: nat)
    requires WorldOk(env, first, w) && Quiet(w) && b < |w.log| && w.log[b].Saved?
    ensures b < c < |w.log| && w.log[c].Stored? && w.log[c].id == w.log[b].id
  {
    hide ThreadOk, LogOk;
    assert w.log[b] in w.log;
    c :| 0 <= c < |w.log| && w.log[c].Stored? && w.log[c].id == w.log[b].id;
    var a := ItsSave(env, first, w.log, c);
    SameSave(env, first, w.log, a, b);
  }

  /** A handler is between its Save and its Store. */
  predicate Saving(w: World, id: nat) {
    id in w.threads && w.threads[id].ToStore?
  }

  ghost predicate OneAtATime(w: World) {
    forall i, j :: Saving(w, i) && Saving(w, j) ==> i == j
  }

  ghost predicate AlwaysOneAtATime(env: S.Env, w: World, acts: seq<Action>) {
    OneAtATime(Run(env, w, acts)) && (acts != [] ==> AlwaysOneAtATime(env, w, Init(acts)))
  }

  /** In particular, if no two handlers are ever between Save and Store together,
      memory and disk agree whenever none is. */
  lemma {:induction false} MemoryIsDiskWhenSerial(env: S.Env, cfg: C.Config, acts: seq<Action>)
    requires AlwaysOneAtATime(env, Started(cfg), acts)
    ensures var w := Run(env, Started(cfg), acts);
      && ((forall id :: !Saving(w, id)) ==> w.cfg == w.doc)
      && (forall id :: Saving(w, id) ==> w.doc == w.threads[id].next)
  {
    hide Step;
    if acts == [] {
    } else {
      MemoryIsDiskWhenSerial(env, cfg, Init(acts));
      SerialStep(env, Run(env, Started(cfg), Init(acts)), Last(acts));
    }
  }

  lemma SerialStep(env: S.Env, w: World, a: Action)
    requires OneAtATime(w) && OneAtATime(Step(env, w, a))
    requires (forall id :: !Saving(w, id)) ==> w.cfg == w.doc
    requires forall id :: Saving(w, id) ==> w.doc == w.threads[id].next
    ensures var v := Step(env, w, a);
      && ((forall id :: !Saving(v, id)) ==> v.cfg == v.doc)
      && (forall id :: Saving(v, id) ==> v.doc == v.threads[id].next)
  {
    hide S.Proposal, C.ValidConfig, S.Genuine, CacheAfter, Logs;
    var v := Step(env, w, a);
    if a.Tick? {
      assert forall id :: Saving(v, id) <==> Saving(w, id);
    } else {
      assert forall id :: id != a.id ==> (Saving(v, id) <==> Saving(w, id));
      assert forall id :: id != a.id && Saving(w, id) ==> v.threads[id] == w.threads[id];
      if a.Advance? && Saving(w, a.id) {
        assert v.cfg == v.doc && !Saving(v, a.id);
      } else if Saving(v, a.id) {
        if a.Begin? { assert Saving(w, a.id); }
        assert forall id :: Saving(v, id) ==> id == a.id;
      } else {
        assert v.cfg == w.cfg && v.doc == w.doc;
        assert forall id :: Saving(v, id) <==> Saving(w, id) || (id == a.id && Saving(v, id));
      }
    }
  }

  // ---------- How long a new password lasts ----------

  /** From just after position `p` up to `q` the account is the one stored at `p`. */
  ghost predicate KeptAccount(log: seq<Event>, first: C.Config, p: nat, q: nat)
    requires p < q <= |log| && log[p].Stored?
  {
    forall m :: p < m <= q ==> Served(log[..m], first).auth == log[p].next.auth
  }

  /** A request loads at `j`, before `p`, and stores at `k`, after `p`. */
  predicate Straddles(log: seq<Event>, j: nat, p: nat, k: nat) {
    j < p < k < |log| && log[j].Loaded? && log[k].Stored? && log[j].id == log[k].id
  }

  /** The hash that a password change stores at `p` stays served until the next
      password change if and only if no request that had loaded another account
      before `p` stores after it. */
  lemma PasswordLastsIff(env: S.Env, first: C.Config, acts: seq<Action>, p: nat, q: nat)
    requires var log := Run(env, Started(first), acts).log;
      && p < q <= |log| && log[p].Stored? && log[p].route.PutPassword?
      && forall m :: p < m < q && log[m].Stored? ==> !log[m].route.PutPassword?
    ensures var log := Run(env, Started(first), acts).log;
      KeptAccount(log, first, p, q) <==>
        !exists j: nat, k: nat :: Straddles(log, j, p, k) && k < q && log[j].cfg.auth != log[p].next.auth
  {
    hide Run, KeptAccount;
    RunOk(env, first, acts);
    KeptIff(env, first, Run(env, Started(first), acts).log, p, q);
  }

  lemma KeptIff(env: S.Env, first: C.Config, log: seq<Event>, p: nat, q: nat)
    requires LogOk(env, first, log)
    requires p < q <= |log| && log[p].Stored? && log[p].route.PutPassword?
    requires forall m :: p < m < q && log[m].Stored? ==> !log[m].route.PutPassword?
    ensures KeptAccount(log, first, p, q) <==>
      !exists j: nat, k: nat :: Straddles(log, j, p, k) && k < q && log[j].cfg.auth != log[p].next.auth
  {
    hide LogOk, Served;
    if !exists j: nat, k: nat :: Straddles(log, j, p, k) && k < q && log[j].cfg.auth != log[p].next.auth {
      forall m | p < m <= q
        ensures Served(log[..m], first).auth == log[p].next.auth
      {
        StaysKept(env, first, log, p, q, m);
      }
    } else {
      var j: nat, k: nat :| Straddles(log, j, p, k) && k < q && log[j].cfg.auth != log[p].next.auth;
      var i := StoredWasLoaded(env, first, log, k);
      assert i == j;
      hide S.Proposal;
      ProposalClears(env, log[j].cfg, log[j].route);
      ServedNext(log, first, k);
    }
  }

  lemma {:induction false} StaysKept(env: S.Env, first: C.Config, log: seq<Event>, p: nat, q: nat, m: nat)
    requires LogOk(env, first, log)
    requires p < m <= q <= |log| && log[p].Stored?
    requires forall k :: p < k < q && log[k].Stored? ==> !log[k].route.PutPassword?
    requires !exists j: nat, k: nat :: Straddles(log, j, p, k) && k < q && log[j].cfg.auth != log[p].next.auth
    ensures Served(log[..m], first).auth == log[p].next.auth
    decreases m
  {
    hide LogOk, Served, S.Proposal;
    ServedNext(log, first, m - 1);
    if m == p + 1 {
    } else if !log[m - 1].Stored? {
      StaysKept(env, first, log, p, q, m - 1);
    } else {
      var j := StoredWasLoaded(env, first, log, m - 1);
      ProposalClears(env, log[j].cfg, log[j].route);
      if j < p {
        assert Straddles(log, j, p, m - 1);
      } else {
        StaysKept(env, first, log, p, q, j);
      }
    }
  }

  /** bcrypt salts: if no configuration loaded before the change had its new
      account, the condition is about the order of steps alone. */
  lemma SaltedPasswordLastsIff(env: S.Env, first: C.Config, acts: seq<Action>, p: nat, q: nat)
    requires var log := Run(env, Started(first), acts).log;
      && p < q <= |log| && log[p].Stored? && log[p].route.PutPassword?
      && (forall m :: p < m < q && log[m].Stored? ==> !log[m].route.PutPassword?)
      && (forall j :: 0 <= j < p && log[j].Loaded? ==> log[j].cfg.auth != log[p].next.auth)
    ensures var log := Run(env, Started(first), acts).log;
      KeptAccount(log, first, p, q) <==> !exists j: nat, k: nat :: Straddles(log, j, p, k) && k < q
  {
    hide Run, KeptAccount;
    PasswordLastsIff(env, first, acts, p, q);
    var log := Run(env, Started(first), acts).log;
    if j: nat, k: nat :| Straddles(log, j, p, k) && k < q {
      assert log[j].cfg.auth != log[p].next.auth;
    }
  }

  // ---------- Which headers are let in ----------

  /** The header was remembered at position `k`, its entry still lives, and
      nothing has been flushed since. */
  predicate RemembersAt(log: seq<Event>, header: string, now: int, k: int) {
    && 0 <= k < |log| && log[k].Remembered? && log[k].header == header && now <= log[k].at + 60_000_000_000
    && forall m :: k < m < |log| ==> !log[m].Flushed?
  }

  ghost predicate Remembers(log: seq<Event>, header: string, now: int) {
    exists k :: RemembersAt(log, header, now, k)
  }

  /** The cache is the log's memory, now and at any later time. */
  ghost predicate CacheOk(env: S.Env, w: World) {
    && (forall h, t :: w.now <= t ==> (Hit(w.cache, env.sha(h), t) <==> Remembers(w.log, h, t)))
    && (forall e :: e in w.log && e.Remembered? ==> e.at <= w.now)
  }

  lemma RemembersGrows(log: seq<Event>, e: Event, h: string, t: int)
    ensures Remembers(log + [e], h, t) <==>
      if e.Flushed? then false
      else Remembers(log, h, t) || (e.Remembered? && e.header == h && t <= e.at + S.TTL)
  {
    var l := log + [e];
    assert forall k :: 0 <= k < |log| ==> l[k] == log[k];
    assert l[|log|] == e;
    if e.Flushed? {
    } else {
      forall k | 0 <= k < |log|
        ensures RemembersAt(l, h, t, k) <==> RemembersAt(log, h, t, k)
      {
      }
      if e.Remembered? && e.header == h && t <= e.at + S.TTL { assert RemembersAt(l, h, t, |log|); }
    }
  }

  lemma CacheStep(env: S.Env, w: World, a: Action)
    requires S.Injective(env) && CacheOk(env, w)
    ensures CacheOk(env, Step(env, w, a))
  {
    hide Remembers, S.Genuine, Accepted;
    if a.Advance? && a.id in w.threads {
      CacheAdvance(env, w, a.id, a.saved);
    }
    hide StepThread;
  }

  lemma CacheAdvance(env: S.Env, w: World, id: nat, saved: bool)
    requires S.Injective(env) && CacheOk(env, w) && id in w.threads
    ensures CacheOk(env, StepThread(env, w, id, saved))
  {
    hide Remembers, S.Genuine, Accepted, Next;
    var v := StepThread(env, w, id, saved);
    var e := Logs(env, w, id, saved);
    forall h, t | w.now <= t
      ensures Hit(v.cache, env.sha(h), t) <==> Remembers(v.log, h, t)
    {
      if e.Some? { RemembersGrows(w.log, e.value, h, t); }
      assert Hit(w.cache, env.sha(h), t) <==> Remembers(w.log, h, t);
      if w.threads[id].AtRemember? && w.threads[id].header == h && Remembers(w.log, h, t) {
        NotLater(w.log, h, t, w.now);
      }
    }
  }

  lemma NotLater(log: seq<Event>, h: string, t: int, now: int)
    requires Remembers(log, h, t) && forall e :: e in log && e.Remembered? ==> e.at <= now
    ensures t <= now + S.TTL
  {
    var k :| RemembersAt(log, h, t, k);
    assert log[k] in log;
  }

  lemma {:induction false} CacheRun(env: S.Env, first: C.Config, acts: seq<Action>)
    requires S.Injective(env)
    ensures CacheOk(env, Run(env, Started(first), acts))
  {
    hide Step, CacheOk;
    if acts == [] {
      EmptyCache(env, first);
    } else {
      CacheRun(env, first, Init(acts));
      CacheStep(env, Run(env, Started(first), Init(acts)), Last(acts));
    }
  }

  lemma EmptyCache(env: S.Env, first: C.Config)
    ensures CacheOk(env, Started(first))
  {
  }

  /** The request that verified at `j` remembered at `k`. */
  predicate VerifiedThenRemembered(log: seq<Event>, header: string, j: int, k: int) {
    0 <= j < k < |log| && log[j].Verified? && log[k].Remembered?
    && log[j].id == log[k].id && log[j].header == header && log[k].header == header
  }

  /** A header that is genuine for nothing stored from position `p` on is let in
      all the same if and only if some request verified it before `p`, and
      remembered it, before or after `p`, less than a minute ago and after the
      last flush. Remembered before `p`, that is the window between a password
      change's Store and its flush; after `p`, it is a late remembering. */
  lemma StaleHeaderAdmittedIff(env: S.Env, first: C.Config, acts: seq<Action>, header: string, p: nat)
    requires S.Injective(env)
    requires var log := Run(env, Started(first), acts).log;
      && p < |log| && log[p].Stored?
      && forall k :: p <= k < |log| && log[k].Stored? ==> !S.Genuine(env, log[k].next, header)
    ensures var w := Run(env, Started(first), acts);
      Admits(env, w, header) <==>
        exists j, k :: VerifiedThenRemembered(w.log, header, j, k) && j < p && RemembersAt(w.log, header, w.now, k)
  {
    hide Run, RemembersAt;
    RunOk(env, first, acts);
    CacheRun(env, first, acts);
    var w := Run(env, Started(first), acts);
    assert Hit(w.cache, env.sha(header), w.now) <==> Remembers(w.log, header, w.now);
    NotGenuineSince(env, first, w.log, header, p, |w.log|);
    assert w.log[..|w.log|] == w.log;
    if k :| RemembersAt(w.log, header, w.now, k) {
      var j := VerifiedEarlier(env, first, w, header, k);
      if j >= p { NotGenuineSince(env, first, w.log, header, p, j); }
      assert VerifiedThenRemembered(w.log, header, j, k);
      VerifiedParses(env, w.log[j].cfg, header);
    }
  }

  lemma VerifiedParses(env: S.Env, cfg: C.Config, header: string)
    ensures S.Genuine(env, cfg, header) ==> env.parse(header).Some?
  {
  }

  lemma NotGenuineSince(env: S.Env, first: C.Config, log: seq<Event>, header: string, p: nat, n: nat)
    requires p < |log| && p <= n <= |log| && log[p].Stored?
    requires forall k :: p <= k < |log| && log[k].Stored? ==> !S.Genuine(env, log[k].next, header)
    ensures p < n ==> !S.Genuine(env, Served(log[..n], first), header)
  {
    hide S.Genuine;
    if p < n {
      var l := log[..n];
      var k := LastStore(l);
      assert l[p].Stored?;
      ServedIs(l, first);
    }
  }

  lemma VerifiedEarlier(env: S.Env, first: C.Config, w: World, header: string, k: int) returns (j: nat)
    requires WorldOk(env, first, w) && RemembersAt(w.log, header, w.now, k)
    ensures VerifiedThenRemembered(w.log, header, j, k)
    ensures w.log[j].cfg == Served(w.log[..j], first) && S.Genuine(env, w.log[j].cfg, header)
  {
    hide ThreadOk, S.Genuine, Served;
    assert EventOk(env, first, w.log[..k], w.log[k]);
    j :| 0 <= j < k && w.log[..k][j].Verified? && w.log[..k][j].id == w.log[k].id && w.log[..k][j].header == header;
    assert w.log[j] == w.log[..k][j];
    assert EventOk(env, first, w.log[..j], w.log[j]);
  }

  // ---------- Who is let in, and what is saved ----------

  /** At `j` the header of request `id` is checked: it has the credentials of the
      configuration that is served then. */
  predicate CheckedAt(env: S.Env, first: C.Config, log: seq<Event>, j: int, id: nat, header: string) {
    && 0 <= j < |log| && log[j].Verified? && log[j].id == id && log[j].header == header
    && log[j].cfg == Served(log[..j], first) && A.Credentials(env, log[j].cfg, header)
  }

  /** At `m` request `id` is let in: it was checked itself, or the cache answers for a
      header that some request was checked with, and remembered less than a minute
      ago and after the last flush. */
  ghost predicate LetInAt(env: S.Env, first: C.Config, log: seq<Event>, m: int, id: nat) {
    && 0 <= m < |log| && log[m].id == id
    && match log[m]
       case Remembered(_, header, _) => exists j :: j < m && CheckedAt(env, first, log, j, id, header)
       case Answered(_, header, at) =>
         exists j, r ::
           j < r && RemembersAt(log[..m], header, at, r) && CheckedAt(env, first, log, j, log[r].id, header)
       case _ => false
  }

  /** The cache has answered only for what the log remembered. */
  ghost predicate AnswersOk(log: seq<Event>) {
    forall m :: 0 <= m < |log| && log[m].Answered? ==> Remembers(log[..m], log[m].header, log[m].at)
  }

  lemma AnswersGrow(log: seq<Event>, e: Event)
    requires AnswersOk(log) && (e.Answered? ==> Remembers(log, e.header, e.at))
    ensures AnswersOk(log + [e])
  {
    hide Remembers;
    assert forall m :: 0 <= m <= |log| ==> (log + [e])[..m] == log[..m];
    assert log[..|log|] == log;
  }

  lemma {:induction false} AllAnswersOk(env: S.Env, first: C.Config, acts: seq<Action>)
    requires S.Injective(env)
    ensures AnswersOk(Run(env, Started(first), acts).log)
  {
    hide AnswersOk, Remembers, S.Genuine, Accepted;
    if acts == [] {
      NoAnswers();
    } else {
      AllAnswersOk(env, first, Init(acts));
      CacheRun(env, first, Init(acts));
      var w, a := Run(env, Started(first), Init(acts)), Last(acts);
      if a.Advance? && a.id in w.threads && Logs(env, w, a.id, a.saved).Some? {
        AnswersGrow(w.log, Logs(env, w, a.id, a.saved).value);
      }
    }
  }

  lemma NoAnswers()
    ensures AnswersOk([])
  {
  }

  lemma WasChecked(env: S.Env, first: C.Config, log: seq<Event>, r: int) returns (j: nat)
    requires LogOk(env, first, log) && 0 <= r < |log| && log[r].Remembered?
    ensures j < r && CheckedAt(env, first, log, j, log[r].id, log[r].header)
  {
    hide S.Genuine, Served;
    assert EventOk(env, first, log[..r], log[r]);
    j :| 0 <= j < r && log[..r][j].Verified? && log[..r][j].id == log[r].id && log[..r][j].header == log[r].header;
    assert log[j] == log[..r][j];
    assert EventOk(env, first, log[..j], log[j]);
    A.GenuineIs(env, log[j].cfg, log[j].header);
  }

  /** In every interleaving no handler runs for a request that was not let in: it had
      the credentials of what was served when it was checked, or the cache answered
      for a header that had them, a minute ago at most. */
  lemma NobodyUnchecked(env: S.Env, first: C.Config, acts: seq<Action>, k: nat)
    requires S.Injective(env)
    requires var log := Run(env, Started(first), acts).log; k < |log| && log[k].Loaded?
    ensures var log := Run(env, Started(first), acts).log;
      exists m :: m < k && LetInAt(env, first, log, m, log[k].id)
  {
    hide Run, Served, GateWasOpen, RemembersAt, CheckedAt;
    RunOk(env, first, acts);
    AllAnswersOk(env, first, acts);
    var log := Run(env, Started(first), acts).log;
    assert EventOk(env, first, log[..k], log[k]);
    var m :| 0 <= m < k && (log[..k][m].Answered? || log[..k][m].Remembered?) && log[..k][m].id == log[k].id;
    assert log[m] == log[..k][m];
    if log[m].Remembered? {
      var j := WasChecked(env, first, log, m);
    } else {
      var r :| RemembersAt(log[..m], log[m].header, log[m].at, r);
      RememberedIs(log, m, r);
      var j := WasChecked(env, first, log, r);
    }
    assert LetInAt(env, first, log, m, log[k].id);
  }

  lemma RememberedIs(log: seq<Event>, m: nat, r: int)
    requires m < |log| && log[m].Answered? && RemembersAt(log[..m], log[m].header, log[m].at, r)
    ensures 0 <= r < m && log[r].Remembered? && log[r].header == log[m].header
  {
    assert log[..m][r] == log[r];
  }

  /** What a route makes of a configuration, field by field. */
  predicate Makes(env: S.Env, c: C.Config, route: S.Route, next: C.Config) {
    match route
    case Plain => false
    case PutRelays(body, _) =>
      body.Some? && next == C.Config(c.version, c.auth, c.listen, c.chip, body.value, c.network)
    case PutNetwork(body, _, _) =>
      body.Some? && next == C.Config(c.version, c.auth, c.listen, c.chip, c.relays, body.value)
    case PutPassword(body, hash, _) =>
      && body.Some? && hash.Some? && |body.value.1| >= 8
      && A.RightPassword(env, c, c.auth.username, body.value.0)
      && next == C.Config(
           c.version, C.Auth(c.auth.username, hash.value, false), c.listen, c.chip, c.relays, c.network)
  }

  lemma ProposalMakes(env: S.Env, c: C.Config, route: S.Route, next: C.Config)
    ensures S.Proposal(env, c, route).0 == Some(next) <==> Makes(env, c, route, next)
  {
  }

  /** In every interleaving what a request saves and stores is what was served when it
      loaded, with what it submitted in place and all else as it was. */
  lemma SavedAsSubmitted(env: S.Env, first: C.Config, acts: seq<Action>, k: nat) returns (j: nat)
    requires var log := Run(env, Started(first), acts).log; k < |log| && (log[k].Saved? || log[k].Stored?)
    ensures var log := Run(env, Started(first), acts).log;
      && j < k && log[j].Loaded? && log[j].id == log[k].id && log[j].route == log[k].route
      && log[j].cfg == Served(log[..j], first)
      && Makes(env, log[j].cfg, log[k].route, log[k].next)
  {
    hide Run, Served, S.Proposal, Makes;
    RunOk(env, first, acts);
    var log := Run(env, Started(first), acts).log;
    j := StoredWasLoaded(env, first, log, k);
    ProposalMakes(env, log[j].cfg, log[j].route, log[k].next);
  }

  // ---------- Runs that lose ----------

  /** Only request `id` has moved, and memory and disk are as before. */
  ghost predicate Moved(w: World, v: World, id: nat, t: Thread) {
    v.threads == w.threads[id := t] && v.cfg == w.cfg && v.doc == w.doc && v.now == w.now && w.log <= v.log
  }

  lemma Then(env: S.Env, w: World, acts: seq<Action>, a: Action)
    ensures Run(env, w, acts + [a]) == Step(env, Run(env, w, acts), a)
  {
    assert Init(acts + [a]) == acts;
  }

  lemma {:induction false} RunJoin(env: S.Env, w: World, xs: seq<Action>, ys: seq<Action>)
    ensures Run(env, w, xs + ys) == Run(env, Run(env, w, xs), ys)
    decreases |ys|
  {
    hide Step;
    if ys == [] {
      assert xs + ys == xs;
    } else {
      assert Init(xs + ys) == xs + Init(ys);
      RunJoin(env, w, xs, Init(ys));
    }
  }

  /** A new request with a genuine header, let in. */
  lemma LetIn(env: S.Env, w: World, id: nat, header: string, route: S.Route) returns (acts: seq<Action>)
    requires id !in w.threads && S.Genuine(env, w.cfg, header)
    ensures Moved(w, Run(env, w, acts), id, Inside(route))
  {
    hide S.Genuine, Accepted;
    VerifiedParses(env, w.cfg, header);
    var go := Advance(id, true);
    acts := [Begin(id, header, route), go];
    Then(env, w, [], acts[0]);
    Then(env, w, [acts[0]], go);
    if !Hit(w.cache, env.sha(header), w.now) {
      Then(env, w, acts, go);
      Then(env, w, acts + [go], go);
      acts := acts + [go] + [go];
    }
  }

  /** And past the gate, with its configuration loaded. */
  lemma Enters(env: S.Env, w: World, id: nat, header: string, route: S.Route, next: C.Config)
    returns (acts: seq<Action>)
    requires id !in w.threads && S.Genuine(env, w.cfg, header) && Accepted(env, w.cfg, route) == Some(next)
    requires route.PutPassword? || !w.cfg.auth.mustChange
    ensures Moved(w, Run(env, w, acts), id, ToSave(route, next))
  {
    hide S.Genuine, Accepted, Run;
    var go := Advance(id, true);
    acts := LetIn(env, w, id, header, route);
    if !route.PutPassword? {
      Then(env, w, acts, go);
      acts := acts + [go];
    }
    Then(env, w, acts, go);
    acts := acts + [go];
  }

  lemma SaveStep(env: S.Env, w: World, id: nat)
    requires id in w.threads && w.threads[id].ToSave?
    ensures var v := Step(env, w, Advance(id, true));
      var t := w.threads[id];
      v == w.(
        doc := t.next, threads := w.threads[id := ToStore(t.route, t.next)],
        log := w.log + [Saved(id, t.route, t.next)])
  {
  }

  lemma StoreStep(env: S.Env, w: World, id: nat)
    requires id in w.threads && w.threads[id].ToStore?
    ensures var v := Step(env, w, Advance(id, true));
      var t := w.threads[id];
      && v == w.(cfg := t.next, log := w.log + [Stored(id, t.route, t.next)],
                 threads := w.threads[id := if t.route.PutPassword? then ToFlush(t.route) else Ended])
  {
  }

  lemma FlushStep(env: S.Env, w: World, id: nat)
    requires id in w.threads && w.threads[id].ToFlush?
    ensures Step(env, w, Advance(id, true))
         == w.(cache := map[], threads := w.threads[id := Ended], log := w.log + [Flushed(id)])
  {
  }

  /** Two requests, both past their Load. */
  lemma BothLoad(
    env: S.Env, cfg: C.Config, header: string, one: S.Route, two: S.Route, a: C.Config, b: C.Config)
    returns (acts: seq<Action>)
    requires S.Genuine(env, cfg, header) && !cfg.auth.mustChange
    requires Accepted(env, cfg, one) == Some(a) && Accepted(env, cfg, two) == Some(b)
    ensures var w := Run(env, Started(cfg), acts);
      w.cfg == cfg && w.doc == cfg && w.threads == map[1 := ToSave(one, a), 2 := ToSave(two, b)]
  {
    hide S.Genuine, Accepted, Run;
    var xs := Enters(env, Started(cfg), 1, header, one, a);
    var ys := Enters(env, Run(env, Started(cfg), xs), 2, header, two, b);
    RunJoin(env, Started(cfg), xs, ys);
    acts := xs + ys;
  }

  /** Memory and disk can come apart for good: two PUTs that save in one order
      and store in the other leave the first document served and the second on
      disk, with nobody left to repair it. Any two different changes do. */
  lemma MemoryCanLeaveDisk(
    env: S.Env, cfg: C.Config, header: string, one: S.Route, two: S.Route, a: C.Config, b: C.Config)
    requires S.Genuine(env, cfg, header) && !cfg.auth.mustChange && !one.PutPassword? && !two.PutPassword?
    requires Accepted(env, cfg, one) == Some(a) && Accepted(env, cfg, two) == Some(b) && a != b
    ensures exists acts ::
              && var w := Run(env, Started(cfg), acts);
              && w.threads == map[1 := Ended, 2 := Ended] && w.cfg == a && w.doc == b
  {
    hide S.Genuine, Accepted, Run, Step;
    var acts := BothLoad(env, cfg, header, one, two, a, b);
    var w := Run(env, Started(cfg), acts);
    var ys := [Advance(1, true), Advance(2, true), Advance(2, true), Advance(1, true)];
    RunFour(env, w, ys);
    SaveStep(env, w, 1);
    var w1 := Step(env, w, ys[0]);
    SaveStep(env, w1, 2);
    var w2 := Step(env, w1, ys[1]);
    StoreStep(env, w2, 2);
    StoreStep(env, Step(env, w2, ys[2]), 1);
    RunJoin(env, Started(cfg), acts, ys);
    assert Run(env, Started(cfg), acts + ys).cfg == a;
  }

  lemma RunFour(env: S.Env, w: World, ys: seq<Action>)
    requires |ys| == 4
    ensures Run(env, w, ys) == Step(env, Step(env, Step(env, Step(env, w, ys[0]), ys[1]), ys[2]), ys[3])
  {
    Then(env, w, [], ys[0]);
    Then(env, w, [ys[0]], ys[1]);
    Then(env, w, [ys[0], ys[1]], ys[2]);
    Then(env, w, [ys[0], ys[1], ys[2]], ys[3]);
    assert [] + [ys[0]] == [ys[0]] && [ys[0]] + [ys[1]] == [ys[0], ys[1]];
    assert [ys[0], ys[1]] + [ys[2]] == [ys[0], ys[1], ys[2]] && [ys[0], ys[1], ys[2]] + [ys[3]] == ys;
    assert Run(env, w, []) == w;
    hide Step, Run;
  }

  /** A password change can be lost: a PUT that loaded before it and saves and
      stores after it puts the old password back, in memory and on disk, although
      the change has been answered with success and no header is remembered late.
      Any PUT and any change do. */
  lemma PasswordCanBeLost(
    env: S.Env, cfg: C.Config, header: string, put: S.Route, change: S.Route, a: C.Config, b: C.Config)
    requires S.Genuine(env, cfg, header) && !cfg.auth.mustChange && !put.PutPassword? && change.PutPassword?
    requires Accepted(env, cfg, put) == Some(a) && Accepted(env, cfg, change) == Some(b)
    ensures exists acts ::
              && var w := Run(env, Started(cfg), acts);
              && w.threads == map[1 := Ended, 2 := Ended] && w.cfg == a && w.doc == a && w.cache == map[]
              && Stored(2, change, b) in w.log && S.Genuine(env, w.cfg, header)
  {
    hide S.Genuine, Accepted, Run, Step;
    var acts := BothLoad(env, cfg, header, put, change, a, b);
    var w := Run(env, Started(cfg), acts);
    var go1, go2 := Advance(1, true), Advance(2, true);
    SaveStep(env, w, 2);
    var w1 := Step(env, w, go2);
    StoreStep(env, w1, 2);
    var w2 := Step(env, w1, go2);
    FlushStep(env, w2, 2);
    var w3 := Step(env, w2, go2);
    SaveStep(env, w3, 1);
    var w4 := Step(env, w3, go1);
    StoreStep(env, w4, 1);
    var w5 := Step(env, w4, go1);
    Then(env, Started(cfg), acts, go2);
    Then(env, Started(cfg), acts + [go2], go2);
    Then(env, Started(cfg), acts + [go2] + [go2], go2);
    Then(env, Started(cfg), acts + [go2] + [go2] + [go2], go1);
    Then(env, Started(cfg), acts + [go2] + [go2] + [go2] + [go1], go1);
    assert Stored(2, change, b) in w2.log && w2.log <= w5.log;
    SameAccount(env, cfg, put, a, header);
    assert Run(env, Started(cfg), acts + [go2] + [go2] + [go2] + [go1] + [go1]) == w5;
  }

  lemma SameAccount(env: S.Env, cfg: C.Config, route: S.Route, next: C.Config, header: string)
    requires !route.PutPassword? && Accepted(env, cfg, route) == Some(next)
    ensures S.Genuine(env, next, header) == S.Genuine(env, cfg, header)
  {
  }

  /** A header can outlive its password: verified before a change and remembered
      after its flush, it is let in although the password served does not match
      it, with the change answered and nothing else in flight. */
  lemma HeaderCanOutliveItsPassword(env: S.Env, cfg: C.Config, header: string, change: S.Route, b: C.Config)
    requires S.Genuine(env, cfg, header) && change.PutPassword? && Accepted(env, cfg, change) == Some(b)
    requires !S.Genuine(env, b, header)
    ensures exists acts ::
              && var w := Run(env, Started(cfg), acts);
              && w.cfg == b && w.doc == b && 2 in w.threads && w.threads[2].Ended?
              && Admits(env, w, header) && !S.Genuine(env, w.cfg, header)
  {
    hide S.Genuine, Accepted, Run, Step;
    var first := Started(cfg);
    var go1, go2 := Advance(1, true), Advance(2, true);
    var xs := VerifiesFirst(env, cfg, header);
    var w := Run(env, first, xs);
    var ys := Enters(env, w, 2, header, change, b);
    RunJoin(env, first, xs, ys);
    var acts := xs + ys;
    var w0 := Run(env, first, acts);
    SaveStep(env, w0, 2);
    var w1 := Step(env, w0, go2);
    StoreStep(env, w1, 2);
    var w2 := Step(env, w1, go2);
    FlushStep(env, w2, 2);
    var w3 := Step(env, w2, go2);
    RememberStep(env, w3, 1);
    Then(env, first, acts, go2);
    Then(env, first, acts + [go2], go2);
    Then(env, first, acts + [go2] + [go2], go2);
    Then(env, first, acts + [go2] + [go2] + [go2], go1);
    VerifiedParses(env, cfg, header);
    assert Run(env, first, acts + [go2] + [go2] + [go2] + [go1]).cfg == b;
  }

  lemma VerifiesFirst(env: S.Env, cfg: C.Config, header: string) returns (acts: seq<Action>)
    requires S.Genuine(env, cfg, header)
    ensures Moved(Started(cfg), Run(env, Started(cfg), acts), 1, AtRemember(header, S.Plain))
  {
    hide S.Genuine, Accepted;
    VerifiedParses(env, cfg, header);
    var go := Advance(1, true);
    acts := [Begin(1, header, S.Plain), go, go];
    Then(env, Started(cfg), [], acts[0]);
    Then(env, Started(cfg), [acts[0]], go);
    Then(env, Started(cfg), [acts[0], go], go);
    assert [] + [acts[0]] == [acts[0]] && [acts[0]] + [go] == [acts[0], go] && [acts[0], go] + [go] == acts;
  }

  lemma RememberStep(env: S.Env, w: World, id: nat)
    requires id in w.threads && w.threads[id].AtRemember?
    ensures var t := w.threads[id];
      var v := Step(env, w, Advance(id, true));
      && v.cfg == w.cfg && v.doc == w.doc && v.threads == w.threads[id := Inside(t.route)]
      && Hit(v.cache, env.sha(t.header), v.now)
  {
  }
}
