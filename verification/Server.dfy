/** The HTTP server's state across requests (internal/httpapi): the served
    configuration, the file behind it, the authentication cache and the
    throttle, when requests run one at a time. `Handlers` interleaves them. */
module Server {
  import opened Basics
  import opened Auth
  import C = Configs
  import D = Disk

  /** The libraries: SHA-256, the parsing of a Basic header into user and
      password, bcrypt's comparison of a hash with a password, ParseIP, and
      the JSON printer. */
  datatype Env = Env(
    sha: string -> string,
    parse: string -> Option<(string, string)>,
    verify: (string, string) -> bool,
    isIP: string -> bool,
    encode: C.Config -> string)

  /** No two headers share a digest. */
  ghost predicate Injective(env: Env) {
    forall h, g :: env.sha(h) == env.sha(g) ==> h == g
  }

  const TTL := 60 * SECOND

  datatype State = State(cfg: C.Config, disk: D.Disk, cache: Cache, fails: Fails)

  datatype Response = Done | BadRequest | Unauthorized | TooMany | MustChange | ServerError

  /** The protected routes. `body` is None when it does not decode; `hash` is
      bcrypt's output for the new password, None when it fails; `applied` is
      whether NetworkManager takes the settings. */
  datatype Route =
    | Plain
    | PutRelays(relays: Option<seq<C.Relay>>, save: D.Attempt)
    | PutNetwork(network: Option<C.Network>, save: D.Attempt, applied: bool)
    | PutPassword(body: Option<(string, string)>, hash: Option<string>, save: D.Attempt)

  datatype Request =
    | PostLogin(ip: string, body: Option<(string, string)>)
    | Api(ip: string, header: string, route: Route)

  // ---------- Checking credentials ----------

  predicate CheckPassword(env: Env, cfg: C.Config, password: string) {
    cfg.auth.passwordHash != "" && env.verify(cfg.auth.passwordHash, password)
  }

  /** The header carries the account's name and a password that bcrypt accepts:
      what a server without a cache would check. */
  predicate Genuine(env: Env, cfg: C.Config, header: string) {
    match env.parse(header)
    case None => false
    case Some((user, password)) => user == cfg.auth.username && CheckPassword(env, cfg, password)
  }

  /** requireAuth, after its sleep. */
  function Authenticate(env: Env, s: State, ip: string, header: string, now: int): (State, bool) {
    if env.parse(header).None? then (s, false)
    else
      var t := s.(cache := Purge(s.cache, env.sha(header), now));
      if Hit(s.cache, env.sha(header), now) then (t, true)
      else if !Genuine(env, s.cfg, header) then (t.(fails := Fail(t.fails, ip, now)), false)
      else (t.(fails := Succeed(t.fails, ip), cache := t.cache[env.sha(header) := now + TTL]), true)
  }

  // ---------- The handlers ----------

  function WithPassword(cfg: C.Config, hash: string): C.Config {
    cfg.(auth := cfg.auth.(passwordHash := hash, mustChange := false))
  }

  /** validate, Save, and swap the served configuration only on success. */
  ghost function Replace(env: Env, path: string, s: State, next: C.Config, a: D.Attempt): (State, Response) {
    if !C.ValidConfig(env.isIP, next) then (s, BadRequest)
    else
      var t := s.(disk := D.AfterSave(s.disk, path, env.encode(next), a));
      if D.SaveFails(s.disk, a) then (t, ServerError) else (t.(cfg := next), Done)
  }

  /** What the route makes of the configuration, or why it refuses. */
  function Proposal(env: Env, cfg: C.Config, route: Route): (r: (Option<C.Config>, Response))
    ensures r.0.None? ==> r.1 != Done
  {
    match route
    case Plain => (None, ServerError)
    case PutRelays(None, _) => (None, BadRequest)
    case PutRelays(Some(relays), _) => (Some(cfg.(relays := relays)), Done)
    case PutNetwork(None, _, _) => (None, BadRequest)
    case PutNetwork(Some(network), _, _) => (Some(cfg.(network := network)), Done)
    case PutPassword(None, _, _) => (None, BadRequest)
    case PutPassword(Some((current, new_)), hash, _) =>
      if |new_| < 8 then (None, BadRequest)
      else if !CheckPassword(env, cfg, current) then (None, Unauthorized)
      else if hash.None? then (None, ServerError)
      else (Some(WithPassword(cfg, hash.value)), Done)
  }

  /** The body of a route, behind authentication and the must-change gate. */
  ghost function Handle(env: Env, path: string, s: State, route: Route): (State, Response) {
    if !route.PutPassword? && s.cfg.auth.mustChange then (s, MustChange)
    else if route.Plain? then (s, Done)
    else
      match Proposal(env, s.cfg, route)
      case (None, why) => (s, why)
      case (Some(next), _) =>
        var (t, r) := Replace(env, path, s, next, route.save);
        if r != Done then (t, if route.PutPassword? && r.BadRequest? then ServerError else r)
        else if route.PutPassword? then (t.(cache := map[]), Done)
        else if route.PutNetwork? && !route.applied then (t, ServerError)
        else (t, Done)
  }

  ghost function Serve(env: Env, path: string, s: State, q: Request, now: int): (State, Response) {
    match q
    case PostLogin(ip, body) =>
      if body.None? then (s, BadRequest)
      else if Delay(s.fails, ip, now) > 0 then (s, TooMany)
      else if body.value.0 != s.cfg.auth.username || !CheckPassword(env, s.cfg, body.value.1) then
        (s.(fails := Fail(s.fails, ip, now)), Unauthorized)
      else (s.(fails := Succeed(s.fails, ip)), Done)
    case Api(ip, header, route) =>
      var (t, ok) := Authenticate(env, s, ip, header, now);
      if ok then Handle(env, path, t, route) else (t, Unauthorized)
  }

  // ---------- Runs, one request at a time ----------

  datatype Arrival = Arrival(at: int, q: Request)

  ghost function Run(env: Env, path: string, s: State, qs: seq<Arrival>): State {
    if qs == [] then s else Serve(env, path, Run(env, path, s, Init(qs)), Last(qs).q, Last(qs).at).0
  }

  /** Every Save of the run gets a fresh inode and temporary name. */
  ghost predicate AllUsable(env: Env, path: string, s: State, qs: seq<Arrival>) {
    qs == [] || (AllUsable(env, path, s, Init(qs)) && Usable(Run(env, path, s, Init(qs)), path, Last(qs).q))
  }

  ghost predicate Usable(s: State, path: string, q: Request) {
    q.Api? && !q.route.Plain? ==> D.Usable(s.disk, path, q.route.save)
  }

  /** Every header that the cache would wave through is one that a check would
      accept. */
  ghost predicate Coherent(env: Env, s: State) {
    forall h :: env.sha(h) in s.cache ==> Genuine(env, s.cfg, h)
  }

  /** The served configuration is valid and is the document on disk. */
  ghost predicate Stored(env: Env, path: string, s: State) {
    && C.ValidConfig(env.isIP, s.cfg)
    && D.Wf(s.disk) && D.Complete(s.disk, path)
    && D.Read(s.disk, path) == Some(env.encode(s.cfg))
  }

  /** And a power cut cannot find any other. */
  ghost predicate Durable(env: Env, path: string, s: State) {
    forall x :: D.MayFind(s.disk, path, x) <==> x == Some(env.encode(s.cfg))
  }

  predicate DirSyncs(q: Request) {
    q.Api? && !q.route.Plain? ==> !q.route.save.faults.openDir && !q.route.save.faults.syncDir
  }

  lemma AuthenticateKeeps(env: Env, s: State, ip: string, header: string, now: int)
    requires Injective(env) && Coherent(env, s)
    ensures var (t, ok) := Authenticate(env, s, ip, header, now);
      && Coherent(env, t) && t.cfg == s.cfg && t.disk == s.disk
      && ok == Genuine(env, s.cfg, header)
  {
  }

  lemma ReplaceKeeps(env: Env, path: string, s: State, next: C.Config, a: D.Attempt)
    requires Stored(env, path, s) && D.Usable(s.disk, path, a)
    ensures var (t, r) := Replace(env, path, s, next, a);
      && Stored(env, path, t) && t.cache == s.cache && (r != Done ==> t.cfg == s.cfg)
      && (Durable(env, path, s) && !a.faults.openDir && !a.faults.syncDir ==> Durable(env, path, t))
  {
    hide D.Wf, D.Complete, D.Usable, D.MayFind, D.AfterSave, D.SaveSteps, D.Read, C.ValidConfig;
    D.SaveIsCrashSafe(s.disk, path, env.encode(next), a);
  }

  lemma ProposalKeepsAccount(env: Env, cfg: C.Config, route: Route, h: string)
    requires !route.PutPassword? && Proposal(env, cfg, route).0.Some?
    ensures Genuine(env, Proposal(env, cfg, route).0.value, h) == Genuine(env, cfg, h)
  {
  }

  lemma HandleKeeps(env: Env, path: string, s: State, route: Route)
    requires Stored(env, path, s) && Coherent(env, s)
    requires !route.Plain? ==> D.Usable(s.disk, path, route.save)
    ensures var t := Handle(env, path, s, route).0;
      && Stored(env, path, t) && Coherent(env, t)
      && (Durable(env, path, s) && (!route.Plain? ==> !route.save.faults.openDir && !route.save.faults.syncDir)
          ==> Durable(env, path, t))
  {
    hide Stored, Durable, Replace, Proposal, D.Usable;
    if !(!route.PutPassword? && s.cfg.auth.mustChange) && !route.Plain? {
      match Proposal(env, s.cfg, route)
      case (None, _) =>
      case (Some(next), _) =>
        ReplaceKeeps(env, path, s, next, route.save);
        CacheOnly(env, path, Replace(env, path, s, next, route.save).0);
        ReplaceCfg(env, path, s, next, route.save);
        if !route.PutPassword? {
          forall h ensures Genuine(env, next, h) == Genuine(env, s.cfg, h) {
            ProposalKeepsAccount(env, s.cfg, route, h);
          }
        }
    }
  }

  lemma ReplaceCfg(env: Env, path: string, s: State, next: C.Config, a: D.Attempt)
    ensures Replace(env, path, s, next, a).1 == Done ==> Replace(env, path, s, next, a).0.cfg == next
  {
  }

  lemma CacheOnly(env: Env, path: string, s: State)
    ensures Stored(env, path, s) <==> Stored(env, path, s.(cache := map[]))
    ensures Durable(env, path, s) <==> Durable(env, path, s.(cache := map[]))
  {
  }

  /** The invariants of the served state, request by request. */
  lemma {:induction false} RunKeeps(env: Env, path: string, s: State, qs: seq<Arrival>)
    requires Injective(env) && AllUsable(env, path, s, qs)
    requires Stored(env, path, s) && Coherent(env, s)
    ensures Stored(env, path, Run(env, path, s, qs)) && Coherent(env, Run(env, path, s, qs))
    ensures Durable(env, path, s) && (forall q :: q in qs ==> DirSyncs(q.q)) ==>
      Durable(env, path, Run(env, path, s, qs))
  {
    hide Injective, Stored, Coherent, Durable, Authenticate, Handle;
    if qs == [] {
    } else {
      RunKeeps(env, path, s, Init(qs));
      assert Last(qs) in qs;
      ServeKeeps(env, path, Run(env, path, s, Init(qs)), Last(qs).q, Last(qs).at);
    }
  }

  lemma ServeKeeps(env: Env, path: string, s: State, q: Request, now: int)
    requires Injective(env) && Usable(s, path, q) && Stored(env, path, s) && Coherent(env, s)
    ensures var t := Serve(env, path, s, q, now).0;
      && Stored(env, path, t) && Coherent(env, t)
      && (Durable(env, path, s) && DirSyncs(q) ==> Durable(env, path, t))
  {
    match q
    case PostLogin(_, _) => hide Injective, D.Wf, D.Complete, D.Read, D.MayFind;
    case Api(ip, header, route) =>
      AuthenticateKeeps(env, s, ip, header, now);
      var (t, ok) := Authenticate(env, s, ip, header, now);
      SameDisk(env, path, s, t);
      if ok { HandleKeeps(env, path, t, route); }
      hide Injective, Stored, Coherent, Durable, Authenticate, Handle;
  }

  lemma SameDisk(env: Env, path: string, s: State, t: State)
    requires s.cfg == t.cfg && s.disk == t.disk
    ensures Stored(env, path, s) <==> Stored(env, path, t)
    ensures Durable(env, path, s) <==> Durable(env, path, t)
  {
  }

  /** The cache never changes a verdict: at every point of every run, through
      password changes, expiries and failed saves, a protected request is let
      in exactly when its header is genuine for the configuration then served. */
  lemma CacheIsTransparent(env: Env, path: string, s: State, qs: seq<Arrival>, ip: string, header: string, now: int)
    requires Injective(env) && AllUsable(env, path, s, qs)
    requires Stored(env, path, s) && s.cache == map[]
    ensures var t := Run(env, path, s, qs);
      Authenticate(env, t, ip, header, now).1 == Genuine(env, t.cfg, header)
  {
    RunKeeps(env, path, s, qs);
    AuthenticateKeeps(env, Run(env, path, s, qs), ip, header, now);
  }

  /** Memory and disk agree after every request, whichever step of Save fails. */
  lemma MemoryIsDisk(env: Env, path: string, s: State, qs: seq<Arrival>)
    requires Injective(env) && AllUsable(env, path, s, qs)
    requires Stored(env, path, s) && s.cache == map[]
    ensures var t := Run(env, path, s, qs);
      C.ValidConfig(env.isIP, t.cfg) && D.Read(t.disk, path) == Some(env.encode(t.cfg))
  {
    RunKeeps(env, path, s, qs);
  }

  /** A power cut during a request, after any run whose directory syncs took
      effect, restarts with the configuration served before the request or with
      the one it was putting in place, and that one is valid. */
  lemma PowerCutDuringRequest(
    env: Env, path: string, decode: string -> Option<C.Config>, s: State, qs: seq<Arrival>,
    route: Route, next: C.Config, t: D.Disk, found: Option<string>)
    requires Injective(env) && D.RoundTrips(env.encode, decode)
    requires AllUsable(env, path, s, qs) && forall q :: q in qs ==> DirSyncs(q.q)
    requires Stored(env, path, s) && Durable(env, path, s) && s.cache == map[]
    requires var now := Run(env, path, s, qs);
      && !route.Plain? && D.Usable(now.disk, path, route.save)
      && Proposal(env, now.cfg, route).0 == Some(next) && C.ValidConfig(env.isIP, next)
      && (t == now.disk || t in D.SaveSteps(now.disk, path, env.encode(next), route.save))
    requires D.MayFind(t, path, found)
    ensures found.Some? && D.Accepted(env.isIP, decode, found.value)
    ensures decode(found.value) == Some(Run(env, path, s, qs).cfg) || decode(found.value) == Some(next)
  {
    hide Run, D.MayFind, D.SaveSteps, Proposal;
    RunKeeps(env, path, s, qs);
    var now := Run(env, path, s, qs);
    D.RestartAfterCrash(now.disk, path, route.save, env.isIP, env.encode, decode, now.cfg, next, t, found);
  }

  /** A successful password change takes effect at once: from then on a header
      is accepted exactly if it is genuine under the new hash. */
  lemma RotationIsImmediate(
    env: Env, path: string, s: State, route: Route, hash: string, ip: string, header: string, now: int)
    requires Injective(env) && Stored(env, path, s) && Coherent(env, s)
    requires route.PutPassword? && route.hash == Some(hash) && D.Usable(s.disk, path, route.save)
    requires Handle(env, path, s, route).1 == Done
    ensures var t := Handle(env, path, s, route).0;
      && t.cfg == WithPassword(s.cfg, hash) && t.cache == map[]
      && Authenticate(env, t, ip, header, now).1 == Genuine(env, WithPassword(s.cfg, hash), header)
  {
    HandleKeeps(env, path, s, route);
    var t := Handle(env, path, s, route).0;
    AuthenticateKeeps(env, t, ip, header, now);
    hide Stored, Coherent, Genuine, Authenticate;
  }

  // ---------- The throttle over runs ----------

  /** What the throttle learns of a request: nothing from one that the cache
      answers, that is turned away, or that carries no credentials. */
  function Happens(env: Env, s: State, q: Request, now: int): seq<Happening> {
    match q
    case PostLogin(_, None) => []
    case PostLogin(ip, Some((user, password))) =>
      if Delay(s.fails, ip, now) > 0 then []
      else if user == s.cfg.auth.username && CheckPassword(env, s.cfg, password) then [Succeeded(ip)]
      else [Failed(ip, now)]
    case Api(ip, header, _) =>
      if env.parse(header).None? || Hit(s.cache, env.sha(header), now) then []
      else if Genuine(env, s.cfg, header) then [Succeeded(ip)]
      else [Failed(ip, now)]
  }

  ghost function Happenings(env: Env, path: string, s: State, qs: seq<Arrival>): seq<Happening> {
    if qs == [] then []
    else
      Happenings(env, path, s, Init(qs)) + Happens(env, Run(env, path, s, Init(qs)), Last(qs).q, Last(qs).at)
  }

  lemma HandleKeepsThrottle(env: Env, path: string, s: State, route: Route)
    ensures Handle(env, path, s, route).0.fails == s.fails
  {
    hide D.AfterSave, D.SaveSteps, C.ValidConfig;
  }

  lemma ServeThrottles(env: Env, path: string, s: State, q: Request, now: int, h: seq<Happening>)
    requires s.fails == Replay(h)
    ensures Serve(env, path, s, q, now).0.fails == Replay(h + Happens(env, s, q, now))
  {
    assert h + [] == h;
    forall x: Happening
      ensures Init(h + [x]) == h
    {
    }
    if q.Api? {
      HandleKeepsThrottle(env, path, Authenticate(env, s, q.ip, q.header, now).0, q.route);
    }
    hide Handle, CheckPassword, Purge;
  }

  /** Over every run of logins and protected requests, mixed in any way, the
      throttle is what the failures and successes of the run make of it, and so
      its delay has the closed form: a success that the cache answers does not
      count, and the failures before it still do. */
  lemma {:induction false} ThrottleOverRuns(env: Env, path: string, s: State, qs: seq<Arrival>)
    requires s.fails == map[]
    ensures Run(env, path, s, qs).fails == Replay(Happenings(env, path, s, qs))
    ensures forall ip, now, n: nat :: Burst(FailTimes(Happenings(env, path, s, qs), ip), n) ==>
      var ts := FailTimes(Happenings(env, path, s, qs), ip);
      Delay(Run(env, path, s, qs).fails, ip, now) ==
        if ts != [] && now <= Last(ts) + 60_000_000_000 then Min(5_000_000_000, 200_000_000 * Max(0, n - 5)) else 0
  {
    hide Serve, Happens, Burst, Delay;
    if qs == [] {
    } else {
      ThrottleOverRuns(env, path, s, Init(qs));
      var b := Run(env, path, s, Init(qs));
      ServeThrottles(env, path, b, Last(qs).q, Last(qs).at, Happenings(env, path, s, Init(qs)));
    }
    hide Run, Happenings;
    forall ip, now, n: nat | Burst(FailTimes(Happenings(env, path, s, qs), ip), n)
      ensures var ts := FailTimes(Happenings(env, path, s, qs), ip);
        Delay(Run(env, path, s, qs).fails, ip, now) ==
          if ts != [] && now <= Last(ts) + 60_000_000_000 then Min(5_000_000_000, 200_000_000 * Max(0, n - 5)) else 0
    {
      DelayClosedForm(Happenings(env, path, s, qs), ip, now, n);
    }
  }

  /** A success that the cache answers: a genuine request, a failed login from the
      same address, the same request again, let in. The failure still counts. */
  lemma CachedSuccessForgetsNothing(
    env: Env, path: string, s: State, ip: string, header: string, user: string, wrong: string, at: int)
    requires s.fails == map[] && s.cache == map[] && !s.cfg.auth.mustChange
    requires Genuine(env, s.cfg, header) && !CheckPassword(env, s.cfg, wrong)
    ensures var get, login := Arrival(at, Api(ip, header, Plain)), Arrival(at, PostLogin(ip, Some((user, wrong))));
      var t := Run(env, path, s, [get, login]);
      && Serve(env, path, t, get.q, at) == (t, Done)
      && t.fails == map[ip := FailState(1, at + WINDOW)]
  {
    var get, login := Arrival(at, Api(ip, header, Plain)), Arrival(at, PostLogin(ip, Some((user, wrong))));
    assert Init([get, login]) == [get] && Init([get]) == [];
    assert Run(env, path, s, [get]) == Serve(env, path, s, get.q, at).0;
  }

  // ---------- Logins ----------

  /** A run of logins with readable bodies, as the throttle sees it. */
  function Logins(env: Env, cfg: C.Config, qs: seq<Arrival>): seq<Login>
    requires forall q :: q in qs ==> q.q.PostLogin? && q.q.body.Some?
  {
    if qs == [] then []
    else
      var q := Last(qs);
      var (user, password) := q.q.body.value;
      Logins(env, cfg, Init(qs)) + [Login(q.q.ip, q.at, user == cfg.auth.username && CheckPassword(env, cfg, password))]
  }

  /** A server that only sees logins changes nothing but its throttle, no
      address ever has more than six failures on record, and so a lockout lasts
      until a minute after the sixth and no longer. */
  lemma {:induction false} LoginsOnlyThrottle(env: Env, path: string, s: State, qs: seq<Arrival>, ip: string, now: int)
    requires forall q :: q in qs ==> q.q.PostLogin? && q.q.body.Some?
    requires s.fails == map[]
    ensures var t := Run(env, path, s, qs);
      && t == s.(fails := Attempts(map[], Logins(env, s.cfg, qs)))
      && (ip in t.fails ==> t.fails[ip].count <= 6)
      && (Delay(t.fails, ip, now) > 0 <==> ip in t.fails && t.fails[ip].count == 6 && now <= t.fails[ip].resetAt)
  {
    LoginCountAtMostSix(Logins(env, s.cfg, qs));
    if qs == [] {
    } else {
      LoginsOnlyThrottle(env, path, s, Init(qs), ip, now);
      assert Last(qs) in qs;
      var ls := Logins(env, s.cfg, qs);
      assert Init(ls) == Logins(env, s.cfg, Init(qs));
    }
  }

  // ---------- The server as an object ----------

  class HttpServer {
    const env: Env
    const store: D.Store
    const fs: D.FileSystem
    const cache: AuthCache
    const throttle: Throttle
    var cfg: C.Config   // configHolder

    constructor (env: Env, store: D.Store, fs: D.FileSystem, cfg: C.Config)
      ensures this.env == env && this.store == store && this.fs == fs
      ensures Value() == State(cfg, fs.disk, map[], map[]) && Wired()
      ensures fresh(cache) && fresh(throttle)
    {
      this.env, this.store, this.fs, this.cfg := env, store, fs, cfg;
      cache := new AuthCache(TTL, env.sha);
      throttle := new Throttle();
    }

    ghost function Value(): State
      reads this, fs, cache, throttle
    {
      State(cfg, fs.disk, cache.entries, throttle.fails)
    }

    ghost predicate Wired() {
      cache.ttl == TTL && cache.sha == env.sha
    }

    method RequireAuth(ip: string, header: string, now: int) returns (ok: bool)
      requires Wired()
      modifies cache, throttle
      ensures (Value(), ok) == Authenticate(env, old(Value()), ip, header, now)
    {
      var credentials := env.parse(header);
      if credentials.None? { return false; }
      var hit := cache.Check(header, now);
      if hit { return true; }
      var (user, password) := credentials.value;
      if user != cfg.auth.username || !CheckPassword(env, cfg, password) {
        throttle.RecordFailure(ip, now);
        return false;
      }
      throttle.RecordSuccess(ip);
      cache.Remember(header, now);
      return true;
    }

    method HandleLogin(ip: string, body: Option<(string, string)>, now: int) returns (r: Response)
      modifies throttle
      ensures (Value(), r) == Serve(env, store.path, old(Value()), PostLogin(ip, body), now)
    {
      if body.None? { return BadRequest; }
      var d := throttle.DelayFor(ip, now);
      if d > 0 { return TooMany; }
      var (username, password) := body.value;
      if username != cfg.auth.username || !CheckPassword(env, cfg, password) {
        throttle.RecordFailure(ip, now);
        return Unauthorized;
      }
      throttle.RecordSuccess(ip);
      return Done;
    }

    method HandleChangePassword(body: Option<(string, string)>, hash: Option<string>, save: D.Attempt)
      returns (r: Response)
      requires D.Usable(fs.disk, store.path, save)
      modifies this, fs, cache
      ensures (Value(), r) == Handle(env, store.path, old(Value()), PutPassword(body, hash, save))
    {
      if body.None? { return BadRequest; }
      var (current, new_) := body.value;
      if |new_| < 8 { return BadRequest; }
      if !CheckPassword(env, cfg, current) { return Unauthorized; }
      if hash.None? { return ServerError; }
      var next := WithPassword(cfg, hash.value);
      var saved := store.Save(fs, env.isIP, env.encode, next, save);
      if !saved { return ServerError; }
      cfg := next;
      cache.Flush();
      return Done;
    }

    /** Behind requireNotMustChange. */
    method HandlePutRelays(relays: Option<seq<C.Relay>>, save: D.Attempt) returns (r: Response)
      requires D.Usable(fs.disk, store.path, save)
      modifies this, fs
      ensures (Value(), r) == Handle(env, store.path, old(Value()), PutRelays(relays, save))
    {
      if cfg.auth.mustChange { return MustChange; }
      if relays.None? { return BadRequest; }
      var next := cfg.(relays := relays.value);
      r := SaveAndServe(next, save);
    }

    /** Behind requireNotMustChange; `applied` is the outcome of netcfg.Apply. */
    method HandlePutNetwork(network: Option<C.Network>, save: D.Attempt, applied: bool) returns (r: Response)
      requires D.Usable(fs.disk, store.path, save)
      modifies this, fs
      ensures (Value(), r) == Handle(env, store.path, old(Value()), PutNetwork(network, save, applied))
    {
      if cfg.auth.mustChange { return MustChange; }
      if network.None? { return BadRequest; }
      var next := cfg.(network := network.value);
      r := SaveAndServe(next, save);
      if r == Done && !applied { return ServerError; }
    }

    method SaveAndServe(next: C.Config, save: D.Attempt) returns (r: Response)
      requires D.Usable(fs.disk, store.path, save)
      modifies this, fs
      ensures (Value(), r) == Replace(env, store.path, old(Value()), next, save)
    {
      var problem := C.Validate(env.isIP, next);
      if problem.Some? { return BadRequest; }
      var saved := store.Save(fs, env.isIP, env.encode, next, save);
      if !saved { return ServerError; }
      cfg := next;
      return Done;
    }

    method Dispatch(q: Request, now: int) returns (r: Response)
      requires Wired() && Usable(Value(), store.path, q)
      modifies this, fs, cache, throttle
      ensures (Value(), r) == Serve(env, store.path, old(Value()), q, now)
    {
      hide Handle, Authenticate;
      match q {
        case PostLogin(ip, body) => r := HandleLogin(ip, body, now);
        case Api(ip, header, route) =>
          var ok := RequireAuth(ip, header, now);
          if !ok { return Unauthorized; }
          match route {
            case Plain => r := HandlePlain();
            case PutRelays(relays, save) => r := HandlePutRelays(relays, save);
            case PutNetwork(network, save, applied) => r := HandlePutNetwork(network, save, applied);
            case PutPassword(body, hash, save) => r := HandleChangePassword(body, hash, save);
          }
      }
    }

    /** Any other protected route: requireNotMustChange, then the body. */
    method HandlePlain() returns (r: Response)
      ensures (Value(), r) == Handle(env, store.path, Value(), Plain)
    {
      return if cfg.auth.mustChange then MustChange else Done;
    }
  }
}
