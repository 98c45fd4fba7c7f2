/** Who is let in, what each request is answered and what it changes, in terms of
    the request, the stored hash and the fields of the configuration, for requests
    that run one at a time. */
module ServerAnswers {
  import opened Basics
  import opened Auth
  import opened Server
  import C = Configs
  import D = Disk

  // ---------- Who is let in ----------

  /** `user` and `password` are those of the account. */
  predicate RightPassword(env: Env, cfg: C.Config, user: string, password: string) {
    && user == cfg.auth.username && cfg.auth.passwordHash != ""
    && env.verify(cfg.auth.passwordHash, password)
  }

  /** The header parses, and names the account with its password. */
  predicate Credentials(env: Env, cfg: C.Config, header: string) {
    && env.parse(header).Some?
    && RightPassword(env, cfg, env.parse(header).value.0, env.parse(header).value.1)
  }

  lemma GenuineIs(env: Env, cfg: C.Config, header: string)
    ensures Genuine(env, cfg, header) <==> Credentials(env, cfg, header)
  {
  }

  /** A request without credentials is refused and changes neither the configuration
      nor the disk; one with credentials is handled, on the configuration and the
      disk as they are. */
  lemma OnlyCredentialsAreServed(env: Env, path: string, s: State, ip: string, header: string, route: Route, now: int)
    requires Injective(env) && Coherent(env, s)
    ensures var (t, r) := Serve(env, path, s, Api(ip, header, route), now);
      if !Credentials(env, s.cfg, header) then r == Unauthorized && t.cfg == s.cfg && t.disk == s.disk
      else
        exists u: State ::
          && u.cfg == s.cfg && u.disk == s.disk && Coherent(env, u)
          && (t, r) == Handle(env, path, u, route)
  {
    AuthenticateKeeps(env, s, ip, header, now);
    GenuineIs(env, s.cfg, header);
    hide Handle, Injective, Coherent, Authenticate, Genuine, Credentials;
  }

  // ---------- What each route answers and changes ----------

  /** The whole state of the account's routes: nothing but what is said changes. */
  predicate Unchanged(s: State, t: State) {
    t.cfg == s.cfg && t.disk == s.disk
  }

  /** Any other protected route: let in past the gate, and nothing changes. */
  lemma PlainAnswered(env: Env, path: string, s: State, ip: string, header: string, now: int)
    requires Injective(env) && Coherent(env, s)
    ensures var (t, r) := Serve(env, path, s, Api(ip, header, Plain), now);
      && Unchanged(s, t)
      && r == if !Credentials(env, s.cfg, header) then Unauthorized
              else if s.cfg.auth.mustChange then MustChange
              else Done
  {
    OnlyCredentialsAreServed(env, path, s, ip, header, Plain, now);
    hide Injective, Coherent, Authenticate, Genuine, Credentials, Serve;
  }

  /** What is on disk is the configuration that is served. */
  predicate OnDisk(env: Env, path: string, t: State) {
    D.Read(t.disk, path) == Some(env.encode(t.cfg))
  }

  /** A save of a configuration, as the handlers do it: refused if invalid, and
      otherwise in place, in memory and on disk, unless Save fails. */
  lemma Replaced(env: Env, path: string, s: State, next: C.Config, a: D.Attempt)
    requires Stored(env, path, s) && D.Usable(s.disk, path, a)
    ensures var (t, r) := Replace(env, path, s, next, a);
      && OnDisk(env, path, t)
      && t.cfg == (if C.ValidConfig(env.isIP, next) && !D.SaveFails(s.disk, a) then next else s.cfg)
      && (!C.ValidConfig(env.isIP, next) ==> t == s && r == BadRequest)
      && (C.ValidConfig(env.isIP, next) ==> r == if D.SaveFails(s.disk, a) then ServerError else Done)
  {
    ReplaceKeeps(env, path, s, next, a);
    hide D.Wf, D.Complete, D.Usable, D.AfterSave, D.Read, C.ValidConfig, D.SaveFails;
  }

  /** PUT /api/relays: the list that was put is served and on disk, and nothing else
      of the configuration has changed; or nothing at all has. */
  lemma PutRelaysAnswered(
    env: Env, path: string, s: State, ip: string, header: string, body: Option<seq<C.Relay>>, a: D.Attempt, now: int)
    requires Injective(env) && Coherent(env, s) && Stored(env, path, s) && D.Usable(s.disk, path, a)
    ensures var (t, r) := Serve(env, path, s, Api(ip, header, PutRelays(body, a)), now);
      var next := C.Config(
        s.cfg.version, s.cfg.auth, s.cfg.listen, s.cfg.chip, body.GetOr([]), s.cfg.network);
      && OnDisk(env, path, t)
      && t.cfg == (if r == Done then next else s.cfg)
      && r == if !Credentials(env, s.cfg, header) then Unauthorized
              else if s.cfg.auth.mustChange then MustChange
              else if body.None? || !C.ValidConfig(env.isIP, next) then BadRequest
              else if D.SaveFails(s.disk, a) then ServerError
              else Done
  {
    var route := PutRelays(body, a);
    OnlyCredentialsAreServed(env, path, s, ip, header, route, now);
    if Credentials(env, s.cfg, header) && !s.cfg.auth.mustChange && body.Some? {
      var u: State :| u.cfg == s.cfg && u.disk == s.disk && Coherent(env, u)
        && Serve(env, path, s, Api(ip, header, route), now) == Handle(env, path, u, route);
      SameDisk(env, path, s, u);
      Replaced(env, path, u, s.cfg.(relays := body.value), a);
      hide Replace;
    }
    hide Injective, Coherent, Authenticate, Genuine, Credentials, Serve, C.ValidConfig, D.SaveFails, D.Usable;
    hide D.Wf, D.Complete, D.Read;
  }

  /** PUT /api/network: the settings that were put are served and on disk, and nothing
      else of the configuration has changed, even if applying them then fails; or
      nothing at all has. */
  lemma PutNetworkAnswered(
    env: Env, path: string, s: State, ip: string, header: string, body: Option<C.Network>, a: D.Attempt,
    applied: bool, now: int)
    requires Injective(env) && Coherent(env, s) && Stored(env, path, s) && D.Usable(s.disk, path, a)
    ensures var (t, r) := Serve(env, path, s, Api(ip, header, PutNetwork(body, a, applied)), now);
      var next := C.Config(
        s.cfg.version, s.cfg.auth, s.cfg.listen, s.cfg.chip, s.cfg.relays, body.GetOr(s.cfg.network));
      var accepted := Credentials(env, s.cfg, header) && !s.cfg.auth.mustChange
        && body.Some? && C.ValidConfig(env.isIP, next);
      && OnDisk(env, path, t)
      && t.cfg == (if accepted && !D.SaveFails(s.disk, a) then next else s.cfg)
      && r == if !Credentials(env, s.cfg, header) then Unauthorized
              else if s.cfg.auth.mustChange then MustChange
              else if !accepted then BadRequest
              else if D.SaveFails(s.disk, a) || !applied then ServerError
              else Done
  {
    var route := PutNetwork(body, a, applied);
    OnlyCredentialsAreServed(env, path, s, ip, header, route, now);
    if Credentials(env, s.cfg, header) && !s.cfg.auth.mustChange && body.Some? {
      var u: State :| u.cfg == s.cfg && u.disk == s.disk && Coherent(env, u)
        && Serve(env, path, s, Api(ip, header, route), now) == Handle(env, path, u, route);
      SameDisk(env, path, s, u);
      Replaced(env, path, u, s.cfg.(network := body.value), a);
      hide Replace;
    }
    hide Injective, Coherent, Authenticate, Genuine, Credentials, Serve, C.ValidConfig, D.SaveFails, D.Usable;
    hide D.Wf, D.Complete, D.Read;
  }

  /** PUT /api/auth/password, which passes no gate: the new hash is served and on disk,
      with the flag cleared, nothing else has changed and no header is remembered; or
      nothing at all has changed. The current password must be right and the new one
      have eight bytes. */
  lemma PutPasswordAnswered(
    env: Env, path: string, s: State, ip: string, header: string, body: Option<(string, string)>,
    hash: Option<string>, a: D.Attempt, now: int)
    requires Injective(env) && Coherent(env, s) && Stored(env, path, s) && D.Usable(s.disk, path, a)
    ensures var (t, r) := Serve(env, path, s, Api(ip, header, PutPassword(body, hash, a)), now);
      var next := C.Config(
        s.cfg.version, C.Auth(s.cfg.auth.username, hash.GetOr(""), false), s.cfg.listen, s.cfg.chip,
        s.cfg.relays, s.cfg.network);
      && OnDisk(env, path, t)
      && t.cfg == (if r == Done then next else s.cfg)
      && (r == Done ==> t.cache == map[])
      && r == if !Credentials(env, s.cfg, header) then Unauthorized
              else if body.None? || |body.value.1| < 8 then BadRequest
              else if !RightPassword(env, s.cfg, s.cfg.auth.username, body.value.0) then Unauthorized
              else if hash.None? || !C.ValidConfig(env.isIP, next) || D.SaveFails(s.disk, a) then ServerError
              else Done
  {
    var route := PutPassword(body, hash, a);
    OnlyCredentialsAreServed(env, path, s, ip, header, route, now);
    if Credentials(env, s.cfg, header) {
      var u: State :| u.cfg == s.cfg && u.disk == s.disk && Coherent(env, u)
        && Serve(env, path, s, Api(ip, header, route), now) == Handle(env, path, u, route);
      SameDisk(env, path, s, u);
      PasswordHandled(env, path, u, body, hash, a);
    }
    hide Injective, Coherent, Authenticate, Genuine, Credentials, Serve, Handle, C.ValidConfig, D.SaveFails, D.Usable;
    hide D.Wf, D.Complete, D.Read, RightPassword;
  }

  lemma PasswordHandled(
    env: Env, path: string, s: State, body: Option<(string, string)>, hash: Option<string>, a: D.Attempt)
    requires Stored(env, path, s) && D.Usable(s.disk, path, a)
    ensures var (t, r) := Handle(env, path, s, PutPassword(body, hash, a));
      var next := C.Config(
        s.cfg.version, C.Auth(s.cfg.auth.username, hash.GetOr(""), false), s.cfg.listen, s.cfg.chip,
        s.cfg.relays, s.cfg.network);
      && OnDisk(env, path, t)
      && t.cfg == (if r == Done then next else s.cfg)
      && (r == Done ==> t.cache == map[])
      && r == if body.None? || |body.value.1| < 8 then BadRequest
              else if !RightPassword(env, s.cfg, s.cfg.auth.username, body.value.0) then Unauthorized
              else if hash.None? || !C.ValidConfig(env.isIP, next) || D.SaveFails(s.disk, a) then ServerError
              else Done
  {
    if body.Some? && hash.Some? {
      Replaced(env, path, s, s.cfg.(auth := C.Auth(s.cfg.auth.username, hash.value, false)), a);
    }
    hide Replace, C.ValidConfig, D.SaveFails, D.Usable, D.Wf, D.Complete, D.Read;
  }

  // ---------- Over runs ----------

  /** Request `k` of the run has credentials for the configuration that is served
      then, and is a password change if the password must be changed. */
  ghost predicate AuthorisedAt(env: Env, path: string, s: State, qs: seq<Arrival>, k: nat) {
    && k < |qs| && qs[k].q.Api? && !qs[k].q.route.Plain?
    && var cfg := Run(env, path, s, qs[..k]).cfg;
    && Credentials(env, cfg, qs[k].q.header)
    && (cfg.auth.mustChange ==> qs[k].q.route.PutPassword?)
  }

  lemma OneChange(env: Env, path: string, s: State, q: Request, now: int)
    requires Injective(env) && Coherent(env, s)
    ensures var t := Serve(env, path, s, q, now).0;
      Unchanged(s, t) || (
        && q.Api? && !q.route.Plain? && Credentials(env, s.cfg, q.header)
        && (s.cfg.auth.mustChange ==> q.route.PutPassword?))
  {
    match q
    case PostLogin(_, _) =>
    case Api(ip, header, route) =>
      OnlyCredentialsAreServed(env, path, s, ip, header, route, now);
      hide Injective, Coherent, Authenticate, Genuine, Credentials, Serve, Replace, Proposal;
  }

  /** Over any run, configuration and disk change only through requests that had
      credentials for what was served then, and while the password must be changed
      only through password changes. */
  lemma {:induction false} ChangesAreAuthorised(env: Env, path: string, s: State, qs: seq<Arrival>)
    requires Injective(env) && AllUsable(env, path, s, qs) && Stored(env, path, s) && Coherent(env, s)
    ensures Unchanged(s, Run(env, path, s, qs)) || exists k: nat :: AuthorisedAt(env, path, s, qs, k)
  {
    hide Injective, Stored, Coherent, Serve, Credentials;
    if qs == [] {
    } else {
      var before, n := Init(qs), |qs| - 1;
      ChangesAreAuthorised(env, path, s, before);
      RunKeeps(env, path, s, before);
      OneChange(env, path, Run(env, path, s, before), Last(qs).q, Last(qs).at);
      assert qs[..n] == before;
      if k: nat :| AuthorisedAt(env, path, s, before, k) {
        assert before[..k] == qs[..k];
        assert AuthorisedAt(env, path, s, qs, k);
      } else if !Unchanged(Run(env, path, s, before), Run(env, path, s, qs)) {
        assert AuthorisedAt(env, path, s, qs, n);
      }
    }
  }

  /** The request puts relays, settings or a hash in place. */
  ghost predicate Takes(env: Env, s: State, q: Request) {
    && q.Api? && !q.route.Plain? && Credentials(env, s.cfg, q.header) && !D.SaveFails(s.disk, q.route.save)
    && match q.route
       case PutRelays(body, _) =>
         !s.cfg.auth.mustChange && body.Some? && C.ValidConfig(env.isIP, s.cfg.(relays := body.value))
       case PutNetwork(body, _, _) =>
         !s.cfg.auth.mustChange && body.Some? && C.ValidConfig(env.isIP, s.cfg.(network := body.value))
       case PutPassword(body, hash, _) =>
         && body.Some? && hash.Some? && |body.value.1| >= 8
         && RightPassword(env, s.cfg, s.cfg.auth.username, body.value.0)
         && C.ValidConfig(env.isIP, s.cfg.(auth := C.Auth(s.cfg.auth.username, hash.value, false)))
       case Plain => false
  }

  /** The relays, the settings and the account that were put last, or what was there
      at first. */
  ghost function LastRelays(env: Env, path: string, s: State, qs: seq<Arrival>): seq<C.Relay> {
    if qs == [] then s.cfg.relays
    else
      var q := Last(qs).q;
      if Takes(env, Run(env, path, s, Init(qs)), q) && q.route.PutRelays? then q.route.relays.value
      else LastRelays(env, path, s, Init(qs))
  }

  ghost function LastNetwork(env: Env, path: string, s: State, qs: seq<Arrival>): C.Network {
    if qs == [] then s.cfg.network
    else
      var q := Last(qs).q;
      if Takes(env, Run(env, path, s, Init(qs)), q) && q.route.PutNetwork? then q.route.network.value
      else LastNetwork(env, path, s, Init(qs))
  }

  ghost function LastAccount(env: Env, path: string, s: State, qs: seq<Arrival>): C.Auth {
    if qs == [] then s.cfg.auth
    else
      var q := Last(qs).q;
      if Takes(env, Run(env, path, s, Init(qs)), q) && q.route.PutPassword?
      then C.Auth(s.cfg.auth.username, q.route.hash.value, false)
      else LastAccount(env, path, s, Init(qs))
  }

  lemma OnePut(env: Env, path: string, s: State, q: Request, now: int)
    requires Injective(env) && Coherent(env, s) && Stored(env, path, s) && Usable(s, path, q)
    ensures Serve(env, path, s, q, now).0.cfg ==
      if !Takes(env, s, q) then s.cfg
      else if q.route.PutRelays? then s.cfg.(relays := q.route.relays.value)
      else if q.route.PutNetwork? then s.cfg.(network := q.route.network.value)
      else s.cfg.(auth := C.Auth(s.cfg.auth.username, q.route.hash.value, false))
    ensures Takes(env, s, q) ==> q.Api? && (q.route.PutRelays? || q.route.PutNetwork? || q.route.PutPassword?)
  {
    match q {
      case PostLogin(_, _) =>
      case Api(ip, header, route) =>
        match route {
          case Plain => PlainAnswered(env, path, s, ip, header, now);
          case PutRelays(body, a) => PutRelaysAnswered(env, path, s, ip, header, body, a, now);
          case PutNetwork(body, a, applied) =>
            PutNetworkAnswered(env, path, s, ip, header, body, a, applied, now);
          case PutPassword(body, hash, a) => PutPasswordAnswered(env, path, s, ip, header, body, hash, a, now);
        }
        hide Injective, Coherent, Stored, Authenticate, Genuine, Credentials, C.ValidConfig, D.SaveFails, Serve;
    }
  }

  /** What is served after any run is what was put: the relays and the network settings
      of the last PUT that was taken, the hash of the last password change, and all
      else as it was; and that is what a restart decodes. */
  lemma {:induction false} ConfigIsWhatWasPut(
    env: Env, path: string, decode: string -> Option<C.Config>, s: State, qs: seq<Arrival>)
    requires Injective(env) && AllUsable(env, path, s, qs) && Stored(env, path, s) && Coherent(env, s)
    requires D.RoundTrips(env.encode, decode)
    ensures var t := Run(env, path, s, qs);
      && t.cfg == C.Config(
           s.cfg.version, LastAccount(env, path, s, qs), s.cfg.listen, s.cfg.chip,
           LastRelays(env, path, s, qs), LastNetwork(env, path, s, qs))
      && D.Read(t.disk, path).Some? && decode(D.Read(t.disk, path).value) == Some(t.cfg)
      && LastAccount(env, path, s, qs).username == s.cfg.auth.username
  {
    hide Injective, Coherent, Serve, Takes, D.Read, D.Wf, D.Complete, C.ValidConfig;
    RunKeeps(env, path, s, qs);
    if qs == [] {
    } else {
      ConfigIsWhatWasPut(env, path, decode, s, Init(qs));
      RunKeeps(env, path, s, Init(qs));
      OnePut(env, path, Run(env, path, s, Init(qs)), Last(qs).q, Last(qs).at);
    }
  }

  // ---------- Logins ----------

  /** What the throttle learns is what was answered: a failed login or a protected
      request whose header parses but does not match is a failure; an accepted login
      or a matching request that the cache does not answer is a success; nothing else
      counts. */
  lemma HappeningsAreAnswers(env: Env, path: string, s: State, q: Request, now: int)
    ensures match q
            case PostLogin(ip, _) =>
              var r := Serve(env, path, s, q, now).1;
              Happens(env, s, q, now) ==
                if r == Unauthorized then [Failed(ip, now)] else if r == Done then [Succeeded(ip)] else []
            case Api(ip, header, _) =>
              Happens(env, s, q, now) ==
                if env.parse(header).None? || (env.sha(header) in s.cache && now <= s.cache[env.sha(header)]) then []
                else if Credentials(env, s.cfg, header) then [Succeeded(ip)]
                else [Failed(ip, now)]
  {
    hide D.AfterSave, D.SaveSteps, C.ValidConfig;
  }

  /** The answer of a login, after any run of logins and protected requests: turned
      away exactly if the address has more than five failures in its last burst and
      the last of them is at most a minute old; and otherwise accepted exactly if user
      and password are right. */
  lemma LoginAnswered(
    env: Env, path: string, s: State, qs: seq<Arrival>, ip: string, body: Option<(string, string)>, now: int, n: nat)
    requires s.fails == map[] && Burst(FailTimes(Happenings(env, path, s, qs), ip), n)
    ensures var t := Run(env, path, s, qs);
      var times := FailTimes(Happenings(env, path, s, qs), ip);
      Serve(env, path, t, PostLogin(ip, body), now).1 ==
        if body.None? then BadRequest
        else if n > 5 && now <= Last(times) + 60_000_000_000 then TooMany
        else if RightPassword(env, t.cfg, body.value.0, body.value.1) then Done
        else Unauthorized
  {
    ThrottleOverRuns(env, path, s, qs);
    hide Run, Happenings, Burst, FailTimes, Delay;
    BurstSize(env, path, s, qs, ip, n);
  }

  lemma BurstSize(env: Env, path: string, s: State, qs: seq<Arrival>, ip: string, n: nat)
    requires Burst(FailTimes(Happenings(env, path, s, qs), ip), n)
    ensures n > 0 ==> FailTimes(Happenings(env, path, s, qs), ip) != []
  {
  }

  /** After a first boot the factory password opens the account, and nothing else
      does until it has been changed. */
  lemma FactoryLogin(
    env: Env, path: string, s: State, hash: string, ip: string, user: string, password: string, now: int)
    requires s.cfg == C.Seeded(hash) && s.fails == map[] && hash != ""
    ensures Serve(env, path, s, PostLogin(ip, Some((user, password))), now).1 ==
      if user == "admin" && env.verify(hash, password) then Done else Unauthorized
    ensures s.cfg.auth.mustChange
  {
  }
}
