/** The authentication cache and the failure throttle (internal/httpapi/auth.go).
    Times are nanoseconds. `sha` stands for SHA-256. */
module Auth {
  import opened Basics

  const SECOND := 1_000_000_000
  const WINDOW := 60 * SECOND
  const STEP := 200_000_000
  const MAX_DELAY := 5 * SECOND

  // ---------- authCache ----------

  type Cache = map<string, int>  // digest of a header -> verified until

  predicate Hit(c: Cache, key: string, now: int) {
    key in c && now <= c[key]
  }

  function Purge(c: Cache, key: string, now: int): Cache {
    if key in c && c[key] < now then c - {key} else c
  }

  class AuthCache {
    const ttl: int
    const sha: string -> string
    var entries: Cache

    constructor (ttl: int, sha: string -> string)
      ensures this.ttl == ttl && this.sha == sha && entries == map[]
    {
      this.ttl, this.sha, entries := ttl, sha, map[];
    }

    method Check(header: string, now: int) returns (ok: bool)
      modifies this
      ensures ok == Hit(old(entries), sha(header), now)
      ensures entries == Purge(old(entries), sha(header), now)
    {
      var key := sha(header);
      if key !in entries { return false; }
      if entries[key] < now {
        entries := entries - {key};
        return false;
      }
      return true;
    }

    method Remember(header: string, now: int)
      modifies this
      ensures entries == old(entries)[sha(header) := now + ttl]
    {
      entries := entries[sha(header) := now + ttl];
    }

    method Flush()
      modifies this
      ensures entries == map[]
    {
      entries := map[];
    }
  }

  // ---------- throttle ----------

  datatype FailState = FailState(count: nat, resetAt: int)

  type Fails = map<string, FailState>

  function Min(a: int, b: int): int { if a < b then a else b }
  function Max(a: int, b: int): int { if a < b then b else a }

  function Delay(fails: Fails, ip: string, now: int): int {
    if ip !in fails || fails[ip].resetAt < now then 0
    else if fails[ip].count <= 5 then 0
    else Min((fails[ip].count - 5) * STEP, MAX_DELAY)
  }

  function Fail(fails: Fails, ip: string, now: int): Fails {
    var count := if ip in fails && now <= fails[ip].resetAt then fails[ip].count else 0;
    fails[ip := FailState(count + 1, now + WINDOW)]
  }

  function Succeed(fails: Fails, ip: string): Fails {
    fails - {ip}
  }

  class Throttle {
    var fails: Fails

    constructor ()
      ensures fails == map[]
    {
      fails := map[];
    }

    method DelayFor(ip: string, now: int) returns (d: int)
      ensures d == Delay(fails, ip, now)
    {
      if ip !in fails || fails[ip].resetAt < now { return 0; }
      if fails[ip].count <= 5 { return 0; }
      d := (fails[ip].count - 5) * STEP;
      if d > MAX_DELAY { d := MAX_DELAY; }
    }

    method RecordFailure(ip: string, now: int)
      modifies this
      ensures fails == Fail(old(fails), ip, now)
    {
      if ip !in fails || fails[ip].resetAt < now {
        fails := fails[ip := FailState(0, 0)];
      }
      fails := fails[ip := FailState(fails[ip].count + 1, now + WINDOW)];
    }

    method RecordSuccess(ip: string)
      modifies this
      ensures fails == Succeed(old(fails), ip)
    {
      fails := fails - {ip};
    }
  }

  // ---------- The throttle in terms of what happened ----------

  datatype Happening = Failed(ip: string, at: int) | Succeeded(ip: string)

  function Replay(h: seq<Happening>): Fails {
    if h == [] then map[]
    else
      match Last(h)
      case Failed(ip, at) => Fail(Replay(Init(h)), ip, at)
      case Succeeded(ip) => Succeed(Replay(Init(h)), ip)
  }

  /** The times of the failures from `ip` since its last success. */
  function FailTimes(h: seq<Happening>, ip: string): seq<int> {
    if h == [] then []
    else
      match Last(h)
      case Failed(i, at) => if i == ip then FailTimes(Init(h), ip) + [at] else FailTimes(Init(h), ip)
      case Succeeded(i) => if i == ip then [] else FailTimes(Init(h), ip)
  }

  predicate Close(ts: seq<int>, i: int) {
    0 < i < |ts| && ts[i] - ts[i - 1] <= 60_000_000_000
  }

  /** The last `n` of the times form one burst: each is within the window of
      the one before, and the burst cannot be extended backwards. */
  ghost predicate Burst(ts: seq<int>, n: nat) {
    && n <= |ts| && (ts != [] ==> 0 < n)
    && (forall i :: |ts| - n < i < |ts| ==> Close(ts, i))
    && !(0 < n && Close(ts, |ts| - n))
  }

  lemma BurstUnique(ts: seq<int>, n: nat, m: nat)
    requires Burst(ts, n) && Burst(ts, m)
    ensures n == m
  {
    assert Close(ts, |ts| - n) || !Close(ts, |ts| - n);
    assert Close(ts, |ts| - m) || !Close(ts, |ts| - m);
  }

  lemma BurstGrows(ts: seq<int>, n: nat, at: int)
    requires Burst(ts, n)
    ensures Burst(ts + [at], if ts != [] && at <= Last(ts) + WINDOW then n + 1 else 1)
  {
    var us := ts + [at];
    assert forall i :: 0 <= i < |ts| ==> us[i] == ts[i];
    assert forall i :: 0 < i < |ts| ==> (Close(us, i) <==> Close(ts, i));
  }

  /** The map is determined by the history, address by address: an entry is
      there when there have been failures since the last success, its count is
      the length of their last burst, and it expires a window after the last. */
  lemma {:induction false} ThrottleRemembersBursts(h: seq<Happening>, ip: string)
    ensures ip in Replay(h) <==> FailTimes(h, ip) != []
    ensures ip in Replay(h) ==>
      Burst(FailTimes(h, ip), Replay(h)[ip].count) && Replay(h)[ip].resetAt == Last(FailTimes(h, ip)) + 60_000_000_000
  {
    if h == [] {
    } else {
      ThrottleRemembersBursts(Init(h), ip);
      var ts := FailTimes(Init(h), ip);
      match Last(h)
      case Failed(i, at) =>
        if i == ip {
          BurstGrows(ts, if ts == [] then 0 else Replay(Init(h))[ip].count, at);
        }
      case Succeeded(i) =>
    }
  }

  /** The delay in closed form. */
  lemma DelayClosedForm(h: seq<Happening>, ip: string, now: int, n: nat)
    requires Burst(FailTimes(h, ip), n)
    ensures var ts := FailTimes(h, ip);
      Delay(Replay(h), ip, now) ==
        if ts != [] && now <= Last(ts) + 60_000_000_000 then Min(5_000_000_000, 200_000_000 * Max(0, n - 5)) else 0
  {
    ThrottleRemembersBursts(h, ip);
    if FailTimes(h, ip) != [] {
      BurstUnique(FailTimes(h, ip), n, Replay(h)[ip].count);
    }
  }

  // ---------- Login attempts one at a time ----------

  datatype Login = Login(ip: string, at: int, correct: bool)

  /** handleLogin: while a delay is in force the attempt is turned away and
      leaves no trace. */
  function Attempt(fails: Fails, l: Login): Fails {
    if Delay(fails, l.ip, l.at) > 0 then fails
    else if l.correct then Succeed(fails, l.ip)
    else Fail(fails, l.ip, l.at)
  }

  function Attempts(fails: Fails, ls: seq<Login>): Fails {
    if ls == [] then fails else Attempt(Attempts(fails, Init(ls)), Last(ls))
  }

  /** Through /api/login alone no count ever passes 6. */
  lemma {:induction false} LoginCountAtMostSix(ls: seq<Login>)
    ensures forall ip :: ip in Attempts(map[], ls) ==> Attempts(map[], ls)[ip].count <= 6
  {
    if ls == [] {
    } else {
      LoginCountAtMostSix(Init(ls));
    }
  }

  /** A lockout cannot be prolonged: however often a locked-out address tries,
      it ends a window after the failure that caused it, and not before. */
  lemma {:induction false} LockoutEnds(fails: Fails, ls: seq<Login>, ip: string)
    requires ip in fails && fails[ip].count == 6
    requires forall l :: l in ls && l.ip == ip ==> l.at <= fails[ip].resetAt
    ensures var after := Attempts(fails, ls);
      && ip in after && after[ip] == fails[ip]
      && forall now :: Delay(after, ip, now) > 0 <==> now <= fails[ip].resetAt
  {
    if ls == [] {
    } else {
      LockoutEnds(fails, Init(ls), ip);
      assert Last(ls) in ls;
    }
  }
}
