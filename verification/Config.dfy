/** The configuration document (internal/config/config.go).
    Strings are sequences of bytes, as in Go: a `char` stands for one byte. */
module Configs {
  import opened Basics

  const MIN_DURATION_MS := 50
  const MAX_DURATION_MS := 300_000

  datatype Relay = Relay(
    id: int, name: string, gpio: int, activeHigh: bool,
    durationMs: int, debounceMs: int, enabled: bool)

  datatype Auth = Auth(username: string, passwordHash: string, mustChange: bool)

  datatype Network = Network(
    mode: string, address: string, netmask: string, gateway: string,
    dns: seq<string>, hostname: string)

  datatype Config = Config(
    version: int, auth: Auth, listen: string, chip: string,
    relays: seq<Relay>, network: Network)

  /** The document of a first boot, before its password is set. */
  function Default(): Config {
    Config(
      1, Auth("admin", "", true), ":80", "gpiochip0",
      [Relay(1, "Main Gate", 17, false, 2000, 0, true), Relay(2, "Parking Gate", 27, false, 5000, 0, true)],
      Network("dhcp", "", "", "", [], "relay-01"))
  }

  /** The document that Load seeds: the factory password is set, which clears
      the flag, and the flag is forced back on. */
  function Seeded(hash: string): Config {
    Default().(auth := Default().auth.(passwordHash := hash, mustChange := true))
  }

  // ---------- What Validate promises, independently of its loop ----------

  predicate ValidRelay(r: Relay) {
    && 0 < r.id
    && 0 <= r.gpio
    && 50 <= r.durationMs <= 300_000
    && 0 <= r.debounceMs
    && |r.name| <= 64
  }

  ghost predicate ValidRelays(rs: seq<Relay>) {
    && (forall i :: 0 <= i < |rs| ==> ValidRelay(rs[i]))
    && (forall i, j :: 0 <= i < j < |rs| ==> rs[i].id != rs[j].id)
    && (forall i, j :: 0 <= i < j < |rs| ==> rs[i].gpio != rs[j].gpio)
  }

  predicate ValidNetwork(isIP: string -> bool, n: Network) {
    n.mode == "static" ==> isIP(n.address) && isIP(n.gateway)
  }

  /** `isIP` is net.ParseIP(s) != nil. */
  ghost predicate ValidConfig(isIP: string -> bool, c: Config) {
    && c.listen != ""
    && c.chip != ""
    && ValidRelays(c.relays)
    && ValidNetwork(isIP, c.network)
  }

  /** The reasons Validate can give, with the index of the offending relay. */
  datatype Problem =
    | EmptyListen
    | EmptyChip
    | BadId(i: nat)
    | DuplicateId(i: nat)
    | NegativePin(i: nat)
    | DuplicatePin(i: nat)
    | BadDuration(i: nat)
    | NegativeDebounce(i: nat)
    | LongName(i: nat)
    | BadAddress
    | BadGateway

  /** `p` is the first thing wrong with `c`, in the order the document is read. */
  ghost predicate FirstProblem(isIP: string -> bool, c: Config, p: Problem) {
    match p
    case EmptyListen => c.listen == ""
    case EmptyChip => c.listen != "" && c.chip == ""
    case BadAddress =>
      && c.listen != "" && c.chip != "" && ValidRelays(c.relays)
      && c.network.mode == "static" && !isIP(c.network.address)
    case BadGateway =>
      && c.listen != "" && c.chip != "" && ValidRelays(c.relays)
      && c.network.mode == "static" && isIP(c.network.address) && !isIP(c.network.gateway)
    case _ =>
      && c.listen != "" && c.chip != "" && p.i < |c.relays|
      && ValidRelays(c.relays[..p.i])
      && RelayProblem(c.relays[..p.i], c.relays[p.i], p)
  }

  ghost predicate TakenId(rs: seq<Relay>, id: int) {
    exists j :: 0 <= j < |rs| && rs[j].id == id
  }

  ghost predicate TakenPin(rs: seq<Relay>, pin: int) {
    exists j :: 0 <= j < |rs| && rs[j].gpio == pin
  }

  /** `p` is the first thing wrong with `r` when it comes after `before`. */
  ghost predicate RelayProblem(before: seq<Relay>, r: Relay, p: Problem) {
    var takenId, takenPin := TakenId(before, r.id), TakenPin(before, r.gpio);
    match p
    case BadId(_) => r.id <= 0
    case DuplicateId(_) => 0 < r.id && takenId
    case NegativePin(_) => 0 < r.id && !takenId && r.gpio < 0
    case DuplicatePin(_) => 0 < r.id && !takenId && 0 <= r.gpio && takenPin
    case BadDuration(_) =>
      && 0 < r.id && !takenId && 0 <= r.gpio && !takenPin
      && !(MIN_DURATION_MS <= r.durationMs <= MAX_DURATION_MS)
    case NegativeDebounce(_) =>
      && 0 < r.id && !takenId && 0 <= r.gpio && !takenPin
      && MIN_DURATION_MS <= r.durationMs <= MAX_DURATION_MS && r.debounceMs < 0
    case LongName(_) =>
      && 0 < r.id && !takenId && 0 <= r.gpio && !takenPin
      && MIN_DURATION_MS <= r.durationMs <= MAX_DURATION_MS && 0 <= r.debounceMs && 64 < |r.name|
    case _ => false
  }

  lemma OneMore(rs: seq<Relay>, i: nat)
    requires i < |rs|
    ensures forall x :: TakenId(rs[..i + 1], x) <==> TakenId(rs[..i], x) || x == rs[i].id
    ensures forall x :: TakenPin(rs[..i + 1], x) <==> TakenPin(rs[..i], x) || x == rs[i].gpio
    ensures ValidRelays(rs[..i + 1]) <==>
      && ValidRelays(rs[..i]) && ValidRelay(rs[i])
      && !TakenId(rs[..i], rs[i].id) && !TakenPin(rs[..i], rs[i].gpio)
    ensures ValidRelays(rs) ==> ValidRelays(rs[..i + 1])
  {
    var now, more := rs[..i], rs[..i + 1];
    assert forall j :: 0 <= j < i ==> now[j] == rs[j] && more[j] == rs[j];
    assert more[i] == rs[i];
    forall x
      ensures TakenId(more, x) <==> TakenId(now, x) || x == rs[i].id
      ensures TakenPin(more, x) <==> TakenPin(now, x) || x == rs[i].gpio
    {
      if j :| 0 <= j < i && now[j].id == x { assert more[j].id == x; }
      if j :| 0 <= j < i && now[j].gpio == x { assert more[j].gpio == x; }
    }
    if ValidRelays(more) {
      assert forall j :: 0 <= j < i ==> more[j].id != more[i].id && more[j].gpio != more[i].gpio;
    }
  }

  /** The Validate loop accepts exactly the valid documents, and otherwise
      names the first problem. */
  method Validate(isIP: string -> bool, c: Config) returns (p: Option<Problem>)
    ensures p.None? <==> ValidConfig(isIP, c)
    ensures p.Some? ==> FirstProblem(isIP, c, p.value)
  {
    if c.listen == "" { return Some(EmptyListen); }
    if c.chip == "" { return Some(EmptyChip); }
    var ids: set<int>, pins: set<int> := {}, {};
    for i := 0 to |c.relays|
      invariant ValidRelays(c.relays[..i])
      invariant forall x :: x in ids <==> TakenId(c.relays[..i], x)
      invariant forall x :: x in pins <==> TakenPin(c.relays[..i], x)
    {
      var r := c.relays[i];
      OneMore(c.relays, i);
      hide ValidRelays, TakenId, TakenPin;
      if r.id <= 0 { return Some(BadId(i)); }
      if r.id in ids { return Some(DuplicateId(i)); }
      ids := ids + {r.id};
      if r.gpio < 0 { return Some(NegativePin(i)); }
      if r.gpio in pins { return Some(DuplicatePin(i)); }
      pins := pins + {r.gpio};
      if r.durationMs < MIN_DURATION_MS || r.durationMs > MAX_DURATION_MS { return Some(BadDuration(i)); }
      if r.debounceMs < 0 { return Some(NegativeDebounce(i)); }
      if |r.name| > 64 { return Some(LongName(i)); }
    }
    assert c.relays[..|c.relays|] == c.relays;
    if c.network.mode == "static" {
      if !isIP(c.network.address) { return Some(BadAddress); }
      if !isIP(c.network.gateway) { return Some(BadGateway); }
    }
    return None;
  }

  /** The verdict and its reason are determined by the document: no document
      has two different first problems, and a valid one has none. */
  lemma FirstProblemUnique(isIP: string -> bool, c: Config, p: Problem, q: Problem)
    requires FirstProblem(isIP, c, p) && FirstProblem(isIP, c, q)
    ensures p == q && !ValidConfig(isIP, c)
  {
    if IsRelayProblem(p) {
      ProblemSpoils(c.relays, p);
      if IsRelayProblem(q) {
        ProblemSpoils(c.relays, q);
      }
    } else if IsRelayProblem(q) {
      ProblemSpoils(c.relays, q);
    }
  }

  predicate IsRelayProblem(p: Problem) {
    !p.EmptyListen? && !p.EmptyChip? && !p.BadAddress? && !p.BadGateway?
  }

  lemma ProblemSpoils(rs: seq<Relay>, p: Problem)
    requires IsRelayProblem(p) && p.i < |rs|
    requires RelayProblem(rs[..p.i], rs[p.i], p)
    ensures forall k :: p.i < k <= |rs| ==> !ValidRelays(rs[..k])
    ensures !ValidRelays(rs)
  {
    forall k | p.i < k <= |rs|
      ensures !ValidRelays(rs[..k])
    {
      assert rs[..k][p.i] == rs[p.i];
      assert forall j :: 0 <= j < p.i ==> rs[..k][j] == rs[..p.i][j];
    }
    assert rs[..|rs|] == rs;
  }
}
