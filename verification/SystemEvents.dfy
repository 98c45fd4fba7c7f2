/** The events of the controller: the queue, who takes them, and what they tell
    about the relays. */
module SystemEvents {
  import opened Basics
  import opened RelayMachine
  import opened System
  import opened SystemRuns
  import R = RelayRuns
  import C = Configs

  // ---------- Events ----------

  function Stamps(sent: seq<Attempt>): seq<Snapshot> {
    if sent == [] then [] else Stamps(Init(sent)) + [Last(sent).st]
  }

  /** `xs` is what is left of `ys` after leaving some elements out. */
  predicate Subsequence<T(==)>(xs: seq<T>, ys: seq<T>) {
    if xs == [] then true
    else if ys == [] then false
    else (Last(xs) == Last(ys) && Subsequence(Init(xs), Init(ys))) || Subsequence(xs, Init(ys))
  }

  /** What has been taken from the channel, by any stream. */
  function Delivered(received: seq<Delivery>): seq<Snapshot> {
    if received == [] then [] else Delivered(Init(received)) + [Last(received).st]
  }

  ghost predicate QueueOk(s: Sys) {
    && |s.queue| <= 64
    && |s.sent| == |s.queue| + |s.received| + s.dropped
    && Subsequence(Delivered(s.received) + s.queue, Stamps(s.sent))
  }

  lemma SubsequenceGrows(xs: seq<Snapshot>, ys: seq<Snapshot>, x: Snapshot)
    requires Subsequence(xs, ys)
    ensures Subsequence(xs, ys + [x]) && Subsequence(xs + [x], ys + [x])
  {
    assert Init(ys + [x]) == ys && Init(xs + [x]) == xs;
  }

  lemma StampsGrow(sent: seq<Attempt>, e: Attempt)
    ensures Stamps(sent + [e]) == Stamps(sent) + [e.st]
  {
    assert Init(sent + [e]) == sent;
  }

  lemma PublishQueue(s: Sys, st: Snapshot, origin: Origin)
    requires QueueOk(s)
    ensures QueueOk(Publish(s, st, origin))
  {
    hide Subsequence, Stamps, Delivered;
    StampsGrow(s.sent, Attempt(st, origin));
    SubsequenceGrows(Delivered(s.received) + s.queue, Stamps(s.sent), st);
    assert Delivered(s.received) + (s.queue + [st]) == Delivered(s.received) + s.queue + [st];
  }

  lemma QueueStep(s: Sys, a: Action)
    requires QueueOk(s)
    ensures QueueOk(Step(s, a))
  {
    hide QueueOk, Publish, Apply, Drives;
    match TargetOf(s, a)
    case Target(id, op) => PerformQueue(s, id, op); SamePhase(Perform(s, id, op), NextPhase(s, a));
    case Nothing => HousekeepingQueue(s, a); SamePhase(Housekeeping(s, a), NextPhase(s, a));
  }

  lemma SamePhase(s: Sys, p: Phase)
    requires QueueOk(s)
    ensures QueueOk(s.(phase := p))
  {
  }

  lemma PerformQueue(s: Sys, id: int, op: Op)
    requires QueueOk(s) && id in s.relays
    ensures QueueOk(Perform(s, id, op))
  {
    hide Apply, Drives, Publishes, Subsequence, Stamps, Publish, TakeSnapshot;
    if Publishes(s.relays[id], op, s.now) && !op.Fire? {
      var driven := s.(
        relays := s.relays[id := Apply(s.relays[id], op, s.now)],
        history := s.history +
          (match Drives(s.relays[id], op, s.now)
           case None => []
           case Some(level) => [Transition(s.relays[id].cfg.gpio, level, s.now)]));
      assert QueueOk(driven);
      PublishQueue(driven, TakeSnapshot(Apply(s.relays[id], op, s.now), s.now), Command);
    }
  }

  lemma HousekeepingQueue(s: Sys, a: Action)
    requires QueueOk(s)
    ensures QueueOk(Housekeeping(s, a))
  {
    hide Publish, Subsequence, Stamps;
    match a
    case PublishLate(st) =>
      if st in s.late { PublishQueue(s.(late := s.late - multiset{st}), st, Expiry); }
    case Receive(stream) =>
      if s.queue != [] {
        assert Init(s.received + [Delivery(stream, s.queue[0])]) == s.received;
        assert Delivered(s.received) + [s.queue[0]] + s.queue[1..] == Delivered(s.received) + s.queue;
      }
    case _ =>
  }

  /** In every run the queue stays within its capacity, every event published
      is queued, received or dropped, and what is received and queued is in
      publication order. */
  lemma {:induction false} QueueAccounts(s: Sys, acts: seq<Action>)
    requires QueueOk(s)
    ensures QueueOk(Run(s, acts))
  {
    hide Step, QueueOk;
    if acts == [] {
    } else {
      QueueAccounts(s, Init(acts));
      QueueStep(Run(s, Init(acts)), Last(acts));
    }
  }

  /** `st` is what some relay really looked like at some point of the run. */
  ghost predicate WasReal(s: Sys, acts: seq<Action>, st: Snapshot) {
    exists k: nat, id :: k <= |acts| && RealAt(Run(s, acts[..k]), id, st)
  }

  predicate RealAt(s: Sys, id: int, st: Snapshot) {
    id in s.relays && TakeSnapshot(s.relays[id], s.now) == st
  }

  lemma {:induction false} RealGrows(s: Sys, acts: seq<Action>, st: Snapshot)
    requires acts != [] && WasReal(s, Init(acts), st)
    ensures WasReal(s, acts, st)
  {
    var k: nat, id :| k <= |Init(acts)| && RealAt(Run(s, Init(acts)[..k]), id, st);
    assert Init(acts)[..k] == acts[..k];
  }

  lemma RealNow(s: Sys, acts: seq<Action>, id: int, st: Snapshot)
    requires RealAt(Run(s, acts), id, st)
    ensures WasReal(s, acts, st)
  {
    assert acts[..|acts|] == acts;
  }

  /** A step publishes or sets aside only what was set aside before or what it
      leaves behind. */
  lemma NewEvents(s: Sys, a: Action)
    ensures forall e :: e in Step(s, a).sent ==>
      e in s.sent || e.st in s.late || exists id :: RealAt(Step(s, a), id, e.st)
    ensures forall st :: st in Step(s, a).late ==> st in s.late || exists id :: RealAt(Step(s, a), id, st)
  {
    hide Apply, Drives, Publishes, TakeSnapshot;
    match TargetOf(s, a)
    case Nothing =>
    case Target(id, op) =>
      var after := Apply(s.relays[id], op, s.now);
      assert Step(s, a).relays[id] == after && Step(s, a).now == s.now;
      assert RealAt(Step(s, a), id, TakeSnapshot(after, s.now));
  }

  /** Every event ever published is a state its relay really was in, even the
      ones that expire publishes late. */
  lemma {:induction false} EventsAreReal(s: Sys, acts: seq<Action>)
    requires s.sent == [] && s.late == multiset{}
    ensures forall e :: e in Run(s, acts).sent ==> WasReal(s, acts, e.st)
    ensures forall st :: st in Run(s, acts).late ==> WasReal(s, acts, st)
  {
    hide Step, RealAt, WasReal;
    if acts == [] {
    } else {
      EventsAreReal(s, Init(acts));
      NewEvents(Run(s, Init(acts)), Last(acts));
      forall st | WasReal(s, Init(acts), st)
        ensures WasReal(s, acts, st)
      {
        RealGrows(s, acts, st);
      }
      forall id, st | RealAt(Run(s, acts), id, st)
        ensures WasReal(s, acts, st)
      {
        RealNow(s, acts, id, st);
      }
    }
  }

  /** And no event reports more time left than 0..300000 ms. */
  lemma EventTimesBounded(cfgs: seq<C.Relay>, t0: int, acts: seq<Action>)
    requires C.ValidRelays(cfgs) && AllHttpBounded(acts)
    ensures forall e :: e in Run(Fresh(cfgs, t0), acts).sent ==> 0 <= e.st.remainingMs <= 300_000
  {
    hide Run, Fresh, TakeSnapshot;
    var s := Fresh(cfgs, t0);
    FreshRelays(cfgs, t0);
    EventsAreReal(s, acts);
    forall e | e in Run(s, acts).sent
      ensures 0 <= e.st.remainingMs <= 300_000
    {
      var k: nat, id :| k <= |acts| && RealAt(Run(s, acts[..k]), id, e.st);
      SameKeys(s, acts[..k]);
      assert id in Run(s, acts[..k]).relays.Keys;
      var i :| 0 <= i < |cfgs| && cfgs[i].id == id;
      RemainingBounded(cfgs, t0, acts[..k], i, Run(s, acts[..k]).now);
    }
  }

  /** The events that commands on relay `id` published, in publication order. */
  function CommandEvents(sent: seq<Attempt>, id: int): seq<Snapshot> {
    if sent == [] then []
    else
      CommandEvents(Init(sent), id) +
      if Last(sent).origin.Command? && Last(sent).st.id == id then [Last(sent).st] else []
  }

  /** The states that the successful commands in a relay's own run left behind. */
  function CommandStates(r: Relay, ts: seq<R.Timed>): seq<Snapshot> {
    if ts == [] then []
    else
      var b := R.Run(r, Init(ts));
      var t := Last(ts);
      CommandStates(r, Init(ts)) +
      if !t.op.Fire? && Publishes(b, t.op, t.at) then [TakeSnapshot(Apply(b, t.op, t.at), t.at)] else []
  }

  ghost predicate IdsMatch(s: Sys) {
    forall i :: i in s.relays ==> s.relays[i].cfg.id == i
  }

  /** What a step adds to the publications. */
  function NewlySent(s: Sys, a: Action): seq<Attempt> {
    match TargetOf(s, a)
    case Target(i, op) =>
      if !op.Fire? && Publishes(s.relays[i], op, s.now)
      then [Attempt(TakeSnapshot(Apply(s.relays[i], op, s.now), s.now), Command)] else []
    case Nothing => if a.PublishLate? && a.st in s.late then [Attempt(a.st, Expiry)] else []
  }

  lemma SentGrows(s: Sys, a: Action)
    ensures Step(s, a).sent == s.sent + NewlySent(s, a)
  {
    hide Apply, Drives, Publishes, TakeSnapshot;
  }

  lemma SentStep(s: Sys, a: Action, id: int)
    requires id in s.relays && IdsMatch(s)
    ensures IdsMatch(Step(s, a))
    ensures CommandEvents(Step(s, a).sent, id) == CommandEvents(s.sent, id) +
      match Concerns(s, a, id)
      case None => []
      case Some(op) =>
        if !op.Fire? && Publishes(s.relays[id], op, s.now)
        then [TakeSnapshot(Apply(s.relays[id], op, s.now), s.now)] else []
  {
    hide Apply, Drives, Publishes, TakeSnapshot, Step;
    HistoryStep(s, a);
    SentGrows(s, a);
    assert NewlySent(s, a) != [] ==> Init(Step(s, a).sent) == s.sent;
    assert NewlySent(s, a) == [] ==> Step(s, a).sent == s.sent;
    match TargetOf(s, a)
    case Nothing =>
    case Target(i, op) =>
      DriveSetsLevel(s.relays[i], op, s.now);
      SnapshotId(Apply(s.relays[i], op, s.now), s.now);
  }

  lemma SnapshotId(r: Relay, now: int)
    ensures TakeSnapshot(r, now).id == r.cfg.id
  {
  }

  /** Trigger, On and Off on one relay publish in the order in which they
      changed it, whatever late expiry events come in between. */
  lemma {:induction false} CommandsPublishInOrder(s: Sys, acts: seq<Action>, id: int)
    requires id in s.relays && IdsMatch(s) && s.sent == []
    ensures IdsMatch(Run(s, acts)) && id in Run(s, acts).relays
    ensures CommandEvents(Run(s, acts).sent, id) == CommandStates(s.relays[id], Project(s, acts, id))
  {
    hide Step, Concerns, Apply, Publishes, TakeSnapshot, IdsMatch;
    if acts == [] {
    } else {
      CommandsPublishInOrder(s, Init(acts), id);
      RelaysAreIndependent(s, Init(acts), id);
      RelaysAreIndependent(s, acts, id);
      var b := Run(s, Init(acts));
      SentStep(b, Last(acts), id);
      var p := Project(s, acts, id);
      if Concerns(b, Last(acts), id).Some? {
        assert Init(p) == Project(s, Init(acts), id);
      } else {
        assert p == Project(s, Init(acts), id);
      }
    }
  }

  // ---------- Nothing dropped ----------

  lemma {:induction false} SubsequenceShorter(xs: seq<Snapshot>, ys: seq<Snapshot>)
    requires Subsequence(xs, ys)
    ensures |xs| <= |ys| && (|xs| == |ys| ==> xs == ys)
    decreases |ys|
  {
    if xs == [] || ys == [] {
    } else {
      if Last(xs) == Last(ys) && Subsequence(Init(xs), Init(ys)) { SubsequenceShorter(Init(xs), Init(ys)); }
      if Subsequence(xs, Init(ys)) { SubsequenceShorter(xs, Init(ys)); }
    }
  }

  lemma {:induction false} AllDelivered(received: seq<Delivery>)
    ensures |Delivered(received)| == |received|
  {
    if received == [] {
    } else {
      AllDelivered(Init(received));
    }
  }

  lemma {:induction false} AllStamped(sent: seq<Attempt>)
    ensures |Stamps(sent)| == |sent|
  {
    if sent == [] {
    } else {
      AllStamped(Init(sent));
    }
  }

  /** Action `k` publishes into a full queue. */
  predicate DropsAt(s: Sys, acts: seq<Action>, k: nat) {
    k < |acts| && Drops(At(s, acts, k), acts[k])
  }

  predicate Drops(s: Sys, a: Action) {
    |s.queue| >= 64 && NewlySent(s, a) != []
  }

  lemma DroppedGrows(s: Sys, a: Action)
    ensures Step(s, a).dropped == s.dropped + if Drops(s, a) then 1 else 0
  {
    hide Apply, Drives, Publishes, TakeSnapshot;
  }

  lemma DropsGrow(s: Sys, acts: seq<Action>)
    requires acts != []
    ensures (exists k: nat :: DropsAt(s, acts, k)) <==>
      (exists k: nat :: DropsAt(s, Init(acts), k)) || Drops(Run(s, Init(acts)), Last(acts))
  {
    hide Run, Drops;
    var before, n := Init(acts), |acts| - 1;
    assert forall k :: 0 <= k <= n ==> before[..k] == acts[..k];
    assert acts[..n] == before;
    forall k: nat | k < n
      ensures DropsAt(s, acts, k) <==> DropsAt(s, before, k)
    {
    }
    assert DropsAt(s, acts, n) <==> Drops(Run(s, before), Last(acts));
    if k: nat :| DropsAt(s, before, k) { assert DropsAt(s, acts, k); }
  }

  lemma {:induction false} DroppedIff(s: Sys, acts: seq<Action>)
    requires s.dropped == 0
    ensures Run(s, acts).dropped == 0 <==> !exists k: nat :: DropsAt(s, acts, k)
  {
    hide Step, DropsAt, Drops;
    if acts == [] {
      NoDrops(s);
    } else {
      DroppedIff(s, Init(acts));
      DropsGrow(s, acts);
      DroppedGrows(Run(s, Init(acts)), Last(acts));
    }
  }

  lemma NoDrops(s: Sys)
    ensures !exists k: nat :: DropsAt(s, [], k)
  {
  }

  /** In any run, what is received and queued is everything that was published,
      in order, if and only if nothing was ever published into a queue of 64. */
  lemma NothingDroppedIff(s: Sys, acts: seq<Action>)
    requires QueueOk(s) && s.dropped == 0
    ensures var t := Run(s, acts);
      Delivered(t.received) + t.queue == Stamps(t.sent) <==> !exists k: nat :: DropsAt(s, acts, k)
  {
    hide Run, DropsAt;
    QueueAccounts(s, acts);
    DroppedIff(s, acts);
    var t := Run(s, acts);
    AllDelivered(t.received);
    AllStamped(t.sent);
    SubsequenceShorter(Delivered(t.received) + t.queue, Stamps(t.sent));
  }

  // ---------- One channel, many streams ----------

  /** What one stream has taken. */
  function Seen(received: seq<Delivery>, stream: nat): seq<Snapshot> {
    if received == [] then []
    else Seen(Init(received), stream) + if Last(received).stream == stream then [Last(received).st] else []
  }

  /** Action `k` of the run takes an event for another stream. */
  predicate TakenByOther(s: Sys, acts: seq<Action>, stream: nat, k: nat) {
    k < |acts| && acts[k].Receive? && acts[k].stream != stream && At(s, acts, k).queue != []
  }

  lemma ReceivedGrows(s: Sys, a: Action)
    ensures Step(s, a).received ==
      if a.Receive? && s.queue != [] then s.received + [Delivery(a.stream, s.queue[0])] else s.received
  {
    hide Apply, Drives, Publishes, TakeSnapshot;
  }

  lemma TakenByOtherGrows(s: Sys, acts: seq<Action>, stream: nat)
    requires acts != []
    ensures var b := Run(s, Init(acts));
      (exists k: nat :: TakenByOther(s, acts, stream, k)) <==>
        || (exists k: nat :: TakenByOther(s, Init(acts), stream, k))
        || (Last(acts).Receive? && Last(acts).stream != stream && b.queue != [])
  {
    hide Run;
    var before, n := Init(acts), |acts| - 1;
    assert forall k :: 0 <= k <= n ==> before[..k] == acts[..k];
    assert acts[..n] == before;
    forall k: nat | k < n
      ensures TakenByOther(s, acts, stream, k) <==> TakenByOther(s, before, stream, k)
    {
    }
    assert TakenByOther(s, acts, stream, n) <==>
      Last(acts).Receive? && Last(acts).stream != stream && Run(s, before).queue != [];
    if k: nat :| TakenByOther(s, before, stream, k) { assert TakenByOther(s, acts, stream, k); }
  }

  lemma SeenGrows(received: seq<Delivery>, e: Delivery, stream: nat)
    ensures Seen(received + [e], stream) == Seen(received, stream) + if e.stream == stream then [e.st] else []
    ensures Delivered(received + [e]) == Delivered(received) + [e.st]
  {
    assert Init(received + [e]) == received;
  }

  lemma {:induction false} StreamSees(s: Sys, acts: seq<Action>, stream: nat)
    requires s.received == []
    ensures var r := Run(s, acts).received;
      && |Seen(r, stream)| <= |Delivered(r)|
      && if exists k: nat :: TakenByOther(s, acts, stream, k)
         then |Seen(r, stream)| < |Delivered(r)| else Seen(r, stream) == Delivered(r)
  {
    hide Step, TakenByOther, Seen, Delivered;
    if acts == [] {
      NothingSeen(s, stream);
    } else {
      StreamSees(s, Init(acts), stream);
      TakenByOtherGrows(s, acts, stream);
      var b := Run(s, Init(acts));
      ReceivedGrows(b, Last(acts));
      if Last(acts).Receive? && b.queue != [] {
        SeenGrows(b.received, Delivery(Last(acts).stream, b.queue[0]), stream);
      }
    }
  }

  lemma NothingSeen(s: Sys, stream: nat)
    ensures Seen([], stream) == [] && Delivered([]) == [] && !exists k: nat :: TakenByOther(s, [], stream, k)
  {
  }

  /** All streams share one channel: a stream sees every event that is delivered
      if and only if no other stream has ever taken one. */
  lemma StreamSeesAllIff(s: Sys, acts: seq<Action>, stream: nat)
    requires s.received == []
    ensures var r := Run(s, acts).received;
      Seen(r, stream) == Delivered(r) <==> !exists k: nat :: TakenByOther(s, acts, stream, k)
  {
    hide Run, TakenByOther;
    StreamSees(s, acts, stream);
  }

  // ---------- What the last event tells ----------

  function LastSent(sent: seq<Attempt>, id: int): Option<Attempt> {
    if sent == [] then None
    else if Last(sent).st.id == id then Some(Last(sent))
    else LastSent(Init(sent), id)
  }

  /** Some snapshot of the relay has been taken by expire and not yet published. */
  ghost predicate HasLate(s: Sys, id: int) {
    exists st :: st in s.late && st.id == id
  }

  predicate Agrees(st: Snapshot, r: Relay) {
    st.on == r.on && st.latched == r.latched
  }

  /** Shutdown switches the relay off, and takes no snapshot for publication. */
  predicate Silences(s: Sys, a: Action, id: int) {
    id in s.relays && s.relays[id].on && Concerns(s, a, id).Some? && Concerns(s, a, id).value.Shut?
  }

  /** That happens at `k`, and no snapshot is taken afterwards. */
  predicate SilencedAt(s: Sys, acts: seq<Action>, id: int, k: nat) {
    && k < |acts| && Silences(At(s, acts, k), acts[k], id)
    && forall m: nat :: k < m < |acts| ==> Taken(At(s, acts, m), acts[m], id) == []
  }

  ghost predicate Silenced(s: Sys, acts: seq<Action>, id: int) {
    exists k: nat :: SilencedAt(s, acts, id, k)
  }

  lemma SilencedGrows(s: Sys, acts: seq<Action>, id: int)
    requires acts != []
    ensures var b := Run(s, Init(acts));
      Silenced(s, acts, id) <==>
        Silences(b, Last(acts), id) || (Silenced(s, Init(acts), id) && Taken(b, Last(acts), id) == [])
  {
    hide Run, Taken, Silences;
    var before, n := Init(acts), |acts| - 1;
    assert forall k :: 0 <= k <= n ==> before[..k] == acts[..k];
    assert acts[..n] == before;
    forall k: nat | k < n
      ensures SilencedAt(s, acts, id, k) <==>
        SilencedAt(s, before, id, k) && Taken(Run(s, before), Last(acts), id) == []
    {
      SilencedLonger(s, acts, id, k);
    }
    assert SilencedAt(s, acts, id, n) <==> Silences(Run(s, before), Last(acts), id);
    if k: nat :| SilencedAt(s, before, id, k) { assert k < n; }
  }

  lemma SilencedLonger(s: Sys, acts: seq<Action>, id: int, k: nat)
    requires acts != [] && k < |acts| - 1
    ensures SilencedAt(s, acts, id, k) <==>
      SilencedAt(s, Init(acts), id, k) && Taken(Run(s, Init(acts)), Last(acts), id) == []
  {
    hide Run, Taken, Silences;
    var before, n := Init(acts), |acts| - 1;
    assert forall m :: 0 <= m <= n ==> before[..m] == acts[..m];
    assert acts[..n] == before && acts[n] == Last(acts);
    if SilencedAt(s, before, id, k) && Taken(Run(s, before), Last(acts), id) == [] {
      forall m: nat | k < m < |acts|
        ensures Taken(At(s, acts, m), acts[m], id) == []
      {
        if m < n { assert Taken(At(s, before, m), before[m], id) == []; }
      }
    }
    if SilencedAt(s, acts, id, k) {
      forall m: nat | k < m < n
        ensures Taken(At(s, before, m), before[m], id) == []
      {
        assert Taken(At(s, acts, m), acts[m], id) == [];
      }
      assert Taken(At(s, acts, n), acts[n], id) == [];
    }
  }

  /** Events of expiries say "off"; the last event, if a command's, is right
      unless an expiry has taken effect since and is still to be published, or
      Shutdown has switched the relay off. */
  ghost predicate Told(s: Sys, id: int, silent: bool) {
    && id in s.relays && (silent ==> !s.relays[id].on)
    && (forall st :: st in s.late && st.id == id ==> !st.on && !st.latched)
    && match LastSent(s.sent, id)
       case None => HasLate(s, id) || (!s.relays[id].on && !s.relays[id].latched)
       case Some(e) =>
         && (e.origin.Expiry? ==> !e.st.on && !e.st.latched)
         && (e.origin.Command? ==>
               HasLate(s, id) || if silent then e.st.on else Agrees(e.st, s.relays[id]))
  }

  lemma LateGrows(s: Sys, a: Action)
    ensures Step(s, a).late ==
      match TargetOf(s, a)
      case Target(id, op) =>
        if op.Fire? && Publishes(s.relays[id], op, s.now)
        then s.late + multiset{TakeSnapshot(Apply(s.relays[id], op, s.now), s.now)} else s.late
      case Nothing => if a.PublishLate? && a.st in s.late then s.late - multiset{a.st} else s.late
  {
    hide Apply, Drives, Publishes, TakeSnapshot;
  }

  lemma LastSentGrows(sent: seq<Attempt>, e: Attempt, id: int)
    ensures LastSent(sent + [e], id) == if e.st.id == id then Some(e) else LastSent(sent, id)
  {
    assert Init(sent + [e]) == sent;
  }

  /** What one operation announces, and that every change but Shutdown's is
      announced. */
  lemma OpTells(r: Relay, op: Op, now: int)
    requires Inv(r)
    ensures var a := Apply(r, op, now);
      var st := TakeSnapshot(a, now);
      && st.id == r.cfg.id && Agrees(st, a)
      && (op.Fire? && Publishes(r, op, now) ==> !st.on && !st.latched)
      && (!Publishes(r, op, now) && !op.Shut? ==> a.on == r.on && a.latched == r.latched)
      && (op.Shut? ==> !Publishes(r, op, now) && !a.on && !a.latched)
      && (!r.on ==> !r.latched)
  {
  }

  lemma ToldStep(s: Sys, a: Action, id: int, silent: bool)
    requires Told(s, id, silent) && IdsMatch(s) && Inv(s.relays[id])
    ensures Told(Step(s, a), id, Silences(s, a, id) || (silent && Taken(s, a, id) == []))
  {
    hide Step, TargetOf, Inv, Apply, Publishes, TakeSnapshot, Told, Silences, Taken, NewlySent, HasLate, LastSent;
    assert id in s.relays by { ToldHas(s, id, silent); }
    WhatHappens(s, a, id);
    HistoryStep(s, a);
    SentGrows(s, a);
    SentNow(s, a);
    LateGrows(s, a);
    assert s.sent + [] == s.sent;
    match TargetOf(s, a)
    case Nothing =>
      if a.PublishLate? && a.st in s.late {
        ToldLate(s, a.st, id, Step(s, a), silent);
      } else {
        ToldSame(s, Step(s, a), id, silent);
      }
    case Target(i, op) =>
      SnapshotId(Apply(s.relays[i], op, s.now), s.now);
      DriveSetsLevel(s.relays[i], op, s.now);
      if i == id {
        ToldOwn(s, op, id, Step(s, a), silent);
      } else {
        ToldOther(s, i, op, id, Step(s, a), silent);
      }
  }

  lemma ToldHas(s: Sys, id: int, silent: bool)
    requires Told(s, id, silent)
    ensures id in s.relays
  {
  }

  /** What a step means for one relay. */
  lemma WhatHappens(s: Sys, a: Action, id: int)
    requires id in s.relays
    ensures match TargetOf(s, a)
            case Nothing => !Silences(s, a, id) && Taken(s, a, id) == []
            case Target(i, op) =>
              if i != id then !Silences(s, a, id) && Taken(s, a, id) == []
              else
                && (Silences(s, a, id) <==> op.Shut? && s.relays[id].on)
                && (Taken(s, a, id) == [] <==> !Publishes(s.relays[id], op, s.now))
  {
    hide TargetOf, Publishes, Apply, TakeSnapshot;
  }

  lemma SentNow(s: Sys, a: Action)
    ensures match TargetOf(s, a)
            case Nothing =>
              NewlySent(s, a) == if a.PublishLate? && a.st in s.late then [Attempt(a.st, Expiry)] else []
            case Target(i, op) =>
              NewlySent(s, a) ==
                if !op.Fire? && Publishes(s.relays[i], op, s.now)
                then [Attempt(TakeSnapshot(Apply(s.relays[i], op, s.now), s.now), Command)] else []
  {
    hide TargetOf, Publishes, Apply, TakeSnapshot;
  }

  lemma ToldSame(s: Sys, t: Sys, id: int, silent: bool)
    requires Told(s, id, silent) && t.relays == s.relays && t.sent == s.sent && t.late == s.late
    ensures Told(t, id, silent)
  {
  }

  lemma ToldLate(s: Sys, st: Snapshot, id: int, t: Sys, silent: bool)
    requires Told(s, id, silent) && st in s.late
    requires t.relays == s.relays && t.sent == s.sent + [Attempt(st, Expiry)] && t.late == s.late - multiset{st}
    ensures Told(t, id, silent)
  {
    LastSentGrows(s.sent, Attempt(st, Expiry), id);
    assert forall x :: x in t.late ==> x in s.late;
    assert forall x :: x in s.late && x != st ==> x in t.late;
    if HasLate(s, id) && st.id != id {
      var x :| x in s.late && x.id == id;
      assert x in t.late;
    }
    hide LastSent;
  }

  /** An operation on another relay. */
  lemma ToldOther(s: Sys, i: int, op: Op, id: int, t: Sys, silent: bool)
    requires Told(s, id, silent) && i in s.relays && i != id
    requires var st := TakeSnapshot(Apply(s.relays[i], op, s.now), s.now);
      && st.id != id
      && t.relays == s.relays[i := Apply(s.relays[i], op, s.now)]
      && (t.sent == s.sent || t.sent == s.sent + [Attempt(st, Command)])
      && (t.late == s.late || t.late == s.late + multiset{st})
    ensures Told(t, id, silent)
  {
    hide Apply, TakeSnapshot, LastSent;
    LastSentGrows(s.sent, Attempt(TakeSnapshot(Apply(s.relays[i], op, s.now), s.now), Command), id);
    assert forall x: Snapshot :: x.id == id ==> (x in t.late <==> x in s.late);
  }

  /** An operation on the relay itself. */
  lemma ToldOwn(s: Sys, op: Op, id: int, t: Sys, silent: bool)
    requires Told(s, id, silent) && Inv(s.relays[id]) && s.relays[id].cfg.id == id
    requires var r := s.relays[id];
      var st := TakeSnapshot(Apply(r, op, s.now), s.now);
      && t.relays == s.relays[id := Apply(r, op, s.now)]
      && t.sent == s.sent + (if !op.Fire? && Publishes(r, op, s.now) then [Attempt(st, Command)] else [])
      && t.late == if op.Fire? && Publishes(r, op, s.now) then s.late + multiset{st} else s.late
    ensures Told(
      t, id, (op.Shut? && s.relays[id].on) || (silent && !Publishes(s.relays[id], op, s.now)))
  {
    hide Apply, TakeSnapshot, LastSent, Publishes, Inv;
    var r := s.relays[id];
    var st := TakeSnapshot(Apply(r, op, s.now), s.now);
    OpTells(r, op, s.now);
    LastSentGrows(s.sent, Attempt(st, Command), id);
    assert forall x :: x in s.late ==> x in t.late;
    assert s.sent + [] == s.sent;
  }

  /** The last event of a relay, exactly: in every run whatever in which no expiry
      of the relay is still to be published, the last event published about it, if
      a command's, tells whether it is on and latched unless Shutdown has silently
      switched it off; if an expiry's, exactly if the relay is off; and before the
      first event the relay is off. */
  lemma LastEventTellsIff(cfgs: seq<C.Relay>, t0: int, acts: seq<Action>, i: nat)
    requires C.ValidRelays(cfgs) && i < |cfgs|
    ensures var s, id := Run(Fresh(cfgs, t0), acts), cfgs[i].id;
      && id in s.relays
      && (!HasLate(s, id) ==>
            match LastSent(s.sent, id)
            case None => !s.relays[id].on
            case Some(e) =>
              Agrees(e.st, s.relays[id]) <==>
                if e.origin.Command? then !Silenced(Fresh(cfgs, t0), acts, id) else !s.relays[id].on)
  {
    hide Run, Told, Inv, Sound, Configured, Tidy, LastSent, Fresh, Silenced;
    var s, id := Run(Fresh(cfgs, t0), acts), cfgs[i].id;
    AllTold(cfgs, t0, acts, i);
    ReachableRelay(cfgs, t0, acts, i);
    if !HasLate(s, id) { ToldMeans(s, id, Silenced(Fresh(cfgs, t0), acts, id)); }
  }

  lemma ToldMeans(s: Sys, id: int, silent: bool)
    requires Told(s, id, silent) && Inv(s.relays[id]) && !HasLate(s, id)
    ensures match LastSent(s.sent, id)
            case None => !s.relays[id].on
            case Some(e) =>
              Agrees(e.st, s.relays[id]) <==> if e.origin.Command? then !silent else !s.relays[id].on
  {
    hide LastSent, HasLate;
  }

  lemma {:induction false} AllTold(cfgs: seq<C.Relay>, t0: int, acts: seq<Action>, i: nat)
    requires C.ValidRelays(cfgs) && i < |cfgs|
    ensures var s, id := Fresh(cfgs, t0), cfgs[i].id;
      Told(Run(s, acts), id, Silenced(s, acts, id)) && IdsMatch(Run(s, acts))
  {
    hide Step, Told, Inv, Sound, Configured, Tidy, IdsMatch, Fresh, Silenced, Silences, Taken;
    var s, id := Fresh(cfgs, t0), cfgs[i].id;
    if acts == [] {
      FreshTold(cfgs, t0, i);
      NeverSilenced(s, id);
    } else {
      AllTold(cfgs, t0, Init(acts), i);
      ReachableRelay(cfgs, t0, Init(acts), i);
      var b := Run(s, Init(acts));
      SilencedGrows(s, acts, id);
      ToldStep(b, Last(acts), id, Silenced(s, Init(acts), id));
      SentStep(b, Last(acts), id);
    }
  }

  lemma NeverSilenced(s: Sys, id: int)
    ensures !Silenced(s, [], id)
  {
  }

  lemma FreshTold(cfgs: seq<C.Relay>, t0: int, i: nat)
    requires C.ValidRelays(cfgs) && i < |cfgs|
    ensures Told(Fresh(cfgs, t0), cfgs[i].id, false) && IdsMatch(Fresh(cfgs, t0))
  {
    FreshRelays(cfgs, t0);
    var s := Fresh(cfgs, t0);
    hide Fresh;
    assert s.relays[cfgs[i].id] == NewRelay(cfgs[i]) && s.sent == [] && s.late == multiset{};
  }

  // ---------- What the last announcement tells ----------

  /** Whoever has the last snapshot that was taken for publication. */
  ghost predicate Heard(r: Relay, taken: seq<Attempt>, silent: bool) {
    if taken == [] then !r.on && !r.latched && !silent
    else if silent then !r.on && Last(taken).st.on
    else Agrees(Last(taken).st, r)
  }

  lemma HeardStep(s: Sys, a: Action, id: int, taken: seq<Attempt>, silent: bool)
    requires id in s.relays && Inv(s.relays[id]) && Heard(s.relays[id], taken, silent)
    ensures id in Step(s, a).relays
    ensures Heard(
      Step(s, a).relays[id], taken + Taken(s, a, id), Silences(s, a, id) || (silent && Taken(s, a, id) == []))
  {
    hide Step, TargetOf, Inv, Apply, Publishes, TakeSnapshot;
    HistoryStep(s, a);
    assert taken + [] == taken;
    if Concerns(s, a, id).Some? {
      OpTells(s.relays[id], Concerns(s, a, id).value, s.now);
    }
  }

  lemma {:induction false} AllHeard(cfgs: seq<C.Relay>, t0: int, acts: seq<Action>, i: nat)
    requires C.ValidRelays(cfgs) && i < |cfgs|
    ensures var s, id := Fresh(cfgs, t0), cfgs[i].id;
      id in Run(s, acts).relays && Heard(Run(s, acts).relays[id], AllTaken(s, acts, id), Silenced(s, acts, id))
  {
    hide Step, Heard, Inv, Sound, Configured, Tidy, Fresh, Silenced, Silences, Taken;
    var s, id := Fresh(cfgs, t0), cfgs[i].id;
    FreshRelay(cfgs, t0, i);
    if acts == [] {
      NeverSilenced(s, id);
      HeardAtFirst(cfgs[i]);
    } else {
      AllHeard(cfgs, t0, Init(acts), i);
      ReachableRelay(cfgs, t0, Init(acts), i);
      SilencedGrows(s, acts, id);
      HeardStep(Run(s, Init(acts)), Last(acts), id, AllTaken(s, Init(acts), id), Silenced(s, Init(acts), id));
    }
  }

  lemma HeardAtFirst(cfg: C.Relay)
    ensures Heard(NewRelay(cfg), [], false)
  {
  }

  /** Every change is announced, but for one: in every run, under any driver
      faults, the last snapshot of a relay that was taken for publication disagrees
      with the relay exactly if Shutdown has switched it off since, silently. */
  lemma AnnouncementsTrackStateIff(cfgs: seq<C.Relay>, t0: int, acts: seq<Action>, i: nat)
    requires C.ValidRelays(cfgs) && i < |cfgs|
    ensures var s, id := Fresh(cfgs, t0), cfgs[i].id;
      var taken := AllTaken(s, acts, id);
      && id in Run(s, acts).relays
      && (if taken == [] then !Run(s, acts).relays[id].on && !Silenced(s, acts, id)
          else Agrees(Last(taken).st, Run(s, acts).relays[id]) <==> !Silenced(s, acts, id))
  {
    hide Run, Fresh, Silenced, AllTaken;
    AllHeard(cfgs, t0, acts, i);
  }

  // ---------- The order of the events ----------

  /** The events about a relay, in publication order. */
  function EventsOf(sent: seq<Attempt>, id: int): seq<Attempt> {
    if sent == [] then []
    else EventsOf(Init(sent), id) + if Last(sent).st.id == id then [Last(sent)] else []
  }

  /** The snapshot that a step takes of the relay for publication, if any. */
  function Taken(s: Sys, a: Action, id: int): seq<Attempt> {
    if id !in s.relays then []
    else
      match Concerns(s, a, id)
      case None => []
      case Some(op) =>
        if Publishes(s.relays[id], op, s.now)
        then [Attempt(TakeSnapshot(Apply(s.relays[id], op, s.now), s.now), if op.Fire? then Expiry else Command)]
        else []
  }

  /** The snapshots of a relay in the order in which they are taken, under its
      mutex. */
  function AllTaken(s: Sys, acts: seq<Action>, id: int): seq<Attempt> {
    if acts == [] then [] else AllTaken(s, Init(acts), id) + Taken(Run(s, Init(acts)), Last(acts), id)
  }

  /** Between an expiry and its publication, something else is published about
      the relay. */
  ghost predicate OvertakenAt(s: Sys, acts: seq<Action>, id: int, k: nat) {
    k < |acts| && HasLate(At(s, acts, k), id) && Taken(At(s, acts, k), acts[k], id) != []
  }

  ghost predicate Overtaken(s: Sys, acts: seq<Action>, id: int) {
    exists k: nat :: OvertakenAt(s, acts, id, k)
  }

  /** `x` is the one snapshot of the relay that is still to be published. */
  ghost predicate OnlyLate(s: Sys, id: int, x: Snapshot) {
    x in s.late && x.id == id && s.late[x] == 1 && forall st :: st in s.late && st.id == id ==> st == x
  }

  predicate Differ(xs: seq<Attempt>, ys: seq<Attempt>, k: nat) {
    k < |xs| && k < |ys| && xs[k] != ys[k]
  }

  /** As long as nothing was overtaken, what was taken is what was published and
      perhaps one expiry to come; once something was, the two differ for good. */
  ghost predicate Ordered(s: Sys, id: int, taken: seq<Attempt>, overtaken: bool) {
    && id in s.relays
    && var sent := EventsOf(s.sent, id);
    if overtaken then exists k: nat :: Differ(sent, taken, k)
    else if HasLate(s, id) then
      !s.relays[id].on && exists x :: OnlyLate(s, id, x) && taken == sent + [Attempt(x, Expiry)]
    else taken == sent
  }

  lemma EventsOfGrow(sent: seq<Attempt>, e: Attempt, id: int)
    ensures EventsOf(sent + [e], id) == EventsOf(sent, id) + if e.st.id == id then [e] else []
  {
    assert Init(sent + [e]) == sent;
  }

  lemma OffTakesNoExpiry(r: Relay, op: Op, now: int)
    requires Inv(r) && !r.on
    ensures op.Fire? ==> !Publishes(r, op, now)
    ensures !Publishes(r, op, now) ==> !Apply(r, op, now).on
  {
  }

  lemma ExpiryTurnsOff(r: Relay, op: Op, now: int)
    ensures op.Fire? && Publishes(r, op, now) ==> !Apply(r, op, now).on
  {
  }

  lemma OrderStep(s: Sys, a: Action, id: int, taken: seq<Attempt>, overtaken: bool)
    requires Ordered(s, id, taken, overtaken) && IdsMatch(s) && Inv(s.relays[id])
    ensures Ordered(Step(s, a), id, taken + Taken(s, a, id), overtaken || (HasLate(s, id) && Taken(s, a, id) != []))
  {
    hide Step, TargetOf, Inv, Apply, Publishes, TakeSnapshot, EventsOf, Ordered;
    HistoryStep(s, a);
    SentGrows(s, a);
    LateGrows(s, a);
    assert s.sent + [] == s.sent && taken + [] == taken;
    match TargetOf(s, a)
    case Nothing =>
      if a.PublishLate? && a.st in s.late {
        OrderLate(s, a.st, id, taken, overtaken, Step(s, a));
      } else {
        OrderSame(s, Step(s, a), id, taken, overtaken);
      }
    case Target(i, op) =>
      SnapshotId(Apply(s.relays[i], op, s.now), s.now);
      DriveSetsLevel(s.relays[i], op, s.now);
      if i == id {
        OrderOp(s, op, id, taken, overtaken, Step(s, a));
      } else {
        OrderOther(s, i, op, id, taken, overtaken, Step(s, a));
      }
  }

  lemma OrderSame(s: Sys, t: Sys, id: int, taken: seq<Attempt>, overtaken: bool)
    requires Ordered(s, id, taken, overtaken)
    requires t.relays == s.relays && t.sent == s.sent && t.late == s.late
    ensures Ordered(t, id, taken, overtaken)
  {
    hide EventsOf;
    if !overtaken && HasLate(s, id) {
      var x :| OnlyLate(s, id, x) && taken == EventsOf(s.sent, id) + [Attempt(x, Expiry)];
      assert OnlyLate(t, id, x);
    }
  }

  lemma DifferGrow(xs: seq<Attempt>, ys: seq<Attempt>, us: seq<Attempt>, vs: seq<Attempt>)
    requires exists k: nat :: Differ(xs, ys, k)
    ensures exists k: nat :: Differ(xs + us, ys + vs, k)
  {
    var k: nat :| Differ(xs, ys, k);
    assert Differ(xs + us, ys + vs, k);
  }

  lemma OrderLate(s: Sys, st: Snapshot, id: int, taken: seq<Attempt>, overtaken: bool, t: Sys)
    requires Ordered(s, id, taken, overtaken) && st in s.late
    requires t.relays == s.relays && t.sent == s.sent + [Attempt(st, Expiry)] && t.late == s.late - multiset{st}
    ensures Ordered(t, id, taken, overtaken)
  {
    hide EventsOf;
    EventsOfGrow(s.sent, Attempt(st, Expiry), id);
    assert forall x :: x in t.late ==> x in s.late;
    assert forall x :: x in s.late && x != st ==> x in t.late && t.late[x] == s.late[x];
    if overtaken {
      DifferGrow(EventsOf(s.sent, id), taken, if st.id == id then [Attempt(st, Expiry)] else [], []);
      assert taken + [] == taken;
    } else if HasLate(s, id) {
      var x :| OnlyLate(s, id, x) && taken == EventsOf(s.sent, id) + [Attempt(x, Expiry)];
      if st.id == id {
        assert st == x && x !in t.late;
      } else {
        assert OnlyLate(t, id, x);
        assert EventsOf(t.sent, id) == EventsOf(s.sent, id);
      }
    } else {
      assert st.id != id;
    }
  }

  lemma OrderOther(s: Sys, i: int, op: Op, id: int, taken: seq<Attempt>, overtaken: bool, t: Sys)
    requires Ordered(s, id, taken, overtaken) && i in s.relays && i != id
    requires var st := TakeSnapshot(Apply(s.relays[i], op, s.now), s.now);
      && st.id != id
      && t.relays == s.relays[i := Apply(s.relays[i], op, s.now)]
      && (t.sent == s.sent || t.sent == s.sent + [Attempt(st, Command)])
      && (t.late == s.late || t.late == s.late + multiset{st})
    ensures Ordered(t, id, taken, overtaken)
  {
    hide EventsOf, Apply, TakeSnapshot;
    var st := TakeSnapshot(Apply(s.relays[i], op, s.now), s.now);
    EventsOfGrow(s.sent, Attempt(st, Command), id);
    assert EventsOf(t.sent, id) == EventsOf(s.sent, id);
    assert forall x: Snapshot :: x.id == id ==> t.late[x] == s.late[x];
    if !overtaken && HasLate(s, id) {
      var x :| OnlyLate(s, id, x) && taken == EventsOf(s.sent, id) + [Attempt(x, Expiry)];
      assert OnlyLate(t, id, x);
    }
  }

  lemma OrderOp(s: Sys, op: Op, id: int, taken: seq<Attempt>, overtaken: bool, t: Sys)
    requires Ordered(s, id, taken, overtaken) && Inv(s.relays[id])
    requires var r := s.relays[id];
      var st := TakeSnapshot(Apply(r, op, s.now), s.now);
      && st.id == id && t.relays == s.relays[id := Apply(r, op, s.now)]
      && t.sent == s.sent + (if !op.Fire? && Publishes(r, op, s.now) then [Attempt(st, Command)] else [])
      && t.late == if op.Fire? && Publishes(r, op, s.now) then s.late + multiset{st} else s.late
    ensures var r := s.relays[id];
      var st := TakeSnapshot(Apply(r, op, s.now), s.now);
      var now := if Publishes(r, op, s.now) then [Attempt(st, if op.Fire? then Expiry else Command)] else [];
      Ordered(t, id, taken + now, overtaken || (HasLate(s, id) && now != []))
  {
    hide EventsOf, Apply, TakeSnapshot, Publishes, Inv;
    var r := s.relays[id];
    var st := TakeSnapshot(Apply(r, op, s.now), s.now);
    var sent := EventsOf(s.sent, id);
    ExpiryTurnsOff(r, op, s.now);
    if !r.on { OffTakesNoExpiry(r, op, s.now); }
    EventsOfGrow(s.sent, Attempt(st, Command), id);
    assert s.sent + [] == s.sent && taken + [] == taken && sent + [] == sent;
    if !Publishes(r, op, s.now) {
      OrderQuiet(s, t, id, taken, overtaken);
    } else if overtaken {
      var origin := if op.Fire? then Expiry else Command;
      DifferGrow(sent, taken, if op.Fire? then [] else [Attempt(st, Command)], [Attempt(st, origin)]);
    } else if HasLate(s, id) {
      var x :| OnlyLate(s, id, x) && taken == sent + [Attempt(x, Expiry)];
      assert Differ(sent + [Attempt(st, Command)], taken + [Attempt(st, Command)], |sent|);
    } else if op.Fire? {
      assert forall y :: y in s.late ==> y.id != id;
      assert OnlyLate(t, id, st);
    }
  }

  lemma OrderQuiet(s: Sys, t: Sys, id: int, taken: seq<Attempt>, overtaken: bool)
    requires Ordered(s, id, taken, overtaken)
    requires t.sent == s.sent && t.late == s.late && id in t.relays && (!s.relays[id].on ==> !t.relays[id].on)
    ensures Ordered(t, id, taken, overtaken)
  {
    hide EventsOf;
    if !overtaken && HasLate(s, id) {
      var x :| OnlyLate(s, id, x) && taken == EventsOf(s.sent, id) + [Attempt(x, Expiry)];
      assert OnlyLate(t, id, x);
    }
  }

  lemma OvertakenGrows(s: Sys, acts: seq<Action>, id: int)
    requires acts != []
    ensures var b := Run(s, Init(acts));
      Overtaken(s, acts, id) <==> Overtaken(s, Init(acts), id) || (HasLate(b, id) && Taken(b, Last(acts), id) != [])
  {
    hide Run, Taken, HasLate;
    var before, n := Init(acts), |acts| - 1;
    assert forall k :: 0 <= k <= n ==> before[..k] == acts[..k];
    assert acts[..n] == before;
    forall k: nat | k < n
      ensures OvertakenAt(s, acts, id, k) <==> OvertakenAt(s, before, id, k)
    {
    }
    assert OvertakenAt(s, acts, id, n) <==> HasLate(Run(s, before), id) && Taken(Run(s, before), Last(acts), id) != [];
    if k: nat :| OvertakenAt(s, before, id, k) { assert OvertakenAt(s, acts, id, k); }
  }

  lemma {:induction false} AllOrdered(s: Sys, acts: seq<Action>, id: int)
    requires id in s.relays && Inv(s.relays[id]) && IdsMatch(s) && s.sent == [] && s.late == multiset{}
    ensures IdsMatch(Run(s, acts)) && id in Run(s, acts).relays
    ensures Ordered(Run(s, acts), id, AllTaken(s, acts, id), Overtaken(s, acts, id))
  {
    if acts == [] {
      hide OvertakenAt;
      assert !Overtaken(s, acts, id) by { NothingOvertaken(s, id); }
      assert EventsOf(s.sent, id) == [];
    } else {
      hide Step, Inv, IdsMatch, Ordered, Overtaken, Taken, HasLate;
      AllOrdered(s, Init(acts), id);
      var b := Run(s, Init(acts));
      RelaysAreIndependent(s, Init(acts), id);
      R.RunInv(s.relays[id], Project(s, Init(acts), id));
      OvertakenGrows(s, acts, id);
      OrderStep(b, Last(acts), id, AllTaken(s, Init(acts), id), Overtaken(s, Init(acts), id));
      SentStep(b, Last(acts), id);
      SameKeys(s, acts);
      assert id in Run(s, acts).relays.Keys;
    }
  }

  lemma NothingOvertaken(s: Sys, id: int)
    ensures !Overtaken(s, [], id)
  {
  }

  /** The order of the events about a relay, exactly: in every run whatever, once
      no expiry is still to be published, they were published in the order in which
      they were taken if and only if nothing was published about the relay between
      an expiry and its publication. */
  lemma PublishedInOrderIff(cfgs: seq<C.Relay>, t0: int, acts: seq<Action>, i: nat)
    requires C.ValidRelays(cfgs) && i < |cfgs| && !HasLate(Run(Fresh(cfgs, t0), acts), cfgs[i].id)
    ensures var s, id := Fresh(cfgs, t0), cfgs[i].id;
      EventsOf(Run(s, acts).sent, id) == AllTaken(s, acts, id) <==> !Overtaken(s, acts, id)
  {
    hide Run, Fresh, Overtaken, EventsOf, AllTaken, Inv;
    var s, id := Fresh(cfgs, t0), cfgs[i].id;
    FreshTold(cfgs, t0, i);
    FreshRelays(cfgs, t0);
    NewRelayInv(cfgs[i]);
    AllOrdered(s, acts, id);
  }

  // ---------- Late expiry events ----------

  /** The one reordering that can happen: expire publishes after it has let go
      of the mutex, so a Trigger can slip in between, and the last event in the
      queue then says "off" while the relay is on. */
  lemma ExpiryEventCanBeOvertaken(s: Sys, id: int)
    requires id in s.relays && s.relays[id] == NewRelay(s.relays[id].cfg)
    requires s.relays[id].cfg.enabled && s.queue == [] && s.late == multiset{} && s.phase.Serving?
    ensures exists acts ::
              && Faultless(acts) && BeforeStop(acts) && id in Run(s, acts).relays
              && Run(s, acts).queue != [] && Run(s, acts).late == multiset{}
              && Run(s, acts).relays[id].on && !Last(Run(s, acts).queue).on
  {
    hide Step, TakeSnapshot, NewRelay;
    var d := C.MIN_DURATION_MS * NS_PER_MS;
    var a1 := Do(id, Trigger(d, true));
    var a2 := Tick(d);
    var a3 := Do(id, Fire(Closure(1, s.now + d), true));
    var s3 := Step(Step(Step(s, a1), a2), a3);
    PulseThenExpiry(s, id, d);
    var off := TakeSnapshot(s3.relays[id], s3.now);
    var a4 := PublishLate(off);
    var s5 := Step(Step(s3, a1), a4);
    CommandOvertakes(s3, id, d, off);
    var acts := [a1, a2, a3, a1, a4];
    RunFive(s, a1, a2, a3, a1, a4);
    assert Run(s, acts) == s5;
    assert Faultless(acts) && BeforeStop(acts);
  }

  lemma PulseThenExpiry(s: Sys, id: int, d: int)
    requires id in s.relays && s.relays[id] == NewRelay(s.relays[id].cfg) && s.relays[id].cfg.enabled
    requires s.queue == [] && s.late == multiset{} && d > 0
    ensures var t := Step(Step(Step(s, Do(id, Trigger(d, true))), Tick(d)), Do(id, Fire(Closure(1, s.now + d), true)));
      && id in t.relays && t.relays[id].attached && !t.relays[id].on
      && t.late == multiset{TakeSnapshot(t.relays[id], t.now)} && |t.queue| == 1
      && !TakeSnapshot(t.relays[id], t.now).on
  {
    hide Step, Apply, NewRelay, Publishes, TakeSnapshot;
    var r, fire := s.relays[id], Fire(Closure(1, s.now + d), true);
    var s1 := Step(s, Do(id, Trigger(d, true)));
    TriggerPublishes(s, id, d);
    DoStep(s, id, Trigger(d, true));
    var s2 := Step(s1, Tick(d));
    TickStep(s1, d);
    PulseExpires(r, s.now, d);
    DoStep(s2, id, fire);
    LateGrows(s2, Do(id, fire));
    FireKeepsQueue(s2, id, fire);
  }

  lemma PulseExpires(r: Relay, now: int, d: int)
    requires r == NewRelay(r.cfg) && r.cfg.enabled && d > 0
    ensures var u, fire := Apply(r, Trigger(d, true), now), Fire(Closure(1, now + d), true);
      var t := Apply(u, fire, now + d);
      Publishes(u, fire, now + d) && t.attached && !t.on && !TakeSnapshot(t, now + d).on
  {
    assert Closure(1, now + d) in Apply(r, Trigger(d, true), now).closures;
  }

  lemma FireKeepsQueue(s: Sys, id: int, op: Op)
    requires id in s.relays && op.Fire?
    ensures Step(s, Do(id, op)).queue == s.queue
  {
    hide Apply, Drives, Publishes, TakeSnapshot;
  }

  lemma CommandOvertakes(s: Sys, id: int, d: int, off: Snapshot)
    requires id in s.relays && s.relays[id].attached && !s.relays[id].on
    requires off in s.late && |s.queue| == 1 && !off.on
    ensures var t := Step(Step(s, Do(id, Trigger(d, true))), PublishLate(off));
      id in t.relays && t.relays[id].on && t.queue != [] && Last(t.queue) == off && t.late == s.late - multiset{off}
  {
    var s1 := Step(s, Do(id, Trigger(d, true)));
    hide TakeSnapshot;
    assert s1.relays[id].on && |s1.queue| == 2 && s1.late == s.late;
  }

  lemma RunFive(s: Sys, a: Action, b: Action, c: Action, d: Action, e: Action)
    ensures Run(s, [a, b, c, d, e]) == Step(Step(Step(Step(Step(s, a), b), c), d), e)
  {
    hide Step;
    assert Init([a, b, c, d, e]) == [a, b, c, d];
    assert Init([a, b, c, d]) == [a, b, c];
    assert Init([a, b, c]) == [a, b];
    assert Init([a, b]) == [a];
    assert Init([a]) == [];
    assert Run(s, [a]) == Step(s, a);
    assert Run(s, [a, b]) == Step(Run(s, [a]), b);
    assert Run(s, [a, b, c]) == Step(Run(s, [a, b]), c);
    assert Run(s, [a, b, c, d]) == Step(Run(s, [a, b, c]), d);
  }

  // ---------- Runs that the others decide ----------

  /** A Trigger publishes its state. */
  lemma TriggerPublishes(s: Sys, id: int, d: int)
    requires id in s.relays && s.relays[id] == NewRelay(s.relays[id].cfg) && s.relays[id].cfg.enabled
    requires s.queue == []
    ensures var t := Step(s, Do(id, Trigger(d, true)));
      && id in t.relays && t.relays[id].on && t.late == s.late && t.received == s.received
      && t.phase == s.phase && t.order == s.order && t.relays.Keys == s.relays.Keys
      && |t.queue| == 1 && t.queue[0].id == s.relays[id].cfg.id && t.queue[0].on
  {
    hide MsUntil, PulseLength;
  }

  /** One stream takes an event, and another never sees it. */
  lemma StreamsCompete(cfgs: seq<C.Relay>, t0: int, i: nat)
    requires C.ValidRelays(cfgs) && i < |cfgs| && cfgs[i].enabled
    ensures var t := Run(Fresh(cfgs, t0), [Do(cfgs[i].id, Trigger(0, true)), Receive(1)]);
      Seen(t.received, 0) == [] && |Delivered(t.received)| == 1
  {
    var s, a, b := Fresh(cfgs, t0), Do(cfgs[i].id, Trigger(0, true)), Receive(1);
    FreshRelay(cfgs, t0, i);
    FreshShape(cfgs, t0);
    RunOne(s, [], a);
    RunOne(s, [a], b);
    assert [] + [a] == [a] && [a] + [b] == [a, b] && Run(s, []) == s;
    assert s.queue == [] && s.received == [];
    hide Run, Fresh, Step, NewRelay;
    TriggerPublishes(s, cfgs[i].id, 0);
    ReceivedGrows(Step(s, a), b);
    SeenGrows([], Delivery(1, Step(s, a).queue[0]), 0);
    NothingSeen(s, 0);
    assert [] + [Delivery(1, Step(s, a).queue[0])] == [Delivery(1, Step(s, a).queue[0])];
  }

  /** Shutdown switches a relay off, and the last event keeps saying that it is on. */
  lemma ShutdownIsSilent(cfgs: seq<C.Relay>, t0: int)
    requires C.ValidRelays(cfgs) && cfgs != [] && cfgs[0].enabled
    ensures var t := Run(Fresh(cfgs, t0), [Do(cfgs[0].id, Trigger(0, true)), Advance(true), Advance(true)]);
      && cfgs[0].id in t.relays && !t.relays[cfgs[0].id].on
      && t.late == multiset{} && |t.queue| == 1 && t.queue[0].id == cfgs[0].id && t.queue[0].on
  {
    var s, id, a, b := Fresh(cfgs, t0), cfgs[0].id, Do(cfgs[0].id, Trigger(0, true)), Advance(true);
    FreshRelays(cfgs, t0);
    FreshShape(cfgs, t0);
    var acts := [a, b, b];
    RunThree(s, acts);
    assert s.queue == [] && s.late == multiset{} && s.phase.Serving? && s.order != [] && s.order[0] == id;
    hide Run, Fresh, Step, NewRelay;
    TriggerPublishes(s, id, 0);
    ShutsSilently(Step(s, a), id);
  }

  lemma ShutsSilently(s: Sys, id: int)
    requires id in s.relays && s.phase.Serving? && s.order != [] && s.order[0] == id
    ensures var t := Step(Step(s, Advance(true)), Advance(true));
      id in t.relays && !t.relays[id].on && t.late == s.late && t.queue == s.queue
  {
    var u := Step(s, Advance(true));
    assert u == s.(phase := Stopping(0));
    hide TakeSnapshot;
  }
}
