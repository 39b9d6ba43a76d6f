/**
 Runs of a gateway that routes sensor streams under a privacy policy: policy updates, timer firings, registrations,
 sensor messages and the passing of time in any order
 (platform/sensor-stream-manager/sensor-stream-manager.js:305-318, 344-365, 605-661,
 platform/sensor-stream-manager/policy.js:304-307, 346-385).

 Timers fire on time, and before sensor messages of the same instant.
 */
module PolicyRuns {
  import opened Vocabulary
  import opened PolicyRules
  import R = RouteTables

  datatype Publication = Publication(sensor: Sensor, ip: Ip, topic: Topic, time: int)

  /** `next` is the rule's next update time, `timer` what the timer is armed for, `compiledAt` when the rule was compiled. */
  datatype State = State(
    now: int,
    policy: Policy, rule: Rule, compiledAt: int, next: Option<int>, timer: Option<int>,
    table: R.RouteTable, clients: set<Ip>,
    log: seq<Publication>)

  datatype Step =
    | Tick
    | UpdatePolicy(policy: Policy)
    | PolicyTimer
    | RegisterTopic(ip: Ip, sensors: seq<Sensor>, topic: Topic)
    | DeregisterTopic(ip: Ip, sensors: seq<Sensor>, topic: Topic, pushFirst: bool)
    | SensorMessage(sensor: Sensor)

  /** What a sensor message makes the gateway publish: each stored topic of each connected gateway, unless the rule blocks it. */
  ghost predicate Routes(table: R.RouteTable, clients: set<Ip>, rule: Rule, sensor: Sensor, now: int, sent: seq<Publication>) {
    && (forall k :: 0 <= k < |sent| ==> sent[k].sensor == sensor && sent[k].time == now)
    && forall ip, topic :: multiset(sent)[Publication(sensor, ip, topic, now)] ==
         if ip !in clients || rule.Blocks(sensor, ip, topic) then 0 else R.Count(table, sensor, ip, topic)
  }

  /** The rule and update time of `s'` are those that compiling `p` now gives. */
  ghost predicate Recompiled(s: State, p: Policy, s': State) {
    && CompiledAt(s'.rule, p, s.now) && IsNextUpdate(s'.next, AllChanges(p, s.now))
    && s' == s.(policy := p, rule := s'.rule, compiledAt := s.now, next := s'.next, timer := s'.timer)
  }

  ghost predicate Next(aligned: bool, s: State, step: Step, s': State) {
    match step
    case Tick => s.timer != Some(s.now) && s' == s.(now := s.now + 1)
    case UpdatePolicy(p) =>
      && p.Valid() && (aligned ==> p.MinuteAligned())
      && Recompiled(s, p, s') && s'.timer == (if s'.next.Some? then s'.next else s.timer)
    case PolicyTimer => s.timer == Some(s.now) && Recompiled(s, s.policy, s') && s'.timer == s'.next
    case RegisterTopic(ip, sensors, topic) =>
      s' == s.(clients := s.clients + {ip}, table := R.RegisterAll(s.table, sensors, ip, topic))
    case DeregisterTopic(ip, sensors, topic, pushFirst) =>
      s' == s.(clients := s.clients + {ip}, table := R.DeregisterAll(s.table, sensors, ip, topic, pushFirst))
    case SensorMessage(sensor) =>
      && s.timer != Some(s.now)
      && |s.log| <= |s'.log| && s'.log[..|s.log|] == s.log
      && Routes(s.table, s.clients, s.rule, sensor, s.now, s'.log[|s.log|..])
      && s' == s.(log := s'.log)
  }

  ghost predicate Initial(s: State) {
    && s.policy == Policy(map[], map[], map[]) && s.rule == Rule([], map[], map[]) && s.compiledAt == s.now
    && s.next == None && s.timer == None && s.table == map[] && s.log == []
  }

  ghost predicate Follows(aligned: bool, s: State, s': State) {
    exists step :: Next(aligned, s, step, s')
  }

  ghost predicate Execution(aligned: bool, trace: seq<State>) {
    && |trace| > 0 && Initial(trace[0])
    && forall j, k :: 0 <= j < k < |trace| && k == j + 1 ==> Follows(aligned, trace[j], trace[k])
  }

  ghost predicate Inv(aligned: bool, s: State) {
    && s.policy.Valid() && (aligned ==> s.policy.MinuteAligned())
    && s.compiledAt <= s.now && CompiledAt(s.rule, s.policy, s.compiledAt)
    && IsNextUpdate(s.next, AllChanges(s.policy, s.compiledAt))
    && (s.next.Some? ==> s.timer == s.next)
    && (s.timer.Some? ==> s.now <= s.timer.value)
    && R.Connected(s.table, s.clients)
  }

  lemma RecompiledInv(aligned: bool, s: State, p: Policy, s': State)
    requires Inv(aligned, s) && p.Valid() && (aligned ==> p.MinuteAligned()) && Recompiled(s, p, s')
    requires s'.timer == s'.next || (s'.next.None? && s'.timer == s.timer)
    ensures Inv(aligned, s')
  {
    if s'.next.Some? {
      NextUpdateIsClose(s'.next, AllChanges(p, s.now));
      var m :| IsMinimum(m, AllChanges(p, s.now)) && m <= s'.next.value;
      ChangesAreLater(p, s.now, m);
    }
  }

  lemma NextInv(aligned: bool, s: State, step: Step, s': State)
    requires Inv(aligned, s) && Next(aligned, s, step, s')
    ensures Inv(aligned, s')
  {
    match step
    case Tick =>
    case UpdatePolicy(p) => RecompiledInv(aligned, s, p, s');
    case PolicyTimer => RecompiledInv(aligned, s, s.policy, s');
    case RegisterTopic(ip, sensors, topic) => R.RegisterAllConnected(s.table, sensors, ip, topic, s'.clients);
    case DeregisterTopic(ip, sensors, topic, pushFirst) => R.DeregisterAllConnected(s.table, sensors, ip, topic, pushFirst, s'.clients);
    case SensorMessage(sensor) =>
  }

  lemma {:induction false} ExecutionInv(aligned: bool, trace: seq<State>, k: nat)
    requires Execution(aligned, trace) && k < |trace|
    ensures Inv(aligned, trace[k])
  {
    if k == 0 {
      assert AllChanges(trace[0].policy, trace[0].compiledAt) == iset{};
    } else {
      ExecutionInv(aligned, trace, k - 1);
      assert Follows(aligned, trace[k - 1], trace[k]);
      var step :| Next(aligned, trace[k - 1], step, trace[k]);
      NextInv(aligned, trace[k - 1], step, trace[k]);
    }
  }

  /** Registrations and deregistrations show in the route table, policy updates in the policy, and nothing else does. */
  lemma StepsShow(aligned: bool, s: State, step: Step, s': State, x: Sensor, ip: Ip, topic: Topic)
    requires Next(aligned, s, step, s')
    ensures s'.policy == if step.UpdatePolicy? then step.policy else s.policy
    ensures R.Count(s'.table, x, ip, topic) ==
            match step
            case RegisterTopic(at, sensors, t) =>
              R.Count(s.table, x, ip, topic) + (if at == ip && t == topic then R.Occurrences(sensors, x) else 0)
            case DeregisterTopic(at, sensors, t, pushFirst) =>
              if at == ip && t == topic && !pushFirst then R.Saturating(R.Count(s.table, x, ip, topic), R.Occurrences(sensors, x))
              else R.Count(s.table, x, ip, topic)
            case _ => R.Count(s.table, x, ip, topic)
  {
    match step
    case RegisterTopic(at, sensors, t) => R.RegisterAllCounts(s.table, sensors, at, t, x, ip, topic);
    case DeregisterTopic(at, sensors, t, pushFirst) =>
      if pushFirst {
        R.LiteralDeregisterConserves(s.table, sensors, at, t, x, ip);
      } else {
        R.DeregisterAllCounts(s.table, sensors, at, t, x, ip, topic);
      }
    case _ =>
  }

  /** In every run, a gateway for which a topic is stored is connected: the branch that drops its data is never taken. */
  lemma StoredGatewaysAreConnected(aligned: bool, trace: seq<State>, k: nat, sensor: Sensor, ip: Ip)
    requires Execution(aligned, trace) && k < |trace| && R.TopicsAt(trace[k].table, sensor, ip) != []
    ensures ip in trace[k].clients
  {
    ExecutionInv(aligned, trace, k);
  }

  /**
   With minute-aligned schedules, a sensor message is published to exactly the stored topics that the current policy
   does not block at that very instant, as often as each is stored: nothing else, and nothing withheld.
   */
  lemma MessagesFollowThePolicy(trace: seq<State>, k: nat, sensor: Sensor, ip: Ip, topic: Topic)
    requires Execution(true, trace) && k + 1 < |trace| && Next(true, trace[k], SensorMessage(sensor), trace[k + 1])
    ensures var s, sent := trace[k], trace[k + 1].log[|trace[k].log|..];
      multiset(sent)[Publication(sensor, ip, topic, s.now)] ==
      if s.policy.Blocks(sensor, ip, topic, s.now) then 0 else R.Count(s.table, sensor, ip, topic)
  {
    var s := trace[k];
    ExecutionInv(true, trace, k);
    AlignedUpdatesAreOnTime(s.policy, s.compiledAt, s.next);
    RuleIsValidUntilUpdate(s.rule, s.policy, s.compiledAt, s.next, s.now, sensor, ip, topic);
    if ip !in s.clients {
      assert R.TopicsAt(s.table, sensor, ip) == [];
    }
  }

  /** Step k made entry i of the log, and the policy in force at step k did not block it at that instant. */
  ghost predicate MadeAllowed(trace: seq<State>, k: nat, i: nat)
    requires k + 1 < |trace|
  {
    && |trace[k].log| <= i < |trace[k + 1].log|
    && var e := trace[k + 1].log[i];
       trace[k].now == e.time && !trace[k].policy.Blocks(e.sensor, e.ip, e.topic, e.time)
  }

  lemma LogGrows(aligned: bool, s: State, s': State)
    requires Follows(aligned, s, s')
    ensures s.log <= s'.log
  {
    var step :| Next(aligned, s, step, s');
  }

  lemma NewEntryIsRouted(s: State, step: Step, s': State, i: nat)
    requires Next(true, s, step, s') && |s.log| <= i < |s'.log|
    ensures step == SensorMessage(s'.log[i].sensor) && s'.log[i].time == s.now
    ensures s'.log[i] in multiset(s'.log[|s.log|..])
  {
    assert step.SensorMessage?;
    assert s'.log[i] == s'.log[|s.log|..][i - |s.log|];
  }

  lemma NewPublicationIsAllowed(trace: seq<State>, k: nat, i: nat)
    requires Execution(true, trace) && k + 1 < |trace|
    requires |trace[k].log| <= i < |trace[k + 1].log|
    ensures MadeAllowed(trace, k, i)
  {
    assert Follows(true, trace[k], trace[k + 1]);
    var step :| Next(true, trace[k], step, trace[k + 1]);
    var e := trace[k + 1].log[i];
    NewEntryIsRouted(trace[k], step, trace[k + 1], i);
    MessagesFollowThePolicy(trace, k, e.sensor, e.ip, e.topic);
  }

  /**
   End-to-end safety over a whole run, entry by entry of the log: no stream ever leaves the gateway at an instant at which
   the policy in force blocks it.
   */
  lemma {:induction false} NothingBlockedIsEverPublished(trace: seq<State>, n: nat, i: nat) returns (k: nat)
    requires Execution(true, trace) && n < |trace| && i < |trace[n].log|
    ensures k < n && MadeAllowed(trace, k, i) && trace[k + 1].log[i] == trace[n].log[i]
  {
    assert n > 0;
    assert Follows(true, trace[n - 1], trace[n]);
    LogGrows(true, trace[n - 1], trace[n]);
    if i < |trace[n - 1].log| {
      k := NothingBlockedIsEverPublished(trace, n - 1, i);
    } else {
      k := n - 1;
      NewPublicationIsAllowed(trace, k, i);
    }
  }

  /**
   Entry by entry of the policy: with aligned schedules every publication keeps to each entry that concerned it when it
   was made. One that blocks inside its schedule did not contain that instant; one that only allows inside it did.
   */
  lemma PublicationsKeepToSchedules(trace: seq<State>, n: nat, i: nat) returns (k: nat)
    requires Execution(true, trace) && n < |trace| && i < |trace[n].log|
    ensures k < n && |trace[k].log| <= i < |trace[k + 1].log| && trace[k].now == trace[n].log[i].time
    ensures var p, e := trace[k].policy, trace[n].log[i];
      && (e.sensor in p.sensorSpecific ==>
            p.sensorSpecific[e.sensor].schedule.isIn(e.time) == !p.sensorSpecific[e.sensor].block)
      && (p.HasApp(e.ip, e.topic) ==>
            p.appSpecific[e.ip][e.topic].schedule.isIn(e.time) == !p.appSpecific[e.ip][e.topic].block)
      && (p.HasAppSensor(e.sensor, e.ip, e.topic) ==>
            p.appSensor[e.sensor][e.ip][e.topic].schedule.isIn(e.time) == !p.appSensor[e.sensor][e.ip][e.topic].block)
  {
    k := NothingBlockedIsEverPublished(trace, n, i);
    var e := trace[n].log[i];
    AllowedKeepsToEntries(trace[k].policy, e.sensor, e.ip, e.topic, e.time);
  }

  /** Without alignment, what is published was allowed by the current policy at some instant less than a minute before. */
  lemma PublishedWasAllowedWithinAMinute(trace: seq<State>, k: nat, sensor: Sensor, ip: Ip, topic: Topic) returns (earlier: int)
    requires Execution(false, trace) && k + 1 < |trace| && Next(false, trace[k], SensorMessage(sensor), trace[k + 1])
    requires Publication(sensor, ip, topic, trace[k].now) in trace[k + 1].log[|trace[k].log|..]
    ensures earlier <= trace[k].now < earlier + 60 && !trace[k].policy.Blocks(sensor, ip, topic, earlier)
  {
    var s := trace[k];
    ExecutionInv(false, trace, k);
    earlier := RuleIsAtMostAMinuteStale(s.rule, s.policy, s.compiledAt, s.next, s.now);
    var sent := trace[k + 1].log[|s.log|..];
    assert multiset(sent)[Publication(sensor, ip, topic, s.now)] > 0;
  }
}
