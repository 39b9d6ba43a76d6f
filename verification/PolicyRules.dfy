/**
 Privacy policies, what they mean at an instant, and the block lists compiled from them
 (platform/sensor-stream-manager/policy.js:4-224, 316-333). Time is in seconds.
 */
module PolicyRules {
  import opened Vocabulary

  /** A cron interval: whether it contains an instant, and the next instant at which that may change. */
  datatype Schedule = Schedule(isIn: int -> bool, nextChange: int -> int) {
    ghost predicate Valid() {
      && (forall t :: t < nextChange(t))
      && (forall t, u :: t <= u < nextChange(t) ==> isIn(u) == isIn(t))
    }

    ghost predicate MinuteAligned() {
      forall t :: nextChange(t) % 60 == 0
    }
  }

  /** Block inside the schedule, or (block = false) allow only inside it. */
  datatype Entry = Entry(block: bool, schedule: Schedule) {
    predicate Blocks(t: int) {
      if schedule.isIn(t) then block else !block
    }
  }

  datatype Policy = Policy(
    sensorSpecific: map<Sensor, Entry>,
    appSpecific: map<Ip, map<Topic, Entry>>,
    appSensor: map<Sensor, map<Ip, map<Topic, Entry>>>)
  {
    predicate HasApp(ip: Ip, topic: Topic) {
      ip in appSpecific && topic in appSpecific[ip]
    }

    predicate HasAppSensor(s: Sensor, ip: Ip, topic: Topic) {
      s in appSensor && ip in appSensor[s] && topic in appSensor[s][ip]
    }

    ghost predicate AllSchedules(good: Schedule -> bool) {
      && (forall s :: s in sensorSpecific ==> good(sensorSpecific[s].schedule))
      && (forall ip, topic :: HasApp(ip, topic) ==> good(appSpecific[ip][topic].schedule))
      && (forall s, ip, topic :: HasAppSensor(s, ip, topic) ==> good(appSensor[s][ip][topic].schedule))
    }

    ghost predicate Valid() {
      AllSchedules((c: Schedule) => c.Valid())
    }

    ghost predicate MinuteAligned() {
      AllSchedules((c: Schedule) => c.MinuteAligned())
    }

    // What the policy says at instant t, entry by entry

    predicate BlocksSensor(s: Sensor, t: int) {
      s in sensorSpecific && sensorSpecific[s].Blocks(t)
    }

    predicate BlocksApp(ip: Ip, topic: Topic, t: int) {
      HasApp(ip, topic) && appSpecific[ip][topic].Blocks(t)
    }

    predicate BlocksAppSensor(s: Sensor, ip: Ip, topic: Topic, t: int) {
      HasAppSensor(s, ip, topic) && appSensor[s][ip][topic].Blocks(t)
    }

    /** Direct evaluation: some entry blocks the stream at instant t. */
    predicate Blocks(s: Sensor, ip: Ip, topic: Topic, t: int) {
      BlocksSensor(s, t) || BlocksApp(ip, topic, t) || BlocksAppSensor(s, ip, topic, t)
    }
  }

  /** The compiled block lists. */
  datatype Rule = Rule(
    sensorSpecific: seq<Sensor>,
    appSpecific: map<Ip, seq<Topic>>,
    appSensor: map<Sensor, map<Ip, seq<Topic>>>)
  {
    predicate ListsApp(ip: Ip, topic: Topic) {
      ip in appSpecific && topic in appSpecific[ip]
    }

    predicate ListsAppSensor(s: Sensor, ip: Ip, topic: Topic) {
      s in appSensor && ip in appSensor[s] && topic in appSensor[s][ip]
    }

    predicate Blocks(s: Sensor, ip: Ip, topic: Topic) {
      s in sensorSpecific || ListsApp(ip, topic) || ListsAppSensor(s, ip, topic)
    }
  }

  /**
   The lists of a rule compiled at `now`. An app-sensor entry is left out when its sensor or its app is blocked at
   `now` already, whatever the entry itself says.
   */
  ghost predicate CompiledAt(rule: Rule, p: Policy, now: int) {
    && (forall s :: s in rule.sensorSpecific <==> p.BlocksSensor(s, now))
    && (forall ip, topic :: rule.ListsApp(ip, topic) <==> p.BlocksApp(ip, topic, now))
    && (forall s, ip, topic :: rule.ListsAppSensor(s, ip, topic) <==>
          p.BlocksAppSensor(s, ip, topic, now) && !p.BlocksSensor(s, now) && !p.BlocksApp(ip, topic, now))
  }

  // ---------------------------------------------------------------------------
  // The next update time

  /** The app-sensor entries that compilation at `now` looks at. */
  predicate Consults(p: Policy, s: Sensor, ip: Ip, topic: Topic, now: int) {
    p.HasAppSensor(s, ip, topic) && !p.BlocksSensor(s, now) && !p.BlocksApp(ip, topic, now)
  }

  /** `change` is the next change of some schedule that compilation at `now` consults. */
  ghost predicate IsConsulted(p: Policy, now: int, change: int) {
    || (exists s :: s in p.sensorSpecific && p.sensorSpecific[s].schedule.nextChange(now) == change)
    || (exists ip, topic :: p.HasApp(ip, topic) && p.appSpecific[ip][topic].schedule.nextChange(now) == change)
    || (exists s, ip, topic :: Consults(p, s, ip, topic, now) && p.appSensor[s][ip][topic].schedule.nextChange(now) == change)
  }

  /** The start of the minute that `t` is in or, unless `t` starts a minute, of the next one. */
  function CeilMinute(t: int): int {
    if t % 60 != 0 then t - t % 60 + 60 else t
  }

  function UpdateNextTime(next: Option<int>, candidate: int): Option<int> {
    if next.None? || candidate < next.value then Some(CeilMinute(candidate)) else next
  }

  ghost predicate IsMinimum(m: int, changes: iset<int>) {
    m in changes && forall c :: c in changes ==> m <= c
  }

  /** `next` is the minute-ceiling of the least of `changes`, or None if there is none. */
  ghost predicate IsNextUpdate(next: Option<int>, changes: iset<int>) {
    match next
    case None => changes == iset{}
    case Some(n) => exists m :: IsMinimum(m, changes) && n == CeilMinute(m)
  }

  /** Comparing an unrounded candidate with the rounded value found so far still yields the rounded minimum. */
  lemma UpdateNextTimeKeepsMinimum(next: Option<int>, changes: iset<int>, candidate: int)
    requires IsNextUpdate(next, changes)
    ensures IsNextUpdate(UpdateNextTime(next, candidate), changes + iset{candidate})
  {
    match next
    case None =>
      assert IsMinimum(candidate, changes + iset{candidate});
    case Some(n) =>
      var m :| IsMinimum(m, changes) && n == CeilMinute(m);
      if candidate < m {
        assert IsMinimum(candidate, changes + iset{candidate});
      } else {
        assert IsMinimum(m, changes + iset{candidate});
      }
  }

  /** The update time after looking at candidates in this order. */
  function UpdateTimeOf(candidates: seq<int>): Option<int> {
    if candidates == [] then None
    else UpdateNextTime(UpdateTimeOf(candidates[..|candidates| - 1]), candidates[|candidates| - 1])
  }

  ghost function Members(candidates: seq<int>): iset<int> {
    iset c | c in candidates
  }

  /** In whatever order schedules are looked at, the update time is the minute-ceiling of their least change. */
  lemma {:induction false} UpdateTimeIsCeilingOfMinimum(candidates: seq<int>)
    ensures IsNextUpdate(UpdateTimeOf(candidates), Members(candidates))
  {
    if candidates != [] {
      var front, last := candidates[..|candidates| - 1], candidates[|candidates| - 1];
      UpdateTimeIsCeilingOfMinimum(front);
      UpdateNextTimeKeepsMinimum(UpdateTimeOf(front), Members(front), last);
      assert candidates == front + [last];
      assert Members(candidates) == Members(front) + iset{last};
    }
  }

  /** The update is never before the first change, less than a minute after it, and on it when it is aligned. */
  lemma NextUpdateIsClose(next: Option<int>, changes: iset<int>)
    requires IsNextUpdate(next, changes) && next.Some?
    ensures exists m :: IsMinimum(m, changes) && m <= next.value < m + 60 && (m % 60 == 0 <==> next.value == m)
    ensures next.value % 60 == 0
  {
    var m :| IsMinimum(m, changes) && next.value == CeilMinute(m);
  }

  // ---------------------------------------------------------------------------
  // Blocking inside a schedule, and allowing only inside it

  /** An entry with block set bars the instants of its schedule; one without it bars all others. */
  predicate Bars(e: Entry, t: int) {
    (e.block && e.schedule.isIn(t)) || (!e.block && !e.schedule.isIn(t))
  }

  /** Sensors and apps are listed exactly when their entries bar `now`; app-sensor entries also need neither to be listed. */
  ghost predicate ListsBarred(rule: Rule, p: Policy, now: int) {
    && (forall s :: s in rule.sensorSpecific <==> s in p.sensorSpecific && Bars(p.sensorSpecific[s], now))
    && (forall ip, topic :: rule.ListsApp(ip, topic) <==> p.HasApp(ip, topic) && Bars(p.appSpecific[ip][topic], now))
    && (forall s, ip, topic :: rule.ListsAppSensor(s, ip, topic) <==>
          p.HasAppSensor(s, ip, topic) && Bars(p.appSensor[s][ip][topic], now)
          && s !in rule.sensorSpecific && !rule.ListsApp(ip, topic))
  }

  lemma BlocksExactlyWhenBarred(e: Entry, t: int)
    ensures e.Blocks(t) <==> Bars(e, t)
  {
  }

  lemma CompiledListsBarred(rule: Rule, p: Policy, now: int)
    requires CompiledAt(rule, p, now)
    ensures ListsBarred(rule, p, now)
  {
    forall e: Entry
      ensures e.Blocks(now) <==> Bars(e, now)
    {
      BlocksExactlyWhenBarred(e, now);
    }
  }

  /** A stream that the policy lets through keeps to every entry that concerns it. */
  lemma AllowedKeepsToEntries(p: Policy, s: Sensor, ip: Ip, topic: Topic, t: int)
    ensures !p.Blocks(s, ip, topic, t) <==>
      && (s in p.sensorSpecific ==> !Bars(p.sensorSpecific[s], t))
      && (p.HasApp(ip, topic) ==> !Bars(p.appSpecific[ip][topic], t))
      && (p.HasAppSensor(s, ip, topic) ==> !Bars(p.appSensor[s][ip][topic], t))
  {
  }

  // ---------------------------------------------------------------------------
  // The rule is a valid cache

  lemma EntryUnchanged(e: Entry, now: int, t: int)
    requires e.schedule.Valid() && now <= t < e.schedule.nextChange(now)
    ensures e.Blocks(t) == e.Blocks(now)
  {
  }

  ghost predicate BeforeAllChanges(p: Policy, now: int, t: int) {
    forall change :: IsConsulted(p, now, change) ==> t < change
  }

  /**
   A rule compiled at `now` answers as the policy itself does at every instant before the first consulted change,
   although the schedules of skipped entries were never looked at.
   */
  lemma RuleIsValidUntilFirstChange(rule: Rule, p: Policy, now: int, t: int, s: Sensor, ip: Ip, topic: Topic)
    requires p.Valid() && CompiledAt(rule, p, now) && now <= t && BeforeAllChanges(p, now, t)
    ensures rule.Blocks(s, ip, topic) <==> p.Blocks(s, ip, topic, t)
  {
    if s in p.sensorSpecific {
      assert IsConsulted(p, now, p.sensorSpecific[s].schedule.nextChange(now));
      EntryUnchanged(p.sensorSpecific[s], now, t);
    }
    if p.HasApp(ip, topic) {
      assert IsConsulted(p, now, p.appSpecific[ip][topic].schedule.nextChange(now));
      EntryUnchanged(p.appSpecific[ip][topic], now, t);
    }
    if Consults(p, s, ip, topic, now) {
      assert IsConsulted(p, now, p.appSensor[s][ip][topic].schedule.nextChange(now));
      EntryUnchanged(p.appSensor[s][ip][topic], now, t);
    }
  }

  ghost function AllChanges(p: Policy, now: int): iset<int> {
    iset change | IsConsulted(p, now, change)
  }

  /** The next update is not put off: there is none to do, or it is on the first consulted change itself. */
  ghost predicate UpdateOnTime(p: Policy, now: int, next: Option<int>) {
    next.Some? ==> IsMinimum(next.value, AllChanges(p, now))
  }

  lemma AlignedUpdatesAreOnTime(p: Policy, now: int, next: Option<int>)
    requires p.MinuteAligned() && IsNextUpdate(next, AllChanges(p, now))
    ensures UpdateOnTime(p, now, next)
  {
    if next.Some? {
      var m :| IsMinimum(m, AllChanges(p, now)) && next.value == CeilMinute(m);
      ConsultedChangesAreAligned(p, now, m);
    }
  }

  /** When the update is on time the rule is right at every instant before it. */
  lemma RuleIsValidUntilUpdate(rule: Rule, p: Policy, now: int, next: Option<int>, t: int, s: Sensor, ip: Ip, topic: Topic)
    requires p.Valid() && CompiledAt(rule, p, now) && IsNextUpdate(next, AllChanges(p, now))
    requires UpdateOnTime(p, now, next)
    requires now <= t && (next.Some? ==> t < next.value)
    ensures rule.Blocks(s, ip, topic) <==> p.Blocks(s, ip, topic, t)
  {
    forall change | IsConsulted(p, now, change)
      ensures t < change
    {
      assert change in AllChanges(p, now);
    }
    RuleIsValidUntilFirstChange(rule, p, now, t, s, ip, topic);
  }

  ghost predicate RightUntil(rule: Rule, p: Policy, now: int, end: int) {
    forall t, s, ip, topic :: now <= t < end ==> (rule.Blocks(s, ip, topic) <==> p.Blocks(s, ip, topic, t))
  }

  /** The schedule of the entry turns when it says it may. */
  ghost predicate Flips(e: Entry, now: int, m: int) {
    e.schedule.nextChange(now) == m && e.schedule.isIn(m) != e.schedule.isIn(now)
  }

  /** Some consulted schedule does turn at m. */
  ghost predicate IsRealChange(p: Policy, now: int, m: int) {
    || (exists s :: s in p.sensorSpecific && Flips(p.sensorSpecific[s], now, m))
    || (exists ip, topic :: p.HasApp(ip, topic) && Flips(p.appSpecific[ip][topic], now, m))
    || (exists s, ip, topic :: Consults(p, s, ip, topic, now) && Flips(p.appSensor[s][ip][topic], now, m))
  }

  ghost predicate Differs(p: Policy, now: int, m: int) {
    exists s, ip, topic :: p.Blocks(s, ip, topic, m) != p.Blocks(s, ip, topic, now)
  }

  lemma LongerThanAll(keys: set<string>) returns (longest: string)
    ensures forall k :: k in keys ==> |k| < |longest|
    decreases |keys|
  {
    if keys == {} {
      longest := "";
    } else {
      var k :| k in keys;
      var longer := LongerThanAll(keys - {k});
      longest := longer + k + ".";
    }
  }

  /** A sensor that turns shows at a gateway without entries of its own. */
  lemma SensorChangeShows(p: Policy, now: int, m: int, s: Sensor)
    requires p.BlocksSensor(s, m) != p.BlocksSensor(s, now)
    ensures Differs(p, now, m)
  {
    var ip := LongerThanAll(p.appSpecific.Keys + if s in p.appSensor then p.appSensor[s].Keys else {});
    assert !p.HasApp(ip, "") && !p.HasAppSensor(s, ip, "");
    assert p.Blocks(s, ip, "", m) != p.Blocks(s, ip, "", now);
  }

  /** An app that turns shows on a sensor without entries of its own. */
  lemma AppChangeShows(p: Policy, now: int, m: int, ip: Ip, topic: Topic)
    requires p.BlocksApp(ip, topic, m) != p.BlocksApp(ip, topic, now)
    ensures Differs(p, now, m)
  {
    var s := LongerThanAll(p.sensorSpecific.Keys + p.appSensor.Keys);
    assert !p.BlocksSensor(s, m) && !p.BlocksSensor(s, now) && !p.HasAppSensor(s, ip, topic);
    assert p.Blocks(s, ip, topic, m) != p.Blocks(s, ip, topic, now);
  }

  /** A consulted schedule cannot turn without the policy as a whole answering some question differently. */
  lemma RealChangeShows(p: Policy, now: int, m: int)
    requires IsRealChange(p, now, m)
    ensures Differs(p, now, m)
  {
    if s :| s in p.sensorSpecific && Flips(p.sensorSpecific[s], now, m) {
      SensorChangeShows(p, now, m, s);
    } else if ip, topic :| p.HasApp(ip, topic) && Flips(p.appSpecific[ip][topic], now, m) {
      AppChangeShows(p, now, m, ip, topic);
    } else {
      var s, ip, topic :| Consults(p, s, ip, topic, now) && Flips(p.appSensor[s][ip][topic], now, m);
      if p.BlocksSensor(s, m) {
        SensorChangeShows(p, now, m, s);
      } else if p.BlocksApp(ip, topic, m) {
        AppChangeShows(p, now, m, ip, topic);
      } else {
        assert p.Blocks(s, ip, topic, m) != p.Blocks(s, ip, topic, now);
      }
    }
  }

  /**
   Rounding up is harmless exactly when it does nothing. When some schedule does turn at the first change, the rule is
   right at every instant before the next update iff that change starts a minute.
   */
  lemma RightUntilUpdateExactlyWhenAligned(rule: Rule, p: Policy, now: int, m: int)
    requires p.Valid() && CompiledAt(rule, p, now)
    requires IsMinimum(m, AllChanges(p, now)) && IsRealChange(p, now, m)
    ensures RightUntil(rule, p, now, CeilMinute(m)) <==> m % 60 == 0
  {
    var next := Some(CeilMinute(m));
    assert IsNextUpdate(next, AllChanges(p, now));
    ChangesAreLater(p, now, m);
    if m % 60 == 0 {
      forall t, s, ip, topic | now <= t < CeilMinute(m)
        ensures rule.Blocks(s, ip, topic) <==> p.Blocks(s, ip, topic, t)
      {
        RuleIsValidUntilUpdate(rule, p, now, next, t, s, ip, topic);
      }
    } else {
      RealChangeShows(p, now, m);
      var s, ip, topic :| p.Blocks(s, ip, topic, m) != p.Blocks(s, ip, topic, now);
      assert rule.Blocks(s, ip, topic) == p.Blocks(s, ip, topic, now);
      assert now <= m < CeilMinute(m);
    }
  }

  lemma ConsultedChangesAreAligned(p: Policy, now: int, change: int)
    requires p.MinuteAligned() && IsConsulted(p, now, change)
    ensures change % 60 == 0
  {
  }

  /**
   Whatever the alignment, the rule answers before the next update as the policy did at some instant less than a
   minute earlier.
   */
  lemma RuleIsAtMostAMinuteStale(rule: Rule, p: Policy, now: int, next: Option<int>, t: int)
      returns (earlier: int)
    requires p.Valid() && CompiledAt(rule, p, now) && IsNextUpdate(next, AllChanges(p, now))
    requires now <= t && (next.Some? ==> t < next.value)
    ensures now <= earlier <= t < earlier + 60
    ensures forall s, ip, topic :: rule.Blocks(s, ip, topic) <==> p.Blocks(s, ip, topic, earlier)
  {
    earlier := t;
    if next.Some? {
      NextUpdateIsClose(next, AllChanges(p, now));
      var m :| IsMinimum(m, AllChanges(p, now)) && m <= next.value < m + 60;
      ChangesAreLater(p, now, m);
      earlier := if t < m then t else m - 1;
    }
    forall change | IsConsulted(p, now, change)
      ensures earlier < change
    {
      assert change in AllChanges(p, now);
    }
    forall s, ip, topic
      ensures rule.Blocks(s, ip, topic) <==> p.Blocks(s, ip, topic, earlier)
    {
      RuleIsValidUntilFirstChange(rule, p, now, earlier, s, ip, topic);
    }
  }

  lemma ChangesAreLater(p: Policy, now: int, change: int)
    requires p.Valid() && IsConsulted(p, now, change)
    ensures now < change
  {
  }

  /** A schedule that begins at second 30. */
  function FromSecondThirty(): Schedule {
    Schedule((t: int) => t >= 30, (t: int) => if t < 30 then 30 else t + 60)
  }

  lemma ChangesOfOne(c: Schedule)
    ensures AllChanges(Policy(map["s" := Entry(true, c)], map[], map[]), 0) == iset{c.nextChange(0)}
  {
    var p := Policy(map["s" := Entry(true, c)], map[], map[]);
    assert p.sensorSpecific["s"].schedule.nextChange(0) == c.nextChange(0);
  }

  /** Without alignment the rule can be wrong before the next update: a block from second 30 on starts at second 60. */
  lemma UnalignedRuleCanBeWrong()
    ensures var p, rule := Policy(map["s" := Entry(true, FromSecondThirty())], map[], map[]), Rule([], map[], map[]);
      && p.Valid() && CompiledAt(rule, p, 0) && IsNextUpdate(Some(60), AllChanges(p, 0))
      && p.Blocks("s", "ip", "app", 30) && !rule.Blocks("s", "ip", "app")
  {
    var p := Policy(map["s" := Entry(true, FromSecondThirty())], map[], map[]);
    ChangesOfOne(FromSecondThirty());
    assert IsMinimum(30, AllChanges(p, 0)) && CeilMinute(30) == 60;
    assert FromSecondThirty().Valid();
  }
}
