/**
 The objects that compile a policy into block lists and re-evaluate it when a schedule changes
 (platform/sensor-stream-manager/policy.js:62-224, 297-386). Dictionaries are walked in an arbitrary order.
 */
module PolicyEnforcement {
  import opened Vocabulary
  import opened PolicyRules

  /** The path of one entry in a policy. */
  datatype Key = OfSensor(sensor: Sensor) | OfApp(ip: Ip, topic: Topic) | OfAppSensor(sensor: Sensor, ip: Ip, topic: Topic)

  predicate HasEntry(p: Policy, key: Key) {
    match key
    case OfSensor(s) => s in p.sensorSpecific
    case OfApp(ip, topic) => p.HasApp(ip, topic)
    case OfAppSensor(s, ip, topic) => p.HasAppSensor(s, ip, topic)
  }

  function EntryOf(p: Policy, key: Key): Entry
    requires HasEntry(p, key)
  {
    match key
    case OfSensor(s) => p.sensorSpecific[s]
    case OfApp(ip, topic) => p.appSpecific[ip][topic]
    case OfAppSensor(s, ip, topic) => p.appSensor[s][ip][topic]
  }

  /** When the schedules of the entries `seen` may change next. */
  ghost function Times(p: Policy, seen: iset<Key>, now: int): iset<int> {
    iset key | key in seen && HasEntry(p, key) :: EntryOf(p, key).schedule.nextChange(now)
  }

  /** The entries that compilation at `now` looks at. */
  ghost predicate Looked(p: Policy, now: int, key: Key) {
    match key
    case OfSensor(s) => s in p.sensorSpecific
    case OfApp(ip, topic) => p.HasApp(ip, topic)
    case OfAppSensor(s, ip, topic) => Consults(p, s, ip, topic, now)
  }

  /** The change of an entry that was looked at is a consulted one. */
  lemma LookedIsConsulted(p: Policy, now: int, key: Key)
    requires Looked(p, now, key) && HasEntry(p, key)
    ensures IsConsulted(p, now, EntryOf(p, key).schedule.nextChange(now))
  {
    match key
    case OfSensor(s) => assert p.sensorSpecific[s].schedule.nextChange(now) == EntryOf(p, key).schedule.nextChange(now);
    case OfApp(ip, topic) => assert p.HasApp(ip, topic);
    case OfAppSensor(s, ip, topic) => assert Consults(p, s, ip, topic, now);
  }

  /** A consulted change is that of an entry that is looked at. */
  lemma ConsultedIsLooked(p: Policy, now: int, change: int) returns (key: Key)
    requires IsConsulted(p, now, change)
    ensures Looked(p, now, key) && HasEntry(p, key) && EntryOf(p, key).schedule.nextChange(now) == change
  {
    if s :| s in p.sensorSpecific && p.sensorSpecific[s].schedule.nextChange(now) == change {
      key := OfSensor(s);
    } else if ip, topic :| p.HasApp(ip, topic) && p.appSpecific[ip][topic].schedule.nextChange(now) == change {
      key := OfApp(ip, topic);
    } else {
      var s, ip, topic :| Consults(p, s, ip, topic, now) && p.appSensor[s][ip][topic].schedule.nextChange(now) == change;
      key := OfAppSensor(s, ip, topic);
    }
  }

  lemma TimesOfAll(p: Policy, seen: iset<Key>, now: int)
    requires forall key :: key in seen <==> Looked(p, now, key)
    ensures Times(p, seen, now) == AllChanges(p, now)
  {
    forall change
      ensures change in Times(p, seen, now) <==> IsConsulted(p, now, change)
    {
      if IsConsulted(p, now, change) {
        var key := ConsultedIsLooked(p, now, change);
        assert key in seen;
      }
      if change in Times(p, seen, now) {
        var key :| key in seen && HasEntry(p, key) && EntryOf(p, key).schedule.nextChange(now) == change;
        LookedIsConsulted(p, now, key);
      }
    }
  }

  class PrivacyRule {
    var sensorSpecific: seq<Sensor>
    var appSpecific: map<Ip, seq<Topic>>
    var appSensor: map<Sensor, map<Ip, seq<Topic>>>
    var nextUpdateTime: Option<int>
    /** The entries looked at since the last reset. */
    ghost var seen: iset<Key>

    constructor ()
      ensures Lists() == Rule([], map[], map[]) && nextUpdateTime == None
    {
      sensorSpecific, appSpecific, appSensor, nextUpdateTime, seen := [], map[], map[], None, iset{};
    }

    function Lists(): Rule
      reads this
    {
      Rule(sensorSpecific, appSpecific, appSensor)
    }

    /** The lists hold the blocking ones of the entries seen; the update time is that of their earliest change. */
    ghost predicate Progress(p: Policy, now: int)
      reads this
    {
      && (forall s :: s in sensorSpecific <==> OfSensor(s) in seen && p.BlocksSensor(s, now))
      && (forall ip, topic :: Lists().ListsApp(ip, topic) <==> OfApp(ip, topic) in seen && p.BlocksApp(ip, topic, now))
      && (forall s, ip, topic :: Lists().ListsAppSensor(s, ip, topic) <==>
            OfAppSensor(s, ip, topic) in seen && p.BlocksAppSensor(s, ip, topic, now))
      && IsNextUpdate(nextUpdateTime, Times(p, seen, now))
    }

    /** Compiles all three parts at `now`. */
    method Update(p: Policy, now: int)
      modifies this
      ensures CompiledAt(Lists(), p, now) && ListsBarred(Lists(), p, now)
      ensures IsNextUpdate(nextUpdateTime, AllChanges(p, now))
    {
      sensorSpecific, appSpecific, appSensor, nextUpdateTime, seen := [], map[], map[], None, iset{};
      assert Times(p, seen, now) == iset{};
      UpdateSensorSpecific(p, now);
      UpdateAppSpecific(p, now);
      assert forall key :: key in seen <==> !key.OfAppSensor? && HasEntry(p, key);
      UpdateAppSensor(p, now);
      SeenIsLooked(p, now);
      TimesOfAll(p, seen, now);
      ProgressIsCompiled(p, now);
      CompiledListsBarred(Lists(), p, now);
    }

    ghost predicate AllSeen(p: Policy, now: int)
      reads this
    {
      forall key :: key in seen <==> Looked(p, now, key)
    }

    lemma SeenIsLooked(p: Policy, now: int)
      requires Progress(p, now)
      requires forall key :: key in seen <==>
                 HasEntry(p, key) && (key.OfAppSensor? ==> key.sensor !in sensorSpecific && !Lists().ListsApp(key.ip, key.topic))
      ensures AllSeen(p, now)
    {
    }

    lemma ProgressIsCompiled(p: Policy, now: int)
      requires Progress(p, now) && AllSeen(p, now)
      ensures CompiledAt(Lists(), p, now)
    {
      assert forall s :: OfSensor(s) in seen <==> s in p.sensorSpecific;
      assert forall ip, topic :: OfApp(ip, topic) in seen <==> p.HasApp(ip, topic);
      assert forall s, ip, topic :: OfAppSensor(s, ip, topic) in seen <==> Consults(p, s, ip, topic, now);
    }

    /** Accounts for the schedule of entry `key`. */
    method UpdateNextUpdateTime(p: Policy, key: Key, now: int)
      requires HasEntry(p, key) && IsNextUpdate(nextUpdateTime, Times(p, seen, now))
      modifies this`nextUpdateTime, this`seen
      ensures seen == old(seen) + iset{key} && IsNextUpdate(nextUpdateTime, Times(p, seen, now))
    {
      var candidate := EntryOf(p, key).schedule.nextChange(now);
      UpdateNextTimeKeepsMinimum(nextUpdateTime, Times(p, seen, now), candidate);
      if nextUpdateTime.None? || candidate < nextUpdateTime.value {
        nextUpdateTime := Some(CeilMinute(candidate));
      }
      assert Times(p, seen + iset{key}, now) == Times(p, seen, now) + iset{candidate};
      seen := seen + iset{key};
    }

    method UpdateSensorSpecific(p: Policy, now: int)
      requires Progress(p, now)
      modifies this`sensorSpecific, this`nextUpdateTime, this`seen
      ensures Progress(p, now)
      ensures forall key :: key in seen <==> key in old(seen) || (key.OfSensor? && HasEntry(p, key))
      ensures forall s :: s in sensorSpecific <==> s in p.sensorSpecific && Bars(p.sensorSpecific[s], now)
    {
      var todo := p.sensorSpecific.Keys;
      while todo != {}
        invariant todo <= p.sensorSpecific.Keys && Progress(p, now)
        invariant forall key :: key in seen <==> key in old(seen) || (key.OfSensor? && HasEntry(p, key) && key.sensor !in todo)
      {
        var s :| s in todo;
        todo := todo - {s};
        var entry := p.sensorSpecific[s];
        if entry.schedule.isIn(now) {
          if entry.block {
            sensorSpecific := sensorSpecific + [s];
          }
        } else {
          if !entry.block {
            sensorSpecific := sensorSpecific + [s];
          }
        }
        UpdateNextUpdateTime(p, OfSensor(s), now);
      }
    }

    /** Lists `topic` under gateway `ip`, once. */
    method ListApp(ip: Ip, topic: Topic)
      modifies this`appSpecific
      ensures forall ip', topic' :: Lists().ListsApp(ip', topic') <==>
                old(Lists()).ListsApp(ip', topic') || (ip' == ip && topic' == topic)
    {
      if ip !in appSpecific {
        appSpecific := appSpecific[ip := []];
      }
      if topic !in appSpecific[ip] {
        appSpecific := appSpecific[ip := appSpecific[ip] + [topic]];
      }
    }

    /** The body of the loop over the topics of a gateway. */
    method UpdateApp(p: Policy, ip: Ip, topic: Topic, now: int)
      requires p.HasApp(ip, topic) && Progress(p, now)
      modifies this`appSpecific, this`nextUpdateTime, this`seen
      ensures Progress(p, now) && seen == old(seen) + iset{OfApp(ip, topic)}
      ensures Lists().ListsApp(ip, topic) <==> Bars(p.appSpecific[ip][topic], now)
    {
      var entry := p.appSpecific[ip][topic];
      if entry.schedule.isIn(now) {
        if entry.block {
          ListApp(ip, topic);
        }
      } else {
        if !entry.block {
          ListApp(ip, topic);
        }
      }
      UpdateNextUpdateTime(p, OfApp(ip, topic), now);
    }

    method UpdateAppSpecific(p: Policy, now: int)
      requires Progress(p, now)
      modifies this`appSpecific, this`nextUpdateTime, this`seen
      ensures Progress(p, now)
      ensures forall key :: key in seen <==> key in old(seen) || (key.OfApp? && HasEntry(p, key))
    {
      var gateways := p.appSpecific.Keys;
      while gateways != {}
        invariant gateways <= p.appSpecific.Keys && Progress(p, now)
        invariant forall key :: key in seen <==> key in old(seen) || (key.OfApp? && HasEntry(p, key) && key.ip !in gateways)
      {
        var ip :| ip in gateways;
        gateways := gateways - {ip};
        var topics := p.appSpecific[ip].Keys;
        while topics != {}
          invariant topics <= p.appSpecific[ip].Keys && Progress(p, now)
          invariant forall key :: key in seen <==>
                      key in old(seen)
                      || (key.OfApp? && HasEntry(p, key) && key.ip !in gateways && (key.ip == ip ==> key.topic !in topics))
        {
          var topic :| topic in topics;
          topics := topics - {topic};
          UpdateApp(p, ip, topic, now);
        }
      }
    }

    method ListAppSensor(s: Sensor, ip: Ip, topic: Topic)
      modifies this`appSensor
      ensures forall s', ip', topic' :: Lists().ListsAppSensor(s', ip', topic') <==>
                old(Lists()).ListsAppSensor(s', ip', topic') || (s' == s && ip' == ip && topic' == topic)
    {
      if s !in appSensor {
        appSensor := appSensor[s := map[]];
      }
      if ip !in appSensor[s] {
        appSensor := appSensor[s := appSensor[s][ip := []]];
      }
      if topic !in appSensor[s][ip] {
        appSensor := appSensor[s := appSensor[s][ip := appSensor[s][ip] + [topic]]];
      }
    }

    /** The body of the innermost app-sensor loop; it passes over apps that are blocked already. */
    method UpdateOneAppSensor(p: Policy, s: Sensor, ip: Ip, topic: Topic, now: int)
      requires p.HasAppSensor(s, ip, topic) && Progress(p, now)
      modifies this`appSensor, this`nextUpdateTime, this`seen
      ensures Progress(p, now)
      ensures seen == old(seen) + if Lists().ListsApp(ip, topic) then iset{} else iset{OfAppSensor(s, ip, topic)}
      ensures !Lists().ListsApp(ip, topic) ==> (Lists().ListsAppSensor(s, ip, topic) <==> Bars(p.appSensor[s][ip][topic], now))
    {
      if ip in appSpecific && topic in appSpecific[ip] {
        return;
      }
      var entry := p.appSensor[s][ip][topic];
      if entry.schedule.isIn(now) {
        if entry.block {
          ListAppSensor(s, ip, topic);
        }
      } else {
        if !entry.block {
          ListAppSensor(s, ip, topic);
        }
      }
      UpdateNextUpdateTime(p, OfAppSensor(s, ip, topic), now);
    }

    /** The loops over the gateways and topics of one sensor. */
    method UpdateAppsOfSensor(p: Policy, s: Sensor, now: int)
      requires s in p.appSensor && Progress(p, now)
      modifies this`appSensor, this`nextUpdateTime, this`seen
      ensures Progress(p, now)
      ensures forall key :: key in seen <==>
                key in old(seen)
                || (key.OfAppSensor? && HasEntry(p, key) && key.sensor == s && !Lists().ListsApp(key.ip, key.topic))
    {
      var gateways := p.appSensor[s].Keys;
      while gateways != {}
        invariant gateways <= p.appSensor[s].Keys && Progress(p, now)
        invariant forall key :: key in seen <==>
                    key in old(seen)
                    || (key.OfAppSensor? && HasEntry(p, key) && key.sensor == s && !Lists().ListsApp(key.ip, key.topic)
                        && key.ip !in gateways)
      {
        var ip :| ip in gateways;
        gateways := gateways - {ip};
        var topics := p.appSensor[s][ip].Keys;
        while topics != {}
          invariant topics <= p.appSensor[s][ip].Keys && Progress(p, now)
          invariant forall key :: key in seen <==>
                      key in old(seen)
                      || (key.OfAppSensor? && HasEntry(p, key) && key.sensor == s && !Lists().ListsApp(key.ip, key.topic)
                          && key.ip !in gateways && (key.ip == ip ==> key.topic !in topics))
        {
          var topic :| topic in topics;
          topics := topics - {topic};
          UpdateOneAppSensor(p, s, ip, topic, now);
        }
      }
    }

    /** The app-sensor part; it passes over sensors that are blocked already. */
    method UpdateAppSensor(p: Policy, now: int)
      requires Progress(p, now)
      modifies this`appSensor, this`nextUpdateTime, this`seen
      ensures Progress(p, now)
      ensures forall key :: key in seen <==>
                key in old(seen)
                || (key.OfAppSensor? && HasEntry(p, key) && key.sensor !in sensorSpecific && !Lists().ListsApp(key.ip, key.topic))
    {
      var sensors := p.appSensor.Keys;
      while sensors != {}
        invariant sensors <= p.appSensor.Keys && Progress(p, now)
        invariant forall key :: key in seen <==>
                    key in old(seen)
                    || (key.OfAppSensor? && HasEntry(p, key) && key.sensor !in sensorSpecific && !Lists().ListsApp(key.ip, key.topic)
                        && key.sensor !in sensors)
      {
        var s :| s in sensors;
        sensors := sensors - {s};
        if s in sensorSpecific {
          continue;
        }
        UpdateAppsOfSensor(p, s, now);
      }
    }
  }

  class PolicyEnforcer {
    const rule: PrivacyRule
    var policy: Policy
    /** The instant for which the re-evaluation timer is armed. */
    var timer: Option<int>

    constructor ()
      ensures fresh(rule) && policy == Policy(map[], map[], map[]) && timer == None
      ensures rule.Lists() == Rule([], map[], map[])
    {
      rule := new PrivacyRule();
      policy, timer := Policy(map[], map[], map[]), None;
    }

    method Update(p: Policy, now: int)
      modifies this, rule
      ensures policy == p && CompiledAt(rule.Lists(), p, now) && IsNextUpdate(rule.nextUpdateTime, AllChanges(p, now))
      ensures timer == if rule.nextUpdateTime.Some? then rule.nextUpdateTime else old(timer)
    {
      policy := p;
      EnforcePolicy(now);
    }

    /** The timer's callback, at the instant for which it is armed. */
    method TimerFires(now: int)
      requires timer == Some(now)
      modifies this, rule
      ensures policy == old(policy) && CompiledAt(rule.Lists(), policy, now)
      ensures IsNextUpdate(rule.nextUpdateTime, AllChanges(policy, now)) && timer == rule.nextUpdateTime
    {
      timer := None;
      EnforcePolicy(now);
    }

    /** Recompiles the rule; a timer armed before is replaced only when there is a next update. */
    method EnforcePolicy(now: int)
      modifies this`timer, rule
      ensures CompiledAt(rule.Lists(), policy, now) && IsNextUpdate(rule.nextUpdateTime, AllChanges(policy, now))
      ensures timer == if rule.nextUpdateTime.Some? then rule.nextUpdateTime else old(timer)
    {
      rule.Update(policy, now);
      if rule.nextUpdateTime.Some? {
        timer := rule.nextUpdateTime;
      }
    }

    /** Looks the stream up in the three lists. */
    method IsBlocked(s: Sensor, ip: Ip, topic: Topic) returns (blocked: bool)
      ensures blocked == rule.Lists().Blocks(s, ip, topic)
    {
      if s in rule.sensorSpecific {
        return true;
      }
      if ip in rule.appSpecific && topic in rule.appSpecific[ip] {
        return true;
      }
      if s in rule.appSensor && ip in rule.appSensor[s] && topic in rule.appSensor[s][ip] {
        return true;
      }
      return false;
    }
  }
}
