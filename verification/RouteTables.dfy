/**
 The sensor stream route table: sensor id -> gateway ip -> application topics
 (platform/sensor-stream-manager/sensor-stream-manager.js:21-54, 380-395).
 */
module RouteTables {
  import opened Vocabulary

  type RouteTable = map<Sensor, map<Ip, seq<Topic>>>

  function TopicsAt(table: RouteTable, s: Sensor, ip: Ip): seq<Topic> {
    if s in table && ip in table[s] then table[s][ip] else []
  }

  /** How often `topic` is stored for sensor `s` at gateway `ip`. */
  function Count(table: RouteTable, s: Sensor, ip: Ip, topic: Topic): nat {
    multiset(TopicsAt(table, s, ip))[topic]
  }

  function Occurrences(sensors: seq<Sensor>, s: Sensor): nat {
    multiset(sensors)[s]
  }

  function SetTopics(table: RouteTable, s: Sensor, ip: Ip, topics: seq<Topic>): RouteTable {
    table[s := (if s in table then table[s] else map[])[ip := topics]]
  }

  // ---------------------------------------------------------------------------
  // The steps for one sensor

  function Register(table: RouteTable, s: Sensor, ip: Ip, topic: Topic): RouteTable {
    SetTopics(table, s, ip, TopicsAt(table, s, ip) + [topic])
  }

  /** Splices out the first occurrence, if there is one. */
  function RemoveFirst(topics: seq<Topic>, topic: Topic): seq<Topic> {
    if topics == [] then []
    else if topics[0] == topic then topics[1..]
    else [topics[0]] + RemoveFirst(topics[1..], topic)
  }

  /**
   Removing a topic. The source pushes the topic (line 44) before it removes one occurrence;
   `pushFirst` selects that literal step, `!pushFirst` the intended one without line 44.
   */
  function Deregister(table: RouteTable, s: Sensor, ip: Ip, topic: Topic, pushFirst: bool): RouteTable {
    if s in table && ip in table[s]
    then SetTopics(table, s, ip, RemoveFirst(table[s][ip] + (if pushFirst then [topic] else []), topic))
    else table
  }

  // ---------------------------------------------------------------------------
  // The loops over a list of sensors

  function RegisterAll(table: RouteTable, sensors: seq<Sensor>, ip: Ip, topic: Topic): RouteTable {
    if sensors == [] then table
    else Register(RegisterAll(table, sensors[..|sensors| - 1], ip, topic), sensors[|sensors| - 1], ip, topic)
  }

  function DeregisterAll(table: RouteTable, sensors: seq<Sensor>, ip: Ip, topic: Topic, pushFirst: bool): RouteTable {
    if sensors == [] then table
    else Deregister(DeregisterAll(table, sensors[..|sensors| - 1], ip, topic, pushFirst),
                    sensors[|sensors| - 1], ip, topic, pushFirst)
  }

  lemma RemoveFirstCounts(topics: seq<Topic>, topic: Topic)
    ensures multiset(RemoveFirst(topics, topic)) == multiset(topics) - multiset{topic}
  {
    if topics != [] {
      assert topics == [topics[0]] + topics[1..];
      if topics[0] != topic {
        RemoveFirstCounts(topics[1..], topic);
      }
    }
  }

  lemma SetTopicsAt(table: RouteTable, s: Sensor, ip: Ip, topics: seq<Topic>, s': Sensor, ip': Ip)
    ensures TopicsAt(SetTopics(table, s, ip, topics), s', ip') ==
            if s' == s && ip' == ip then topics else TopicsAt(table, s', ip')
  {
  }

  lemma SetTopicsTwice(table: RouteTable, s: Sensor, ip: Ip, first: seq<Topic>, second: seq<Topic>)
    ensures SetTopics(SetTopics(table, s, ip, first), s, ip, second) == SetTopics(table, s, ip, second)
    ensures s in table && ip in table[s] ==> SetTopics(table, s, ip, table[s][ip]) == table
  {
    var row := if s in table then table[s] else map[];
    assert row[ip := first][ip := second] == row[ip := second];
    if s in table && ip in table[s] {
      assert table[s][ip := table[s][ip]] == table[s];
    }
  }

  /** One removal step, on every topic multiset. */
  lemma DeregisterStep(table: RouteTable, removed: Sensor, ip: Ip, topic: Topic, pushFirst: bool, s: Sensor, ip': Ip)
    ensures multiset(TopicsAt(Deregister(table, removed, ip, topic, pushFirst), s, ip')) ==
            if s == removed && ip' == ip && !pushFirst
            then multiset(TopicsAt(table, s, ip')) - multiset{topic}
            else multiset(TopicsAt(table, s, ip'))
  {
    var topics := TopicsAt(table, removed, ip);
    if removed in table && ip in table[removed] {
      var pushed := table[removed][ip] + (if pushFirst then [topic] else []);
      RemoveFirstCounts(pushed, topic);
      SetTopicsAt(table, removed, ip, RemoveFirst(pushed, topic), s, ip');
      assert pushed == if pushFirst then topics + [topic] else topics;
    }
  }

  /** One registration step. */
  lemma RegisterStep(table: RouteTable, added: Sensor, ip: Ip, topic: Topic, s: Sensor, ip': Ip, topic': Topic)
    ensures Count(Register(table, added, ip, topic), s, ip', topic') ==
            Count(table, s, ip', topic') + (if s == added && ip' == ip && topic' == topic then 1 else 0)
  {
    SetTopicsAt(table, added, ip, TopicsAt(table, added, ip) + [topic], s, ip');
  }

  lemma OccurrencesSnoc(sensors: seq<Sensor>, s: Sensor)
    requires sensors != []
    ensures Occurrences(sensors, s) ==
            Occurrences(sensors[..|sensors| - 1], s) + (if sensors[|sensors| - 1] == s then 1 else 0)
  {
    assert sensors == sensors[..|sensors| - 1] + [sensors[|sensors| - 1]];
  }

  function Saturating(a: nat, b: nat): nat { if a > b then a - b else 0 }

  /** Registering adds one occurrence per listed sensor and touches no other gateway or topic. */
  lemma {:induction false} RegisterAllCounts(table: RouteTable, sensors: seq<Sensor>, ip: Ip, topic: Topic,
                                             s: Sensor, ip': Ip, topic': Topic)
    ensures Count(RegisterAll(table, sensors, ip, topic), s, ip', topic') ==
            Count(table, s, ip', topic') + (if ip' == ip && topic' == topic then Occurrences(sensors, s) else 0)
  {
    if sensors != [] {
      var front, last := sensors[..|sensors| - 1], sensors[|sensors| - 1];
      RegisterAllCounts(table, front, ip, topic, s, ip', topic');
      OccurrencesSnoc(sensors, s);
      RegisterStep(RegisterAll(table, front, ip, topic), last, ip, topic, s, ip', topic');
    }
  }

  /** The intended removal takes out as many occurrences as there are listings of the sensor, or all there are. */
  lemma {:induction false} DeregisterAllCounts(table: RouteTable, sensors: seq<Sensor>, ip: Ip, topic: Topic,
                                               s: Sensor, ip': Ip, topic': Topic)
    ensures Count(DeregisterAll(table, sensors, ip, topic, false), s, ip', topic') ==
            if ip' == ip && topic' == topic
            then Saturating(Count(table, s, ip', topic'), Occurrences(sensors, s))
            else Count(table, s, ip', topic')
  {
    if sensors != [] {
      var front, last := sensors[..|sensors| - 1], sensors[|sensors| - 1];
      DeregisterAllCounts(table, front, ip, topic, s, ip', topic');
      OccurrencesSnoc(sensors, s);
      DeregisterStep(DeregisterAll(table, front, ip, topic, false), last, ip, topic, false, s, ip');
    }
  }

  /** The literal removal leaves every topic multiset of the table as it was. */
  lemma {:induction false} LiteralDeregisterConserves(table: RouteTable, sensors: seq<Sensor>, ip: Ip, topic: Topic,
                                                      s: Sensor, ip': Ip)
    ensures multiset(TopicsAt(DeregisterAll(table, sensors, ip, topic, true), s, ip')) ==
            multiset(TopicsAt(table, s, ip'))
  {
    if sensors != [] {
      var front, last := sensors[..|sensors| - 1], sensors[|sensors| - 1];
      LiteralDeregisterConserves(table, front, ip, topic, s, ip');
      DeregisterStep(DeregisterAll(table, front, ip, topic, true), last, ip, topic, true, s, ip');
    }
  }

  /** Intended deregistration undoes registration, on every topic multiset of the table. */
  lemma DeregisterUndoesRegister(table: RouteTable, sensors: seq<Sensor>, ip: Ip, topic: Topic, s: Sensor, ip': Ip)
    ensures multiset(TopicsAt(DeregisterAll(RegisterAll(table, sensors, ip, topic), sensors, ip, topic, false), s, ip')) ==
            multiset(TopicsAt(table, s, ip'))
  {
    var after := DeregisterAll(RegisterAll(table, sensors, ip, topic), sensors, ip, topic, false);
    forall topic'
      ensures multiset(TopicsAt(after, s, ip'))[topic'] == multiset(TopicsAt(table, s, ip'))[topic']
    {
      RegisterAllCounts(table, sensors, ip, topic, s, ip', topic');
      DeregisterAllCounts(RegisterAll(table, sensors, ip, topic), sensors, ip, topic, s, ip', topic');
      assert Count(after, s, ip', topic') == Count(table, s, ip', topic');
    }
  }

  /**
   Exactly when the code as written undoes a registration: when there was nothing to undo. A caller that
   registers any sensor at all is left with the topic in the table.
   */
  lemma LiteralUndoesOnlyNothing(table: RouteTable, sensors: seq<Sensor>, ip: Ip, topic: Topic)
    ensures (forall s, ip' :: multiset(TopicsAt(DeregisterAll(RegisterAll(table, sensors, ip, topic), sensors, ip, topic, true), s, ip'))
                           == multiset(TopicsAt(table, s, ip')))
        <==> sensors == []
  {
    if sensors != [] {
      var s := sensors[0];
      var after := DeregisterAll(RegisterAll(table, sensors, ip, topic), sensors, ip, topic, true);
      LiteralDeregisterConserves(RegisterAll(table, sensors, ip, topic), sensors, ip, topic, s, ip);
      RegisterAllCounts(table, sensors, ip, topic, s, ip, topic);
      assert s in multiset(sensors);
      assert Count(after, s, ip, topic) > Count(table, s, ip, topic);
    }
  }

  // ---------------------------------------------------------------------------
  // Every gateway of the table has an MQTT client

  ghost predicate Connected(table: RouteTable, clients: set<Ip>) {
    forall s, ip :: s in table && ip in table[s] ==> ip in clients
  }

  lemma {:induction false} RegisterAllConnected(table: RouteTable, sensors: seq<Sensor>, ip: Ip, topic: Topic, clients: set<Ip>)
    requires Connected(table, clients) && ip in clients
    ensures Connected(RegisterAll(table, sensors, ip, topic), clients)
  {
    if sensors != [] {
      RegisterAllConnected(table, sensors[..|sensors| - 1], ip, topic, clients);
    }
  }

  lemma {:induction false} DeregisterAllConnected(table: RouteTable, sensors: seq<Sensor>, ip: Ip, topic: Topic,
                                                  pushFirst: bool, clients: set<Ip>)
    requires Connected(table, clients)
    ensures Connected(DeregisterAll(table, sensors, ip, topic, pushFirst), clients)
  {
    if sensors != [] {
      DeregisterAllConnected(table, sensors[..|sensors| - 1], ip, topic, pushFirst, clients);
    }
  }
}
