/**
 The tables of the sensor stream manager and the handlers that change them
 (platform/sensor-stream-manager/sensor-stream-manager.js). Each handler is proved against the functions on which the
 failover protocol (module Failover) and the policy runs (module PolicyRuns) are built. Requests to other gateways,
 link graph requests and publications are recorded instead of performed.
 */
module SensorStreams {
  import opened Vocabulary
  import opened RouteTables
  import opened HeartbeatKeys
  import opened RecoverySteps
  import A = Allocation
  import P = PolicyEnforcement
  import Rules = PolicyRules
  import Runs = PolicyRuns

  datatype StreamRequest = StreamRequest(sensorIds: seq<Sensor>, mapping: seq<A.Share>)

  class SensorStreamManager {
    const localIp: Ip
    const policyHelper: P.PolicyEnforcer

    var routeTable: RouteTable
    var mqttClients: set<Ip>
    /** Heartbeat topics with a stored interval handle, and how many intervals run for each. */
    var heartbeatPublishTimers: set<string>
    var runningIntervals: map<string, nat>

    var requests: map<Topic, StreamRequest>
    /** Heartbeat topic -> instant at which the failure handler runs. */
    var heartbeatDiagnosticTimers: map<string, int>

    /** Requests sent to other gateways, recoveries waiting for a link graph, and data published. */
    var sent: Channels
    var recovering: multiset<Topic>
    var published: seq<Runs.Publication>

    constructor (ip: Ip)
      ensures localIp == ip && Valid() && fresh(policyHelper) && fresh(policyHelper.rule)
      ensures routeTable == map[] && requests == map[] && heartbeatDiagnosticTimers == map[] && sent == map[]
      ensures Forwarding() == Forwarder(map[], map[], {}) && recovering == multiset{} && published == []
    {
      localIp := ip;
      policyHelper := new P.PolicyEnforcer();
      routeTable, mqttClients, heartbeatPublishTimers, runningIntervals := map[], {ip}, {}, map[];
      requests, heartbeatDiagnosticTimers, sent, recovering, published := map[], map[], map[], multiset{}, [];
    }

    ghost predicate Valid()
      reads this
    {
      && localIp in mqttClients && Connected(routeTable, mqttClients)
      && (forall topic :: topic in recovering ==> topic in requests)
      && (forall topic :: topic in requests ==> A.DistinctIps(requests[topic].mapping))
    }

    function Forwarding(): Forwarder
      reads this
    {
      Forwarder(routeTable, runningIntervals, heartbeatPublishTimers)
    }

    // -------------------------------------------------------------------------
    // The route table

    method RegisterSensor(ip: Ip, id: Sensor, topic: Topic)
      modifies this`routeTable
      ensures routeTable == Register(old(routeTable), id, ip, topic)
    {
      ghost var before := routeTable;
      ghost var topics := TopicsAt(before, id, ip) + [topic];
      if id !in routeTable {
        routeTable := routeTable[id := map[]];
      }
      assert SetTopics(routeTable, id, ip, topics) == SetTopics(before, id, ip, topics);
      SetTopicsTwice(routeTable, id, ip, [], topics);
      if ip !in routeTable[id] {
        routeTable := SetTopics(routeTable, id, ip, []);
      }
      assert routeTable[id][ip] == TopicsAt(before, id, ip);
      routeTable := SetTopics(routeTable, id, ip, routeTable[id][ip] + [topic]);
    }

    method RegisterToLocalGateway(ip: Ip, sensorIds: seq<Sensor>, topic: Topic)
      modifies this`routeTable
      ensures routeTable == RegisterAll(old(routeTable), sensorIds, ip, topic)
    {
      for i := 0 to |sensorIds|
        invariant routeTable == RegisterAll(old(routeTable), sensorIds[..i], ip, topic)
      {
        assert sensorIds[..i + 1][..i] == sensorIds[..i];
        RegisterSensor(ip, sensorIds[i], topic);
      }
      assert sensorIds[..|sensorIds|] == sensorIds;
    }

    /** `pushFirst` is the source as written; without it, the removal that the function is for. */
    method DeregisterSensor(ip: Ip, id: Sensor, topic: Topic, pushFirst: bool)
      modifies this`routeTable
      ensures routeTable == Deregister(old(routeTable), id, ip, topic, pushFirst)
    {
      if id !in routeTable || ip !in routeTable[id] {
        return;
      }
      if pushFirst {
        routeTable := SetTopics(routeTable, id, ip, routeTable[id][ip] + [topic]);
      } else {
        assert old(routeTable)[id][ip] + [] == old(routeTable)[id][ip];
      }
      var topics := routeTable[id][ip];
      SetTopicsTwice(old(routeTable), id, ip, topics, RemoveFirst(topics, topic));
      var index := IndexOf(topics, topic);
      if index < |topics| {
        routeTable := SetTopics(routeTable, id, ip, topics[..index] + topics[index + 1..]);
      }
    }

    method DeregisterFromLocalGateway(ip: Ip, sensorIds: seq<Sensor>, topic: Topic, pushFirst: bool)
      modifies this`routeTable
      ensures routeTable == DeregisterAll(old(routeTable), sensorIds, ip, topic, pushFirst)
    {
      for i := 0 to |sensorIds|
        invariant routeTable == DeregisterAll(old(routeTable), sensorIds[..i], ip, topic, pushFirst)
      {
        assert sensorIds[..i + 1][..i] == sensorIds[..i];
        DeregisterSensor(ip, sensorIds[i], topic, pushFirst);
      }
      assert sensorIds[..|sensorIds|] == sensorIds;
    }

    static method IndexOf(topics: seq<Topic>, topic: Topic) returns (index: nat)
      ensures index <= |topics| && topic !in topics[..index]
      ensures RemoveFirst(topics, topic) == if index < |topics| then topics[..index] + topics[index + 1..] else topics
      ensures index < |topics| ==> topics[index] == topic
    {
      index := 0;
      while index < |topics| && topics[index] != topic
        invariant index <= |topics| && topic !in topics[..index]
      {
        index := index + 1;
      }
      RemoveFirstSplices(topics, topic, index);
    }

    /** register-topic: another gateway asks for streams, with heartbeats on `heartbeatTopic`. */
    method OnRegisterTopic(ip: Ip, sensorIds: seq<Sensor>, topic: Topic, heartbeatTopic: string)
      requires Valid()
      modifies this`routeTable, this`mqttClients, this`heartbeatPublishTimers, this`runningIntervals
      ensures Valid() && mqttClients == old(mqttClients) + {ip}
      ensures Forwarding() == RegisterTopic(old(Forwarding()), ip, topic, sensorIds, heartbeatTopic)
    {
      mqttClients := mqttClients + {ip};
      RegisterAllConnected(routeTable, sensorIds, ip, topic, mqttClients);
      RegisterToLocalGateway(ip, sensorIds, topic);
      var intervals := if heartbeatTopic in runningIntervals then runningIntervals[heartbeatTopic] else 0;
      runningIntervals := runningIntervals[heartbeatTopic := intervals + 1];
      heartbeatPublishTimers := heartbeatPublishTimers + {heartbeatTopic};
    }

    /** Clears the stored interval of a heartbeat topic, if there is one. */
    method StopHeartbeats(heartbeatTopic: string)
      modifies this`heartbeatPublishTimers, this`runningIntervals
      ensures Forwarding() == ClearInterval(old(Forwarding()), heartbeatTopic)
    {
      if heartbeatTopic in heartbeatPublishTimers {
        var intervals := if heartbeatTopic in runningIntervals then runningIntervals[heartbeatTopic] else 0;
        runningIntervals := runningIntervals[heartbeatTopic := Saturating(intervals, 1)];
        heartbeatPublishTimers := heartbeatPublishTimers - {heartbeatTopic};
      }
    }

    /** deregister-topic. */
    method OnDeregisterTopic(ip: Ip, sensorIds: seq<Sensor>, topic: Topic, heartbeatTopic: string, pushFirst: bool)
      requires Valid()
      modifies this`routeTable, this`mqttClients, this`heartbeatPublishTimers, this`runningIntervals
      ensures Valid() && mqttClients == old(mqttClients) + {ip}
      ensures Forwarding() == DeregisterTopic(old(Forwarding()), ip, topic, sensorIds, heartbeatTopic, pushFirst)
    {
      mqttClients := mqttClients + {ip};
      DeregisterAllConnected(routeTable, sensorIds, ip, topic, pushFirst, mqttClients);
      DeregisterFromLocalGateway(ip, sensorIds, topic, pushFirst);
      StopHeartbeats(heartbeatTopic);
    }

    // -------------------------------------------------------------------------
    // Stream requests and recovery

    method RegisterToRemoteGateway(ip: Ip, sensorIds: seq<Sensor>, topic: Topic)
      modifies this`sent
      ensures sent == Send(old(sent), ip, Start(topic, sensorIds))
    {
      sent := sent[ip := (if ip in sent then sent[ip] else []) + [Start(topic, sensorIds)]];
    }

    method RequestRemoteGatewayToDeregister(ip: Ip, sensorIds: seq<Sensor>, topic: Topic)
      modifies this`sent
      ensures sent == Send(old(sent), ip, Stop(topic, sensorIds))
    {
      sent := sent[ip := (if ip in sent then sent[ip] else []) + [Stop(topic, sensorIds)]];
    }

    /** A registration was answered with status 200: monitoring starts. */
    method OnRegistrationReply(topic: Topic, ip: Ip, now: int)
      modifies this`heartbeatDiagnosticTimers
      ensures heartbeatDiagnosticTimers == old(heartbeatDiagnosticTimers)[Key(topic, ip) := now + DIAGNOSTIC_SECONDS]
    {
      heartbeatDiagnosticTimers := heartbeatDiagnosticTimers[topic + "-" + ip := now + DIAGNOSTIC_SECONDS];
    }

    /** A heartbeat puts its timer off and never creates one. */
    method HandleHeartbeatMessage(key: string, now: int)
      modifies this`heartbeatDiagnosticTimers
      ensures heartbeatDiagnosticTimers.Keys == old(heartbeatDiagnosticTimers.Keys)
      ensures forall k :: k in heartbeatDiagnosticTimers ==>
                heartbeatDiagnosticTimers[k] == if k == key then now + DIAGNOSTIC_SECONDS else old(heartbeatDiagnosticTimers)[k]
    {
      if key in heartbeatDiagnosticTimers {
        heartbeatDiagnosticTimers := heartbeatDiagnosticTimers[key := now + DIAGNOSTIC_SECONDS];
      }
    }

    /** The loop over the failed mapping: stops to the other remote gateways, and no more timers. */
    method StopStreams(topic: Topic, failedGatewayIp: Ip, mapping: seq<A.Share>)
      modifies this`sent, this`heartbeatDiagnosticTimers
      ensures sent == SendStops(old(sent), mapping, localIp, failedGatewayIp, topic)
      ensures heartbeatDiagnosticTimers == ClearTimers(old(heartbeatDiagnosticTimers), mapping, topic)
    {
      for i := 0 to |mapping|
        invariant sent == SendStops(old(sent), mapping[..i], localIp, failedGatewayIp, topic)
        invariant heartbeatDiagnosticTimers == ClearTimers(old(heartbeatDiagnosticTimers), mapping[..i], topic)
      {
        assert mapping[..i + 1][..i] == mapping[..i];
        var ip := mapping[i].ip;
        if ip != localIp && ip != failedGatewayIp {
          RequestRemoteGatewayToDeregister(ip, mapping[i].devices, topic);
        }
        var timerId := Key(topic, ip);
        if timerId in heartbeatDiagnosticTimers {
          heartbeatDiagnosticTimers := heartbeatDiagnosticTimers - {timerId};
        } else {
          assert heartbeatDiagnosticTimers == heartbeatDiagnosticTimers - {timerId};
        }
      }
      assert mapping[..|mapping|] == mapping;
    }

    /** Step 1 of recovery: stop the other remote gateways, clear the timers, ask for the link graph. */
    method HandleRemoteGatewayFailure(key: string)
      requires Valid()
      modifies this`sent, this`heartbeatDiagnosticTimers, this`recovering
      ensures Valid()
      ensures FirstPart(key) in requests ==>
                var topic, mapping := FirstPart(key), requests[FirstPart(key)].mapping;
                && sent == SendStops(old(sent), mapping, localIp, SecondPart(key), topic)
                && heartbeatDiagnosticTimers == ClearTimers(old(heartbeatDiagnosticTimers), mapping, topic)
                && recovering == old(recovering) + multiset{topic}
      ensures FirstPart(key) !in requests ==>
                unchanged(this`sent) && unchanged(this`heartbeatDiagnosticTimers) && unchanged(this`recovering)
    {
      var topic, failedGatewayIp := FirstPart(key), SecondPart(key);
      if topic in requests {
        StopStreams(topic, failedGatewayIp, requests[topic].mapping);
        recovering := recovering + multiset{topic};
      }
    }

    /** Allocates the required devices over the gateways of a link graph. */
    method StoreAllocation(topic: Topic, sensorIds: seq<Sensor>, data: seq<A.HostData>)
      modifies this`requests
      ensures requests == old(requests)[topic := StreamRequest(sensorIds, A.Optimal(A.HostShares(sensorIds, data), localIp))]
      ensures A.DistinctIps(requests[topic].mapping)
    {
      var shares := A.GetHostGateways(sensorIds, data);
      var mapping := A.GetOptimalMapping(shares, localIp);
      A.HostSharesExact(sensorIds, data);
      A.OptimalShape(shares, localIp);
      requests := requests[topic := StreamRequest(sensorIds, mapping)];
    }

    method RegisterAtRemoteGateways(topic: Topic, mapping: seq<A.Share>)
      modifies this`sent
      ensures sent == SendStarts(old(sent), mapping, localIp, topic)
    {
      for i := 0 to |mapping|
        invariant sent == SendStarts(old(sent), mapping[..i], localIp, topic)
      {
        assert mapping[..i + 1][..i] == mapping[..i];
        if mapping[i].ip != localIp {
          RegisterToRemoteGateway(mapping[i].ip, mapping[i].devices, topic);
        }
      }
      assert mapping[..|mapping|] == mapping;
    }

    /** Step 2 of recovery: the link graph has arrived; reallocate and register at the remote gateways. */
    method OnRecoveryLinkGraph(topic: Topic, data: seq<A.HostData>)
      requires Valid() && topic in recovering
      modifies this`sent, this`requests, this`recovering
      ensures Valid()
      ensures requests == old(requests)[topic := StreamRequest(old(requests)[topic].sensorIds,
                            A.Optimal(A.HostShares(old(requests)[topic].sensorIds, data), localIp))]
      ensures sent == SendStarts(old(sent), requests[topic].mapping, localIp, topic)
      ensures recovering == old(recovering) - multiset{topic}
    {
      StoreAllocation(topic, requests[topic].sensorIds, data);
      recovering := recovering - multiset{topic};
      RegisterAtRemoteGateways(topic, requests[topic].mapping);
    }

    /** The loop over a new mapping: the local share is registered here, the others are requested. */
    method SetUpStreams(topic: Topic, mapping: seq<A.Share>)
      requires A.DistinctIps(mapping)
      modifies this`sent, this`routeTable
      ensures sent == SendStarts(old(sent), mapping, localIp, topic)
      ensures routeTable == RegisterAll(old(routeTable), A.DevicesOf(mapping, localIp), localIp, topic)
    {
      for i := 0 to |mapping|
        invariant sent == SendStarts(old(sent), mapping[..i], localIp, topic)
        invariant routeTable == RegisterAll(old(routeTable), A.DevicesOf(mapping[..i], localIp), localIp, topic)
      {
        assert mapping[..i + 1][..i] == mapping[..i];
        LastShare(mapping[..i + 1], localIp);
        if mapping[i].ip == localIp {
          A.DevicesOfAbsent(mapping[..i], localIp);
          RegisterToLocalGateway(mapping[i].ip, mapping[i].devices, topic);
        } else {
          RegisterToRemoteGateway(mapping[i].ip, mapping[i].devices, topic);
        }
      }
      assert mapping[..|mapping|] == mapping;
    }

    /** request-streams: allocate, register the local share here and the others at their gateways. */
    method RequestStreams(topic: Topic, deviceIds: seq<Sensor>, data: seq<A.HostData>)
      requires Valid()
      modifies this`sent, this`requests, this`routeTable
      ensures Valid()
      ensures requests == old(requests)[topic := StreamRequest(deviceIds, A.Optimal(A.HostShares(deviceIds, data), localIp))]
      ensures sent == SendStarts(old(sent), requests[topic].mapping, localIp, topic)
      ensures routeTable == RegisterAll(old(routeTable), A.DevicesOf(requests[topic].mapping, localIp), localIp, topic)
    {
      StoreAllocation(topic, deviceIds, data);
      RegisterAllConnected(routeTable, A.DevicesOf(requests[topic].mapping, localIp), localIp, topic, mqttClients);
      SetUpStreams(topic, requests[topic].mapping);
    }

    // -------------------------------------------------------------------------
    // Routing

    /** Publishes to gateway `ip`, unless it has no client. */
    method PublishData(ip: Ip, topic: Topic, sensorId: Sensor, now: int)
      modifies this`published
      ensures published == old(published) + if ip in mqttClients then [Runs.Publication(sensorId, ip, topic, now)] else []
    {
      if ip !in mqttClients {
        return;
      }
      published := published + [Runs.Publication(sensorId, ip, topic, now)];
    }

    /** The stored topics of one gateway. */
    method RouteToGateway(sensorId: Sensor, ip: Ip, now: int)
      requires sensorId in routeTable && ip in routeTable[sensorId]
      modifies this`published
      ensures published ==
              old(published) + PublicationsOf(routeTable[sensorId][ip], mqttClients, policyHelper.rule.Lists(), sensorId, ip, now)
    {
      var topics := routeTable[sensorId][ip];
      for i := 0 to |topics|
        invariant published ==
                  old(published) + PublicationsOf(topics[..i], mqttClients, policyHelper.rule.Lists(), sensorId, ip, now)
      {
        assert topics[..i + 1][..i] == topics[..i];
        var blocked := policyHelper.IsBlocked(sensorId, ip, topics[i]);
        if !blocked {
          PublishData(ip, topics[i], sensorId, now);
        }
      }
      assert topics[..|topics|] == topics;
    }

    /** The loop over the gateways of a sensor, which come in some order. */
    method RouteToAll(sensorId: Sensor, now: int) returns (ghost order: seq<Ip>)
      requires sensorId in routeTable
      modifies this`published
      ensures A.NoDuplicates(order) && forall ip :: ip in order <==> ip in routeTable[sensorId]
      ensures published ==
              old(published) + RoutedInOrder(order, routeTable[sensorId], mqttClients, policyHelper.rule.Lists(), sensorId, now)
    {
      order := [];
      var todo := routeTable[sensorId].Keys;
      while todo != {}
        invariant A.NoDuplicates(order) && todo <= routeTable[sensorId].Keys
        invariant forall ip :: ip in order <==> ip in routeTable[sensorId] && ip !in todo
        invariant published ==
                  old(published) + RoutedInOrder(order, routeTable[sensorId], mqttClients, policyHelper.rule.Lists(), sensorId, now)
      {
        var ip :| ip in todo;
        RouteToGateway(sensorId, ip, now);
        todo := todo - {ip};
        assert (order + [ip])[..|order|] == order;
        order := order + [ip];
      }
    }

    /** A message of the local data stream, published to what the table stores for its sensor. */
    method RouteSensorMessage(sensorId: Sensor, now: int)
      modifies this`published
      ensures |old(published)| <= |published| && published[..|old(published)|] == old(published)
      ensures Runs.Routes(routeTable, mqttClients, policyHelper.rule.Lists(), sensorId, now, published[|old(published)|..])
    {
      if sensorId in routeTable {
        ghost var order := RouteToAll(sensorId, now);
        RoutedInOrderRoutes(order, routeTable, mqttClients, policyHelper.rule.Lists(), sensorId, now);
        ghost var out := RoutedInOrder(order, routeTable[sensorId], mqttClients, policyHelper.rule.Lists(), sensorId, now);
        assert published[|old(published)|..] == out;
      } else {
        assert published[|old(published)|..] == [];
      }
    }

    method UpdatePolicy(policy: Rules.Policy, now: int)
      modifies policyHelper, policyHelper.rule
      ensures policyHelper.policy == policy && Rules.CompiledAt(policyHelper.rule.Lists(), policy, now)
      ensures Rules.IsNextUpdate(policyHelper.rule.nextUpdateTime, Rules.AllChanges(policy, now))
      ensures policyHelper.timer ==
              if policyHelper.rule.nextUpdateTime.Some? then policyHelper.rule.nextUpdateTime else old(policyHelper.timer)
    {
      policyHelper.Update(policy, now);
    }
  }

  /** What one gateway gets for the stored `topics`. */
  function PublicationsOf(topics: seq<Topic>, clients: set<Ip>, rule: Rules.Rule, sensorId: Sensor, ip: Ip, now: int)
      : seq<Runs.Publication> {
    if topics == [] then []
    else
      var front, topic := PublicationsOf(topics[..|topics| - 1], clients, rule, sensorId, ip, now), topics[|topics| - 1];
      front + if ip !in clients || rule.Blocks(sensorId, ip, topic) then [] else [Runs.Publication(sensorId, ip, topic, now)]
  }

  lemma AppendCount<T>(xs: seq<T>, ys: seq<T>, x: T)
    ensures multiset(xs + ys)[x] == multiset(xs)[x] + multiset(ys)[x]
  {
  }

  lemma SnocCount<T>(xs: seq<T>, last: T, x: T)
    ensures multiset(xs + [last])[x] == multiset(xs)[x] + if x == last then 1 else 0
  {
  }

  lemma {:induction false} PublicationsOfCount(topics: seq<Topic>, clients: set<Ip>, rule: Rules.Rule, sensorId: Sensor, ip: Ip,
                                               now: int, p: Runs.Publication)
    ensures multiset(PublicationsOf(topics, clients, rule, sensorId, ip, now))[p] ==
            if p == Runs.Publication(sensorId, ip, p.topic, now) && ip in clients && !rule.Blocks(sensorId, ip, p.topic)
            then multiset(topics)[p.topic] else 0
  {
    if topics != [] {
      var front, topic := topics[..|topics| - 1], topics[|topics| - 1];
      PublicationsOfCount(front, clients, rule, sensorId, ip, now, p);
      SnocCount(front, topic, p.topic);
      assert topics == front + [topic];
      SnocCount(PublicationsOf(front, clients, rule, sensorId, ip, now), Runs.Publication(sensorId, ip, topic, now), p);
    }
  }

  /** What the gateways of one row of the table get, taken in this order. */
  function RoutedInOrder(order: seq<Ip>, row: map<Ip, seq<Topic>>, clients: set<Ip>, rule: Rules.Rule, sensorId: Sensor, now: int)
      : seq<Runs.Publication> {
    if order == [] then []
    else
      var ip := order[|order| - 1];
      RoutedInOrder(order[..|order| - 1], row, clients, rule, sensorId, now)
      + PublicationsOf(if ip in row then row[ip] else [], clients, rule, sensorId, ip, now)
  }

  /** How often `p` is due for the topics stored at gateway `ip`. */
  function Due(row: map<Ip, seq<Topic>>, clients: set<Ip>, rule: Rules.Rule, sensorId: Sensor, ip: Ip, now: int, p: Runs.Publication): nat {
    if p == Runs.Publication(sensorId, ip, p.topic, now) && ip in row && ip in clients && !rule.Blocks(sensorId, ip, p.topic)
    then multiset(row[ip])[p.topic] else 0
  }

  lemma GatewayGetsItsDue(row: map<Ip, seq<Topic>>, clients: set<Ip>, rule: Rules.Rule, sensorId: Sensor, ip: Ip, now: int,
                          p: Runs.Publication)
    ensures multiset(PublicationsOf(if ip in row then row[ip] else [], clients, rule, sensorId, ip, now))[p] ==
            if p.ip == ip then Due(row, clients, rule, sensorId, ip, now, p) else 0
  {
    PublicationsOfCount(if ip in row then row[ip] else [], clients, rule, sensorId, ip, now, p);
  }

  lemma LastIsNew(order: seq<Ip>, x: Ip)
    requires A.NoDuplicates(order) && order != []
    ensures var front, last := order[..|order| - 1], order[|order| - 1];
      A.NoDuplicates(front) && last !in front && (x in order <==> x in front || x == last)
  {
    assert order == order[..|order| - 1] + [order[|order| - 1]];
  }

  lemma {:induction false} RoutedInOrderCount(order: seq<Ip>, row: map<Ip, seq<Topic>>, clients: set<Ip>, rule: Rules.Rule,
                                              sensorId: Sensor, now: int, p: Runs.Publication)
    requires A.NoDuplicates(order)
    ensures multiset(RoutedInOrder(order, row, clients, rule, sensorId, now))[p] ==
            if p.ip in order then Due(row, clients, rule, sensorId, p.ip, now, p) else 0
  {
    if order != [] {
      var front, ip := order[..|order| - 1], order[|order| - 1];
      LastIsNew(order, p.ip);
      RoutedInOrderCount(front, row, clients, rule, sensorId, now, p);
      GatewayGetsItsDue(row, clients, rule, sensorId, ip, now, p);
      AppendCount(RoutedInOrder(front, row, clients, rule, sensorId, now),
                  PublicationsOf(if ip in row then row[ip] else [], clients, rule, sensorId, ip, now), p);
    }
  }

  /** In whatever order the gateways of a sensor are taken, its message is published as often as its topics are stored. */
  lemma RoutedInOrderRoutes(order: seq<Ip>, table: RouteTable, clients: set<Ip>, rule: Rules.Rule, sensorId: Sensor, now: int)
    requires sensorId in table && A.NoDuplicates(order) && forall ip :: ip in order <==> ip in table[sensorId]
    ensures Runs.Routes(table, clients, rule, sensorId, now, RoutedInOrder(order, table[sensorId], clients, rule, sensorId, now))
  {
    var out := RoutedInOrder(order, table[sensorId], clients, rule, sensorId, now);
    forall k | 0 <= k < |out|
      ensures out[k].sensor == sensorId && out[k].time == now
    {
      assert out[k] in multiset(out);
      RoutedInOrderCount(order, table[sensorId], clients, rule, sensorId, now, out[k]);
    }
    forall ip, topic
      ensures multiset(out)[Runs.Publication(sensorId, ip, topic, now)] ==
              if ip !in clients || rule.Blocks(sensorId, ip, topic) then 0 else Count(table, sensorId, ip, topic)
    {
      RoutedInOrderCount(order, table[sensorId], clients, rule, sensorId, now, Runs.Publication(sensorId, ip, topic, now));
    }
  }

  lemma ConsSplice<T>(xs: seq<T>, index: nat)
    requires 0 < index < |xs|
    ensures [xs[0]] + (xs[1..][..index - 1] + xs[1..][index..]) == xs[..index] + xs[index + 1..]
  {
  }

  lemma {:induction false} RemoveFirstSplices(topics: seq<Topic>, topic: Topic, index: nat)
    requires index <= |topics| && topic !in topics[..index] && (index < |topics| ==> topics[index] == topic)
    ensures RemoveFirst(topics, topic) == if index < |topics| then topics[..index] + topics[index + 1..] else topics
  {
    if topics != [] && index > 0 {
      var rest := topics[1..];
      assert topics[0] in topics[..index];
      assert forall t :: t in rest[..index - 1] ==> t in topics[..index];
      RemoveFirstSplices(rest, topic, index - 1);
      if index < |topics| {
        ConsSplice(topics, index);
      } else {
        assert topics == [topics[0]] + rest;
      }
    }
  }
}
