/**
 The state changes of stream recovery at the requesting gateway, as functions on its tables
 (platform/sensor-stream-manager/sensor-stream-manager.js:88-137, 194-261).
 Messages to other gateways are queued per destination.
 */
module RecoverySteps {
  import opened Vocabulary
  import opened RouteTables
  import opened HeartbeatKeys
  import A = Allocation

  /** The body of a register or deregister request of this gateway. */
  datatype Message = Start(topic: Topic, sensors: seq<Sensor>) | Stop(topic: Topic, sensors: seq<Sensor>)

  type Channels = map<Ip, seq<Message>>

  /** Heartbeats are requested every 60 s; a monitoring timer allows 5 s more. */
  const HEARTBEAT_SECONDS := 60
  const BUFFER_SECONDS := 5
  const DIAGNOSTIC_SECONDS := HEARTBEAT_SECONDS + BUFFER_SECONDS
  /** A request that gets no reply fails after this time. */
  const REQUEST_TIMEOUT_SECONDS := 5

  function Queue(channels: Channels, ip: Ip): seq<Message> {
    if ip in channels then channels[ip] else []
  }

  function Send(channels: Channels, ip: Ip, message: Message): Channels {
    channels[ip := Queue(channels, ip) + [message]]
  }

  /** Step 1: every remote gateway of the mapping except the failed one is asked to stop. */
  function SendStops(channels: Channels, mapping: seq<A.Share>, local: Ip, failed: Ip, topic: Topic): Channels {
    if mapping == [] then channels
    else
      var before := SendStops(channels, mapping[..|mapping| - 1], local, failed, topic);
      var share := mapping[|mapping| - 1];
      if share.ip != local && share.ip != failed then Send(before, share.ip, Stop(topic, share.devices)) else before
  }

  /** Step 1: the monitoring timers of all gateways of the mapping are cleared and deleted. */
  function ClearTimers(timers: map<string, int>, mapping: seq<A.Share>, topic: Topic): map<string, int> {
    if mapping == [] then timers
    else ClearTimers(timers, mapping[..|mapping| - 1], topic) - {Key(topic, mapping[|mapping| - 1].ip)}
  }

  /** Step 2: every remote gateway of the new mapping is asked to forward its share. */
  function SendStarts(channels: Channels, mapping: seq<A.Share>, local: Ip, topic: Topic): Channels {
    if mapping == [] then channels
    else
      var before := SendStarts(channels, mapping[..|mapping| - 1], local, topic);
      var share := mapping[|mapping| - 1];
      if share.ip != local then Send(before, share.ip, Start(topic, share.devices)) else before
  }

  lemma {:induction false} LastShare(mapping: seq<A.Share>, ip: Ip)
    requires A.DistinctIps(mapping) && mapping != []
    ensures A.DistinctIps(mapping[..|mapping| - 1])
    ensures A.HasIp(mapping, ip) <==> A.HasIp(mapping[..|mapping| - 1], ip) || mapping[|mapping| - 1].ip == ip
    ensures mapping[|mapping| - 1].ip == ip ==> !A.HasIp(mapping[..|mapping| - 1], ip)
    ensures A.DevicesOf(mapping, ip) ==
            if mapping[|mapping| - 1].ip == ip then mapping[|mapping| - 1].devices
            else A.DevicesOf(mapping[..|mapping| - 1], ip)
  {
    var front, last := mapping[..|mapping| - 1], mapping[|mapping| - 1];
    A.AssignedSnoc(front, last);
    assert mapping == front + [last];
    if A.HasIp(front, ip) {
      var k :| 0 <= k < |front| && front[k].ip == ip;
      A.DevicesOfAt(front, k);
      A.DevicesOfAt(mapping, k);
    } else {
      A.DevicesOfAbsent(front, ip);
      if last.ip == ip {
        A.DevicesOfAt(mapping, |mapping| - 1);
      } else {
        A.DevicesOfAbsent(mapping, ip);
      }
    }
  }

  lemma {:induction false} SendStopsQueue(channels: Channels, mapping: seq<A.Share>, local: Ip, failed: Ip, topic: Topic, ip: Ip)
    requires A.DistinctIps(mapping)
    ensures Queue(SendStops(channels, mapping, local, failed, topic), ip) ==
            Queue(channels, ip) +
            (if A.HasIp(mapping, ip) && ip != local && ip != failed then [Stop(topic, A.DevicesOf(mapping, ip))] else [])
  {
    if mapping != [] {
      LastShare(mapping, ip);
      SendStopsQueue(channels, mapping[..|mapping| - 1], local, failed, topic, ip);
    }
  }

  lemma {:induction false} SendStartsQueue(channels: Channels, mapping: seq<A.Share>, local: Ip, topic: Topic, ip: Ip)
    requires A.DistinctIps(mapping)
    ensures Queue(SendStarts(channels, mapping, local, topic), ip) ==
            Queue(channels, ip) +
            (if A.HasIp(mapping, ip) && ip != local then [Start(topic, A.DevicesOf(mapping, ip))] else [])
  {
    if mapping != [] {
      LastShare(mapping, ip);
      SendStartsQueue(channels, mapping[..|mapping| - 1], local, topic, ip);
    }
  }

  /** Exactly the timers of the mapping's gateways go; every other timer keeps its deadline. */
  lemma {:induction false} ClearTimersExact(timers: map<string, int>, mapping: seq<A.Share>, topic: Topic)
    ensures forall key :: key in ClearTimers(timers, mapping, topic) <==>
              key in timers && forall k :: 0 <= k < |mapping| ==> key != Key(topic, mapping[k].ip)
    ensures forall key :: key in ClearTimers(timers, mapping, topic) ==>
              ClearTimers(timers, mapping, topic)[key] == timers[key]
  {
    if mapping != [] {
      ClearTimersExact(timers, mapping[..|mapping| - 1], topic);
    }
  }

  /** Clearing one topic's timers leaves the timers of every other topic alone. */
  lemma OtherTopicsKeepTimers(timers: map<string, int>, mapping: seq<A.Share>, topic: Topic, other: Topic, ip: Ip)
    requires '-' !in topic && '-' !in other && topic != other
    ensures Key(other, ip) in ClearTimers(timers, mapping, topic) <==> Key(other, ip) in timers
  {
    ClearTimersExact(timers, mapping, topic);
    forall k | 0 <= k < |mapping|
      ensures Key(other, ip) != Key(topic, mapping[k].ip)
    {
      KeysAreDistinct(other, ip, topic, mapping[k].ip);
    }
  }

  // ---------------------------------------------------------------------------
  // A gateway that forwards streams for others

  /**
   The route table, the heartbeat intervals that are running per heartbeat topic, and the heartbeat topics
   whose interval handle is stored in heartbeatPublishTimers.
   */
  datatype Forwarder = Forwarder(table: RouteTable, running: map<string, nat>, stored: set<string>)

  function Running(f: Forwarder, key: string): nat {
    if key in f.running then f.running[key] else 0
  }

  /** register-topic: setInterval overwrites a stored handle; the interval it named keeps running. */
  function RegisterTopic(f: Forwarder, requester: Ip, topic: Topic, sensors: seq<Sensor>, key: string): Forwarder {
    Forwarder(RegisterAll(f.table, sensors, requester, topic),
              f.running[key := Running(f, key) + 1],
              f.stored + {key})
  }

  /** Clears the stored interval of a heartbeat topic, if there is one. */
  function ClearInterval(f: Forwarder, key: string): Forwarder {
    if key in f.stored then f.(running := f.running[key := Saturating(Running(f, key), 1)], stored := f.stored - {key}) else f
  }

  /** deregister-topic. */
  function DeregisterTopic(f: Forwarder, requester: Ip, topic: Topic, sensors: seq<Sensor>, key: string, pushFirst: bool): Forwarder {
    ClearInterval(f.(table := DeregisterAll(f.table, sensors, requester, topic, pushFirst)), key)
  }

  /** What gateway `self` does with a message of `requester`; heartbeats go to the topic of this pair. */
  function Receive(f: Forwarder, m: Message, requester: Ip, self: Ip, pushFirst: bool): Forwarder {
    match m
    case Start(topic, sensors) => RegisterTopic(f, requester, topic, sensors, Key(topic, self))
    case Stop(topic, sensors) => DeregisterTopic(f, requester, topic, sensors, Key(topic, self), pushFirst)
  }

  function RegisterTimes(f: Forwarder, requester: Ip, topic: Topic, sensors: seq<Sensor>, key: string, n: nat): Forwarder {
    if n == 0 then f else RegisterTopic(RegisterTimes(f, requester, topic, sensors, key, n - 1), requester, topic, sensors, key)
  }

  function DeregisterTimes(f: Forwarder, requester: Ip, topic: Topic, sensors: seq<Sensor>, key: string, n: nat, pushFirst: bool): Forwarder {
    if n == 0 then f
    else DeregisterTopic(DeregisterTimes(f, requester, topic, sensors, key, n - 1, pushFirst), requester, topic, sensors, key, pushFirst)
  }

  lemma {:induction false} RegisterTimesIntervals(f: Forwarder, requester: Ip, topic: Topic, sensors: seq<Sensor>, key: string, n: nat)
    requires n > 0
    ensures var f' := RegisterTimes(f, requester, topic, sensors, key, n);
      Running(f', key) == Running(f, key) + n && key in f'.stored
  {
    if n > 1 {
      RegisterTimesIntervals(f, requester, topic, sensors, key, n - 1);
    }
  }

  /** However many deregistrations follow n registrations, they stop one heartbeat interval: the one started last. */
  lemma {:induction false} OnlyOneIntervalStops(f: Forwarder, requester: Ip, topic: Topic, sensors: seq<Sensor>, key: string,
                                                n: nat, m: nat, pushFirst: bool)
    requires n > 0 && m > 0
    ensures var f' := DeregisterTimes(RegisterTimes(f, requester, topic, sensors, key, n), requester, topic, sensors, key, m, pushFirst);
      Running(f', key) == Running(f, key) + n - 1 && key !in f'.stored
  {
    if m == 1 {
      RegisterTimesIntervals(f, requester, topic, sensors, key, n);
    } else {
      OnlyOneIntervalStops(f, requester, topic, sensors, key, n, m - 1, pushFirst);
    }
  }
}
