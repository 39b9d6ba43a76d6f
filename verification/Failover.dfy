/**
 Stream failover as a timed, message-passing system: one requesting gateway, one application topic, any number of
 forwarding gateways (platform/sensor-stream-manager/sensor-stream-manager.js:76-137, 179-261, 605-654).

 Time is in seconds. Channels to a gateway are FIFO, gateways crash and stay down, and timers and intervals fire on
 time. A request's reply or failure arrives within 5 s, and status 200 only after the gateway has handled the request.
 A heartbeat of a live gateway arrives less than 5 s after it was sent; those of crashed gateways arrive late or never.
 A recovery takes any amount of time and sees any link graph. Deregistration is the intended step (without line 44).
 */
module Failover {
  import opened Vocabulary
  import opened RouteTables
  import opened HeartbeatKeys
  import opened RecoverySteps
  import A = Allocation

  /** The requester's address and its stream request. */
  datatype Setting = Setting(local: Ip, topic: Topic, sensors: seq<Sensor>) {
    ghost predicate Valid() {
      '-' !in topic
    }
  }

  datatype Heartbeat = Heartbeat(ip: Ip, sent: int)

  /**
   `epoch` is when the current mapping's requests were sent, `localShare` the sensors registered locally at the
   start, `lastHeard` when the reply or latest heartbeat for a timer arrived. `recoveries` counts link graph
   requests that a failure has started and that have not come back. `beating` has for each gateway the instant at
   which the heartbeat interval stored there fires next, `beats` the heartbeats on their way, `answered` the
   gateways of the mapping whose registration was answered with status 200, and `refused` those whose registration failed.
   */
  datatype State = State(
    now: int, epoch: int, localShare: seq<Sensor>,
    alive: set<Ip>, forwarders: map<Ip, Forwarder>, channels: Channels,
    mapping: seq<A.Share>, recoveries: nat,
    awaiting: map<Ip, int>, answered: set<Ip>, refused: set<Ip>, timers: map<string, int>, lastHeard: map<string, int>,
    beating: map<Ip, int>, beats: set<Heartbeat>)

  datatype Step =
    | Tick
    | Deliver(ip: Ip)
    | Reply(ip: Ip, ok: bool)
    | Beat(ip: Ip)
    | Arrive(beat: Heartbeat)
    | Timeout(key: string)
    | Recompute(data: seq<A.HostData>)
    | Crash(ip: Ip)
    | OtherTraffic(at: Ip, requester: Ip, message: Message)

  function ForwarderAt(s: State, ip: Ip): Forwarder {
    if ip in s.forwarders then s.forwarders[ip] else Forwarder(map[], map[], {})
  }

  function Allocate(c: Setting, data: seq<A.HostData>): seq<A.Share> {
    A.Optimal(A.HostShares(c.sensors, data), c.local)
  }

  ghost predicate DashFree(data: seq<A.HostData>) {
    forall k :: 0 <= k < |data| ==> '-' !in data[k].ip
  }

  /** The remote gateways of the mapping, each with its request sent at `now`. */
  function Requested(mapping: seq<A.Share>, local: Ip, now: int): map<Ip, int> {
    map k | 0 <= k < |mapping| && mapping[k].ip != local :: mapping[k].ip := now
  }

  // ---------------------------------------------------------------------------
  // Steps

  /** Time passes only past instants at which nothing is due. */
  ghost predicate CanTick(c: Setting, s: State) {
    && (forall key :: key in s.timers ==> s.now < s.timers[key])
    && (forall ip :: ip in s.awaiting ==> s.now < s.awaiting[ip] + REQUEST_TIMEOUT_SECONDS)
    && (forall ip :: ip in s.alive && ip in s.beating ==> s.now < s.beating[ip])
    && (forall b :: b in s.beats && b.ip in s.alive ==> s.now + 1 < b.sent + BUFFER_SECONDS)
  }

  function Arm(s: State, key: string): State {
    s.(timers := s.timers[key := s.now + DIAGNOSTIC_SECONDS], lastHeard := s.lastHeard[key := s.now])
  }

  /** Gateway `ip` handles a message; an interval fires first after a whole period. */
  function Handle(c: Setting, s: State, ip: Ip, m: Message): State {
    s.(forwarders := s.forwarders[ip := Receive(ForwarderAt(s, ip), m, c.local, ip, false)],
       beating := if m.Start? then s.beating[ip := s.now + HEARTBEAT_SECONDS] else s.beating - {ip})
  }

  /** The request's gateways are stopped and their timers cleared; the link graph is requested. */
  function BeginRecovery(c: Setting, s: State, failed: Ip): State {
    s.(channels := SendStops(s.channels, s.mapping, c.local, failed, c.topic),
       timers := ClearTimers(s.timers, s.mapping, c.topic),
       recoveries := s.recoveries + 1)
  }

  function FinishRecovery(c: Setting, s: State, mapping: seq<A.Share>): State
    requires s.recoveries > 0
  {
    s.(mapping := mapping, recoveries := s.recoveries - 1, epoch := s.now, answered := {}, refused := {},
       channels := SendStarts(s.channels, mapping, c.local, c.topic),
       awaiting := s.awaiting + Requested(mapping, c.local, s.now))
  }

  ghost predicate TickStep(c: Setting, s: State, s': State) {
    CanTick(c, s) && s' == s.(now := s.now + 1)
  }

  ghost predicate DeliverStep(c: Setting, s: State, ip: Ip, s': State) {
    && Queue(s.channels, ip) != []
    && var rest := s.(channels := s.channels[ip := Queue(s.channels, ip)[1..]]);
       s' == if ip in s.alive then Handle(c, rest, ip, Queue(s.channels, ip)[0]) else rest
  }

  ghost predicate ReplyStep(c: Setting, s: State, ip: Ip, ok: bool, s': State) {
    && ip in s.awaiting && (ok ==> Queue(s.channels, ip) == [])
    && var settled := s.(awaiting := s.awaiting - {ip});
       s' == if ok then Arm(settled.(answered := s.answered + {ip}), Key(c.topic, ip))
             else settled.(refused := s.refused + {ip})
  }

  ghost predicate BeatStep(s: State, ip: Ip, s': State) {
    && ip in s.alive && ip in s.beating && s.beating[ip] <= s.now
    && s' == s.(beats := s.beats + {Heartbeat(ip, s.now)}, beating := s.beating[ip := s.beating[ip] + HEARTBEAT_SECONDS])
  }

  ghost predicate ArriveStep(c: Setting, s: State, beat: Heartbeat, s': State) {
    && beat in s.beats
    && var arrived := s.(beats := s.beats - {beat});
       s' == if Key(c.topic, beat.ip) in s.timers then Arm(arrived, Key(c.topic, beat.ip)) else arrived
  }

  ghost predicate TimeoutStep(c: Setting, s: State, key: string, s': State) {
    && key in s.timers && s.timers[key] <= s.now
    && s' == if FirstPart(key) == c.topic then BeginRecovery(c, s, SecondPart(key)) else s
  }

  ghost predicate RecomputeStep(c: Setting, s: State, data: seq<A.HostData>, s': State) {
    s.recoveries > 0 && DashFree(data) && s' == FinishRecovery(c, s, Allocate(c, data))
  }

  ghost predicate CrashStep(c: Setting, s: State, ip: Ip, s': State) {
    ip != c.local && s' == s.(alive := s.alive - {ip})
  }

  /** A request of another gateway, or for another topic. */
  ghost predicate OtherTrafficStep(c: Setting, s: State, at: Ip, requester: Ip, message: Message, s': State) {
    && message.topic != c.topic && '-' !in message.topic
    && s' == s.(forwarders := s.forwarders[at := Receive(ForwarderAt(s, at), message, requester, at, false)])
  }

  ghost predicate Next(c: Setting, s: State, step: Step, s': State) {
    match step
    case Tick => TickStep(c, s, s')
    case Deliver(ip) => DeliverStep(c, s, ip, s')
    case Reply(ip, ok) => ReplyStep(c, s, ip, ok, s')
    case Beat(ip) => BeatStep(s, ip, s')
    case Arrive(beat) => ArriveStep(c, s, beat, s')
    case Timeout(key) => TimeoutStep(c, s, key, s')
    case Recompute(data) => RecomputeStep(c, s, data, s')
    case Crash(ip) => CrashStep(c, s, ip, s')
    case OtherTraffic(at, requester, message) => OtherTrafficStep(c, s, at, requester, message, s')
  }

  /** The application's request: nothing of the topic is stored anywhere, then the first mapping is set up. */
  ghost predicate Initial(c: Setting, s: State) {
    exists data, forwarders: map<Ip, Forwarder>, alive, now :: StartedFrom(c, s, data, forwarders, alive, now)
  }

  ghost predicate StartedFrom(c: Setting, s: State, data: seq<A.HostData>, forwarders: map<Ip, Forwarder>, alive: set<Ip>, now: int) {
    && DashFree(data)
    && (forall ip :: ip in forwarders ==> Unused(c, forwarders[ip], ip))
    && c.local in forwarders
    && var mapping := Allocate(c, data);
       var share := A.DevicesOf(mapping, c.local);
       s == State(now, now, share, alive,
                  forwarders[c.local := forwarders[c.local].(table := RegisterAll(forwarders[c.local].table, share, c.local, c.topic))],
                  SendStarts(map[], mapping, c.local, c.topic),
                  mapping, 0, Requested(mapping, c.local, now), {}, {}, map[], map[], map[], {})
  }

  ghost predicate Unused(c: Setting, f: Forwarder, ip: Ip) {
    && (forall x :: Count(f.table, x, c.local, c.topic) == 0)
    && Running(f, Key(c.topic, ip)) == 0 && Key(c.topic, ip) !in f.stored
  }

  ghost predicate Execution(c: Setting, trace: seq<State>) {
    && |trace| > 0 && Initial(c, trace[0])
    && forall j, k :: 0 <= j < k < |trace| && k == j + 1 ==> Follows(c, trace[j], trace[k])
  }

  ghost predicate Follows(c: Setting, s: State, s': State) {
    exists step :: Next(c, s, step, s')
  }

  // ---------------------------------------------------------------------------
  // What a forwarder holds once its channel has drained

  /** How often the topic is stored for sensor x, and the state of its heartbeat interval. */
  datatype Holding = Holding(count: nat, running: nat, stored: bool)

  function HoldingAt(c: Setting, f: Forwarder, ip: Ip, x: Sensor): Holding {
    Holding(Count(f.table, x, c.local, c.topic), Running(f, Key(c.topic, ip)), Key(c.topic, ip) in f.stored)
  }

  function Apply(h: Holding, m: Message, x: Sensor): Holding {
    match m
    case Start(_, sensors) => Holding(h.count + Occurrences(sensors, x), h.running + 1, true)
    case Stop(_, sensors) =>
      Holding(Saturating(h.count, Occurrences(sensors, x)), if h.stored then Saturating(h.running, 1) else h.running, false)
  }

  function Settled(h: Holding, queue: seq<Message>, x: Sensor): Holding
    decreases |queue|
  {
    if queue == [] then h else Settled(Apply(h, queue[0], x), queue[1..], x)
  }

  lemma {:induction false} SettledSnoc(h: Holding, queue: seq<Message>, m: Message, x: Sensor)
    ensures Settled(h, queue + [m], x) == Apply(Settled(h, queue, x), m, x)
    decreases |queue|
  {
    if |queue| == 0 {
      assert (queue + [m])[1..] == [];
    } else {
      SettledSnoc(Apply(h, queue[0], x), queue[1..], m, x);
      assert (queue + [m])[1..] == queue[1..] + [m];
    }
  }

  lemma ReceiveApplies(c: Setting, f: Forwarder, m: Message, ip: Ip, x: Sensor)
    requires m.topic == c.topic
    ensures HoldingAt(c, Receive(f, m, c.local, ip, false), ip, x) == Apply(HoldingAt(c, f, ip, x), m, x)
  {
    match m
    case Start(topic, sensors) => RegisterAllCounts(f.table, sensors, c.local, topic, x, c.local, topic);
    case Stop(topic, sensors) => DeregisterAllCounts(f.table, sensors, c.local, topic, x, c.local, topic);
  }

  lemma OtherTrafficIsSeparate(c: Setting, f: Forwarder, m: Message, requester: Ip, ip: Ip, x: Sensor)
    requires m.topic != c.topic && '-' !in m.topic && '-' !in c.topic
    ensures HoldingAt(c, Receive(f, m, requester, ip, false), ip, x) == HoldingAt(c, f, ip, x)
  {
    KeysAreDistinct(c.topic, ip, m.topic, ip);
    match m
    case Start(topic, sensors) => RegisterAllCounts(f.table, sensors, requester, topic, x, c.local, c.topic);
    case Stop(topic, sensors) => DeregisterAllCounts(f.table, sensors, requester, topic, x, c.local, c.topic);
  }

  // ---------------------------------------------------------------------------
  // The invariant

  /** Mappings come out of the allocation: distinct gateways, and no sensor twice on a remote one. */
  ghost predicate MappingOk(c: Setting, mapping: seq<A.Share>) {
    && A.DistinctIps(mapping)
    && (forall ip :: A.HasIp(mapping, ip) ==> '-' !in ip)
    && (forall ip, x :: ip != c.local ==> Occurrences(A.DevicesOf(mapping, ip), x) <= 1)
  }

  ghost predicate RepliesOk(c: Setting, s: State) {
    && s.epoch <= s.now
    && forall ip :: ip in s.awaiting ==>
         && s.awaiting[ip] == s.epoch && s.now <= s.epoch + REQUEST_TIMEOUT_SECONDS
         && A.HasIp(s.mapping, ip) && ip != c.local
  }

  /** Timers belong to remote gateways of the mapping and run 65 s from when the gateway was last heard. */
  ghost predicate TimersOk(c: Setting, s: State) {
    forall key :: key in s.timers ==>
      && key == Key(c.topic, SecondPart(key)) && A.HasIp(s.mapping, SecondPart(key)) && SecondPart(key) != c.local
      && key in s.lastHeard && s.timers[key] == s.lastHeard[key] + DIAGNOSTIC_SECONDS
      && s.epoch <= s.lastHeard[key] <= s.now <= s.timers[key]
  }

  /** A live gateway beats iff it has stored an interval for this topic, and then within the next 60 s. */
  ghost predicate IntervalsOk(c: Setting, s: State) {
    && c.local !in s.beating
    && forall ip :: ip in s.alive && ip != c.local ==>
         && (ip in s.beating <==> Key(c.topic, ip) in ForwarderAt(s, ip).stored)
         && (ip in s.beating ==> s.now <= s.beating[ip] <= s.now + HEARTBEAT_SECONDS)
  }

  ghost predicate BeatsOk(s: State) {
    forall b :: b in s.beats && b.ip in s.alive ==> s.now < b.sent + BUFFER_SECONDS
  }

  /** The next heartbeat, or one that is on its way, arrives before `deadline`. */
  ghost predicate WillBeHeard(s: State, ip: Ip, deadline: int) {
    && ip in s.beating
    && (s.beating[ip] + BUFFER_SECONDS <= deadline
        || exists b :: b in s.beats && b.ip == ip && b.sent + BUFFER_SECONDS <= deadline)
  }

  ghost predicate HeardInTime(c: Setting, s: State) {
    forall ip :: ip in s.alive && ip != c.local && Key(c.topic, ip) in s.timers ==>
      Queue(s.channels, ip) == [] && WillBeHeard(s, ip, s.timers[Key(c.topic, ip)])
  }

  /** Outside of recoveries the monitored gateways are those that have answered. */
  ghost predicate AnsweredOk(c: Setting, s: State) {
    s.recoveries == 0 ==> forall ip :: Key(c.topic, ip) in s.timers <==> ip in s.answered
  }

  ghost predicate MonitoringOk(c: Setting, s: State) {
    IntervalsOk(c, s) && BeatsOk(s) && HeardInTime(c, s) && AnsweredOk(c, s)
  }

  /** Outside of recoveries the registration of every remote gateway of the mapping, and no other, is awaited or settled. */
  ghost predicate RegistrationsOk(c: Setting, s: State) {
    s.recoveries == 0 ==>
      forall ip :: A.HasIp(s.mapping, ip) && ip != c.local <==> ip in s.awaiting || ip in s.answered || ip in s.refused
  }

  ghost predicate QuietInRecovery(s: State) {
    && s.recoveries <= 1
    && (s.recoveries > 0 ==> s.timers == map[] && s.awaiting == map[])
  }

  ghost predicate RequestOk(c: Setting, s: State) {
    && MappingOk(c, s.mapping) && RepliesOk(c, s) && TimersOk(c, s) && QuietInRecovery(s)
    && RegistrationsOk(c, s)
  }

  /** What the current mapping asks of gateway `ip` for sensor x; nothing while a recovery is in progress. */
  function Expected(mapping: seq<A.Share>, recoveries: nat, ip: Ip, x: Sensor): Holding {
    if recoveries == 0 && A.HasIp(mapping, ip)
    then Holding(Occurrences(A.DevicesOf(mapping, ip), x), 1, true)
    else Holding(0, 0, false)
  }

  ghost predicate OwnTopic(queue: seq<Message>, topic: Topic) {
    forall k :: 0 <= k < |queue| ==> queue[k].topic == topic
  }

  /** Once its channel has drained, the gateway holds what is expected. */
  ghost predicate Drains(c: Setting, f: Forwarder, queue: seq<Message>, mapping: seq<A.Share>, recoveries: nat, ip: Ip) {
    && OwnTopic(queue, c.topic)
    && forall x :: Settled(HoldingAt(c, f, ip, x), queue, x) == Expected(mapping, recoveries, ip, x)
  }

  ghost predicate ForwardersOk(c: Setting, s: State) {
    forall ip :: ip in s.alive && ip != c.local ==>
      Drains(c, ForwarderAt(s, ip), Queue(s.channels, ip), s.mapping, s.recoveries, ip)
  }

  lemma DrainsAfterDelivery(c: Setting, f: Forwarder, queue: seq<Message>, mapping: seq<A.Share>, recoveries: nat, ip: Ip)
    requires queue != [] && Drains(c, f, queue, mapping, recoveries, ip)
    ensures Drains(c, Receive(f, queue[0], c.local, ip, false), queue[1..], mapping, recoveries, ip)
  {
    var f' := Receive(f, queue[0], c.local, ip, false);
    forall x
      ensures Settled(HoldingAt(c, f', ip, x), queue[1..], x) == Expected(mapping, recoveries, ip, x)
    {
      ReceiveApplies(c, f, queue[0], ip, x);
    }
  }

  lemma DrainsAfterOtherTraffic(c: Setting, f: Forwarder, queue: seq<Message>, mapping: seq<A.Share>, recoveries: nat,
                                ip: Ip, requester: Ip, m: Message)
    requires m.topic != c.topic && '-' !in m.topic && '-' !in c.topic
    requires Drains(c, f, queue, mapping, recoveries, ip)
    ensures Drains(c, Receive(f, m, requester, ip, false), queue, mapping, recoveries, ip)
  {
    forall x
      ensures Settled(HoldingAt(c, Receive(f, m, requester, ip, false), ip, x), queue, x) == Expected(mapping, recoveries, ip, x)
    {
      OtherTrafficIsSeparate(c, f, m, requester, ip, x);
    }
  }

  /** Appending a message to the channel of a gateway that is expected to hold what the mapping asks of it. */
  lemma DrainsAfterSend(c: Setting, f: Forwarder, queue: seq<Message>, mapping: seq<A.Share>, recoveries: nat, ip: Ip,
                        sent: seq<Message>, mapping': seq<A.Share>, recoveries': nat)
    requires |sent| <= 1 && OwnTopic(sent, c.topic) && Drains(c, f, queue, mapping, recoveries, ip)
    requires forall x :: Expected(mapping', recoveries', ip, x) ==
                         (var h := Expected(mapping, recoveries, ip, x); if sent == [] then h else Apply(h, sent[0], x))
    ensures Drains(c, f, queue + sent, mapping', recoveries', ip)
  {
    forall x
      ensures Settled(HoldingAt(c, f, ip, x), queue + sent, x) == Expected(mapping', recoveries', ip, x)
    {
      if sent == [] {
        assert queue + sent == queue;
      } else {
        assert sent == [sent[0]];
        SettledSnoc(HoldingAt(c, f, ip, x), queue, sent[0], x);
      }
    }
  }

  /** The requester's own share is what it registered at the start. */
  ghost predicate LocalOk(c: Setting, s: State) {
    && Queue(s.channels, c.local) == []
    && forall x :: Count(ForwarderAt(s, c.local).table, x, c.local, c.topic) == Occurrences(s.localShare, x)
  }

  ghost predicate Inv(c: Setting, s: State) {
    && RequestOk(c, s)
    && ForwardersOk(c, s) && LocalOk(c, s) && MonitoringOk(c, s)
  }

  lemma NoDuplicatesCount(xs: seq<Sensor>, x: Sensor)
    requires A.NoDuplicates(xs)
    ensures Occurrences(xs, x) == if x in xs then 1 else 0
  {
    if xs != [] {
      var front, last := xs[..|xs| - 1], xs[|xs| - 1];
      NoDuplicatesCount(front, x);
      assert xs == front + [last];
      if last == x {
        assert forall k :: 0 <= k < |front| ==> front[k] != x;
      }
    }
  }

  lemma AllocateOk(c: Setting, data: seq<A.HostData>)
    requires DashFree(data)
    ensures MappingOk(c, Allocate(c, data))
  {
    var shares := A.HostShares(c.sensors, data);
    var mapping := Allocate(c, data);
    A.AllocationIsExactPartition(c.sensors, data, c.local);
    forall ip | A.HasIp(mapping, ip)
      ensures '-' !in ip
    {
      var k :| 0 <= k < |mapping| && mapping[k].ip == ip;
      assert mapping[k].devices[0] in mapping[k].devices;
      assert A.Assigned(mapping, ip, mapping[k].devices[0]);
    }
    A.HostSharesExact(c.sensors, data);
    forall ip, x | ip != c.local
      ensures Occurrences(A.DevicesOf(mapping, ip), x) <= 1
    {
      A.RemoteListsDoNotRepeat(shares, c.local, ip);
      NoDuplicatesCount(A.DevicesOf(mapping, ip), x);
    }
  }

  lemma UnusedDrains(c: Setting, f: Forwarder, ip: Ip)
    requires Unused(c, f, ip)
    ensures Drains(c, f, [], [], 0, ip)
  {
  }

  lemma InitialForwarders(c: Setting, s: State, data: seq<A.HostData>, forwarders: map<Ip, Forwarder>, alive: set<Ip>, now: int)
    requires StartedFrom(c, s, data, forwarders, alive, now)
    ensures ForwardersOk(c, s)
  {
    AllocateOk(c, data);
    forall ip | ip in s.alive && ip != c.local
      ensures Drains(c, ForwarderAt(s, ip), Queue(s.channels, ip), s.mapping, s.recoveries, ip)
    {
      var f := if ip in forwarders then forwarders[ip] else Forwarder(map[], map[], {});
      UnusedDrains(c, f, ip);
      StartsAfresh(c, f, s.mapping, ip);
    }
  }

  lemma StartsAfresh(c: Setting, f: Forwarder, mapping: seq<A.Share>, ip: Ip)
    requires A.DistinctIps(mapping) && ip != c.local && Drains(c, f, [], [], 0, ip)
    ensures Drains(c, f, Queue(SendStarts(map[], mapping, c.local, c.topic), ip), mapping, 0, ip)
  {
    SendStartsQueue(map[], mapping, c.local, c.topic, ip);
    var sent := if A.HasIp(mapping, ip) then [Start(c.topic, A.DevicesOf(mapping, ip))] else [];
    DrainsAfterSend(c, f, [], [], 0, ip, sent, mapping, 0);
    assert [] + sent == sent;
  }

  lemma InitialInv(c: Setting, s: State)
    requires c.Valid() && Initial(c, s)
    ensures Inv(c, s)
  {
    var data, forwarders: map<Ip, Forwarder>, alive, now :| StartedFrom(c, s, data, forwarders, alive, now);
    AllocateOk(c, data);
    InitialForwarders(c, s, data, forwarders, alive, now);
    SendStartsQueue(map[], s.mapping, c.local, c.topic, c.local);
    assert Unused(c, forwarders[c.local], c.local);
    forall x
      ensures Count(ForwarderAt(s, c.local).table, x, c.local, c.topic) == Occurrences(s.localShare, x)
    {
      RegisterAllCounts(forwarders[c.local].table, s.localShare, c.local, c.topic, x, c.local, c.topic);
    }
  }

  /** Exactly the remote gateways of the mapping are asked, now, and their answers awaited. */
  ghost predicate AllAwaited(c: Setting, s: State) {
    && (forall ip :: ip in s.awaiting <==> A.HasIp(s.mapping, ip) && ip != c.local)
    && (forall ip :: ip in s.awaiting ==> s.awaiting[ip] == s.now)
    && s.epoch == s.now && s.answered == {} && s.refused == {}
  }

  /** The mapping is an exact partition of what the link graph `data` offers of the required sensors. */
  ghost predicate Partitions(c: Setting, mapping: seq<A.Share>, data: seq<A.HostData>) {
    && (forall ip, x :: A.Assigned(mapping, ip, x) ==> x in c.sensors && A.Hosts(data, ip, x))
    && (forall x, ip :: x in c.sensors && A.Hosts(data, ip, x) ==> exists owner :: A.Assigned(mapping, owner, x))
    && (forall x, ip, other :: A.Assigned(mapping, ip, x) && A.Assigned(mapping, other, x) ==> ip == other)
    && (forall x :: x in c.sensors && A.Hosts(data, c.local, x) ==> A.Assigned(mapping, c.local, x))
  }

  lemma AllocationPartitions(c: Setting, data: seq<A.HostData>)
    ensures Partitions(c, Allocate(c, data), data)
  {
    A.AllocationIsExactPartition(c.sensors, data, c.local);
  }

  /** Setting up asks every remote gateway of an allocation over some link graph, and registers the local share here. */
  lemma InitialRequests(c: Setting, s: State)
    requires Initial(c, s)
    ensures AllAwaited(c, s) && s.timers == map[] && s.recoveries == 0
    ensures exists data :: Partitions(c, s.mapping, data)
    ensures s.localShare == A.DevicesOf(s.mapping, c.local)
    ensures forall x :: Count(ForwarderAt(s, c.local).table, x, c.local, c.topic) == Occurrences(A.DevicesOf(s.mapping, c.local), x)
  {
    var data, forwarders: map<Ip, Forwarder>, alive, now :| StartedFrom(c, s, data, forwarders, alive, now);
    AllocationPartitions(c, data);
    assert Unused(c, forwarders[c.local], c.local);
    forall x
      ensures Count(ForwarderAt(s, c.local).table, x, c.local, c.topic) == Occurrences(s.localShare, x)
    {
      RegisterAllCounts(forwarders[c.local].table, s.localShare, c.local, c.topic, x, c.local, c.topic);
    }
  }

  /** The end of a recovery adopts an allocation over the link graph that came back, and asks its remote gateways. */
  lemma RecomputeRequests(c: Setting, s: State, data: seq<A.HostData>, s': State)
    requires RecomputeStep(c, s, data, s') && s.awaiting == map[]
    ensures AllAwaited(c, s') && Partitions(c, s'.mapping, data) && s'.recoveries == s.recoveries - 1
  {
    AllocationPartitions(c, data);
  }

  /** A step that touches neither channels, forwarders, mapping nor recoveries. */
  lemma SameForwarders(c: Setting, s: State, s': State)
    requires ForwardersOk(c, s) && LocalOk(c, s)
    requires s'.forwarders == s.forwarders && s'.channels == s.channels && s'.localShare == s.localShare
    requires s'.mapping == s.mapping && s'.recoveries == s.recoveries && s'.alive <= s.alive
    ensures ForwardersOk(c, s') && LocalOk(c, s')
  {
  }

  /** Timers, replies and the request are as before. */
  ghost predicate SameTimers(s: State, s': State) {
    && s'.timers == s.timers && s'.lastHeard == s.lastHeard && s'.awaiting == s.awaiting && s'.answered == s.answered
    && s'.refused == s.refused
    && s'.mapping == s.mapping && s'.recoveries == s.recoveries && s'.epoch == s.epoch && s'.now == s.now
  }

  lemma KeepsRequest(c: Setting, s: State, s': State)
    requires RequestOk(c, s) && SameTimers(s, s')
    ensures RequestOk(c, s') && (AnsweredOk(c, s) ==> AnsweredOk(c, s'))
  {
  }

  lemma DeliverForwarders(c: Setting, s: State, ip: Ip, s': State)
    requires ForwardersOk(c, s) && DeliverStep(c, s, ip, s')
    ensures ForwardersOk(c, s')
  {
    if ip in s.alive && ip != c.local {
      DrainsAfterDelivery(c, ForwarderAt(s, ip), Queue(s.channels, ip), s.mapping, s.recoveries, ip);
    }
    forall other | other in s'.alive && other != c.local
      ensures Drains(c, ForwarderAt(s', other), Queue(s'.channels, other), s'.mapping, s'.recoveries, other)
    {
      assert Drains(c, ForwarderAt(s, other), Queue(s.channels, other), s.mapping, s.recoveries, other);
    }
  }

  lemma HandleIntervals(c: Setting, s: State, ip: Ip, m: Message)
    requires IntervalsOk(c, s) && ip != c.local && m.topic == c.topic
    ensures IntervalsOk(c, Handle(c, s, ip, m))
  {
  }

  lemma DeliverMonitoring(c: Setting, s: State, ip: Ip, s': State)
    requires MonitoringOk(c, s) && DeliverStep(c, s, ip, s')
    requires ip in s.alive ==> ip != c.local && OwnTopic(Queue(s.channels, ip), c.topic)
    ensures IntervalsOk(c, s') && BeatsOk(s') && HeardInTime(c, s')
  {
    var rest := s.(channels := s.channels[ip := Queue(s.channels, ip)[1..]]);
    assert IntervalsOk(c, rest);
    if ip in s.alive {
      HandleIntervals(c, rest, ip, Queue(s.channels, ip)[0]);
    }
    DeliverHeardInTime(c, s, ip, s');
  }

  lemma DeliverHeardInTime(c: Setting, s: State, ip: Ip, s': State)
    requires HeardInTime(c, s) && Queue(s.channels, ip) != []
    requires s'.alive == s.alive && s'.timers == s.timers && s'.beats == s.beats
    requires forall other :: other != ip ==> Queue(s'.channels, other) == Queue(s.channels, other)
    requires forall other :: other != ip && other in s.beating ==> other in s'.beating && s'.beating[other] == s.beating[other]
    ensures HeardInTime(c, s')
  {
    forall other | other in s.alive && other != c.local && Key(c.topic, other) in s.timers
      ensures Queue(s'.channels, other) == [] && WillBeHeard(s', other, s.timers[Key(c.topic, other)])
    {
      assert WillBeHeard(s, other, s.timers[Key(c.topic, other)]);
    }
  }

  lemma DeliverLocal(c: Setting, s: State, ip: Ip, s': State)
    requires LocalOk(c, s) && ip != c.local && DeliverStep(c, s, ip, s')
    ensures LocalOk(c, s')
  {
    assert ForwarderAt(s', c.local) == ForwarderAt(s, c.local);
  }

  lemma DeliverGateways(c: Setting, s: State, ip: Ip, s': State)
    requires ForwardersOk(c, s) && LocalOk(c, s) && MonitoringOk(c, s) && DeliverStep(c, s, ip, s')
    ensures ForwardersOk(c, s') && LocalOk(c, s') && IntervalsOk(c, s') && BeatsOk(s') && HeardInTime(c, s')
  {
    assert ip != c.local;
    assert ip in s.alive ==> Drains(c, ForwarderAt(s, ip), Queue(s.channels, ip), s.mapping, s.recoveries, ip);
    DeliverForwarders(c, s, ip, s');
    DeliverLocal(c, s, ip, s');
    DeliverMonitoring(c, s, ip, s');
  }

  lemma DeliverInv(c: Setting, s: State, ip: Ip, s': State)
    requires Inv(c, s) && DeliverStep(c, s, ip, s')
    ensures Inv(c, s')
  {
    DeliverGateways(c, s, ip, s');
    KeepsRequest(c, s, s');
  }

  lemma OtherTrafficForwarders(c: Setting, s: State, at: Ip, requester: Ip, message: Message, s': State)
    requires c.Valid() && ForwardersOk(c, s) && OtherTrafficStep(c, s, at, requester, message, s')
    ensures ForwardersOk(c, s')
  {
    forall ip | ip in s'.alive && ip != c.local
      ensures Drains(c, ForwarderAt(s', ip), Queue(s'.channels, ip), s'.mapping, s'.recoveries, ip)
    {
      assert Drains(c, ForwarderAt(s, ip), Queue(s.channels, ip), s.mapping, s.recoveries, ip);
      if ip == at {
        DrainsAfterOtherTraffic(c, ForwarderAt(s, ip), Queue(s.channels, ip), s.mapping, s.recoveries, ip, requester, message);
      }
    }
  }

  lemma OtherTrafficLocal(c: Setting, s: State, at: Ip, requester: Ip, message: Message, s': State)
    requires c.Valid() && LocalOk(c, s) && OtherTrafficStep(c, s, at, requester, message, s')
    ensures LocalOk(c, s')
  {
    forall x
      ensures Count(ForwarderAt(s', c.local).table, x, c.local, c.topic) == Occurrences(s.localShare, x)
    {
      if c.local == at {
        OtherTrafficIsSeparate(c, ForwarderAt(s, at), message, requester, at, x);
        assert HoldingAt(c, ForwarderAt(s', at), at, x) == HoldingAt(c, ForwarderAt(s, at), at, x);
      }
    }
  }

  lemma OtherTrafficMonitoring(c: Setting, s: State, at: Ip, requester: Ip, message: Message, s': State)
    requires c.Valid() && MonitoringOk(c, s) && OtherTrafficStep(c, s, at, requester, message, s')
    ensures MonitoringOk(c, s')
  {
    OtherTrafficIsSeparate(c, ForwarderAt(s, at), message, requester, at, "");
    assert HoldingAt(c, ForwarderAt(s', at), at, "") == HoldingAt(c, ForwarderAt(s, at), at, "");
    KeepsHeardInTime(c, s, s');
  }

  lemma KeepsHeardInTime(c: Setting, s: State, s': State)
    requires HeardInTime(c, s) && s'.alive <= s.alive && s'.timers == s.timers && s'.channels == s.channels
    requires s'.beating == s.beating && s'.beats == s.beats
    ensures HeardInTime(c, s')
  {
    forall ip | ip in s'.alive && ip != c.local && Key(c.topic, ip) in s'.timers
      ensures WillBeHeard(s', ip, s'.timers[Key(c.topic, ip)])
    {
      assert WillBeHeard(s, ip, s.timers[Key(c.topic, ip)]);
    }
  }

  lemma OtherTrafficInv(c: Setting, s: State, at: Ip, requester: Ip, message: Message, s': State)
    requires c.Valid() && Inv(c, s) && OtherTrafficStep(c, s, at, requester, message, s')
    ensures Inv(c, s')
  {
    OtherTrafficForwarders(c, s, at, requester, message, s');
    OtherTrafficLocal(c, s, at, requester, message, s');
    OtherTrafficMonitoring(c, s, at, requester, message, s');
    KeepsRequest(c, s, s');
  }

  lemma ArmedRequestOk(c: Setting, s: State, ip: Ip)
    requires c.Valid() && RequestOk(c, s) && s.recoveries == 0 && A.HasIp(s.mapping, ip) && ip != c.local
    ensures RequestOk(c, Arm(s, Key(c.topic, ip)))
  {
    SplitKey(c.topic, ip);
    FirstPartIsPrefix(ip);
    assert SecondPart(Key(c.topic, ip)) == ip;
  }

  /** A gateway that has just been heard is heard again in time. */
  lemma ArmedIsHeardInTime(c: Setting, s: State, ip: Ip)
    requires HeardInTime(c, s) && IntervalsOk(c, s) && ip != c.local
    requires ip in s.alive ==> ip in s.beating && Queue(s.channels, ip) == []
    ensures HeardInTime(c, Arm(s, Key(c.topic, ip)))
  {
    var s' := Arm(s, Key(c.topic, ip));
    forall other | other in s.alive && other != c.local && Key(c.topic, other) in s'.timers
      ensures Queue(s.channels, other) == [] && WillBeHeard(s', other, s'.timers[Key(c.topic, other)])
    {
      KeyDeterminesGateway(c.topic, ip, other);
    }
  }

  lemma AnsweredAfterArm(c: Setting, s: State, ip: Ip)
    requires AnsweredOk(c, s)
    ensures AnsweredOk(c, Arm(s.(answered := s.answered + {ip}), Key(c.topic, ip)))
  {
    forall other
      ensures Key(c.topic, ip) == Key(c.topic, other) <==> ip == other
    {
      KeyDeterminesGateway(c.topic, ip, other);
    }
  }

  /** A live gateway whose channel is empty beats iff the mapping lists it. */
  lemma DrainedBeats(c: Setting, s: State, ip: Ip)
    requires ForwardersOk(c, s) && IntervalsOk(c, s) && s.recoveries == 0
    requires ip in s.alive && ip != c.local && Queue(s.channels, ip) == []
    ensures ip in s.beating <==> A.HasIp(s.mapping, ip)
  {
    assert Drains(c, ForwarderAt(s, ip), [], s.mapping, 0, ip);
    assert Settled(HoldingAt(c, ForwarderAt(s, ip), ip, ""), [], "") == Expected(s.mapping, 0, ip, "");
  }

  lemma AnsweredMonitoring(c: Setting, s: State, ip: Ip)
    requires MonitoringOk(c, s) && ForwardersOk(c, s) && s.recoveries == 0
    requires A.HasIp(s.mapping, ip) && ip != c.local && Queue(s.channels, ip) == []
    ensures MonitoringOk(c, Arm(s.(answered := s.answered + {ip}), Key(c.topic, ip)))
  {
    var s1 := s.(answered := s.answered + {ip});
    if ip in s.alive {
      DrainedBeats(c, s, ip);
    }
    KeepsHeardInTime(c, s, s1);
    ArmedIsHeardInTime(c, s1, ip);
    AnsweredAfterArm(c, s, ip);
  }

  lemma SettledRequest(c: Setting, s: State, ip: Ip, ok: bool)
    requires RequestOk(c, s) && ip in s.awaiting
    ensures RequestOk(c, if ok then s.(awaiting := s.awaiting - {ip}, answered := s.answered + {ip})
                         else s.(awaiting := s.awaiting - {ip}, refused := s.refused + {ip}))
  {
  }

  lemma SettledMonitoring(c: Setting, s: State, ip: Ip)
    requires MonitoringOk(c, s)
    ensures MonitoringOk(c, s.(awaiting := s.awaiting - {ip}))
  {
    KeepsHeardInTime(c, s, s.(awaiting := s.awaiting - {ip}));
  }

  lemma ReplyInv(c: Setting, s: State, ip: Ip, ok: bool, s': State)
    requires c.Valid() && Inv(c, s) && ReplyStep(c, s, ip, ok, s')
    ensures Inv(c, s')
  {
    var settled := s.(awaiting := s.awaiting - {ip});
    assert A.HasIp(s.mapping, ip) && ip != c.local && s.recoveries == 0;
    SettledMonitoring(c, s, ip);
    SameForwarders(c, s, settled);
    SameForwarders(c, s, s');
    if ok {
      SettledRequest(c, s, ip, true);
      ArmedRequestOk(c, settled.(answered := s.answered + {ip}), ip);
      AnsweredMonitoring(c, settled, ip);
    } else {
      SettledRequest(c, s, ip, false);
      KeepsHeardInTime(c, settled, s');
    }
  }

  lemma BeatMonitoring(c: Setting, s: State, ip: Ip, s': State)
    requires MonitoringOk(c, s) && BeatStep(s, ip, s')
    ensures MonitoringOk(c, s')
  {
    assert s.beating[ip] == s.now;
    forall other | other in s.alive && other != c.local && Key(c.topic, other) in s.timers
      ensures WillBeHeard(s', other, s.timers[Key(c.topic, other)])
    {
      assert Heartbeat(ip, s.now) in s'.beats;
      assert WillBeHeard(s, other, s.timers[Key(c.topic, other)]);
    }
  }

  lemma BeatInv(c: Setting, s: State, ip: Ip, s': State)
    requires Inv(c, s) && BeatStep(s, ip, s')
    ensures Inv(c, s')
  {
    SameForwarders(c, s, s');
    BeatMonitoring(c, s, ip, s');
    KeepsRequest(c, s, s');
  }

  /** A heartbeat that arrives is no longer needed: its gateway's timer starts afresh. */
  lemma ArriveHeardInTime(c: Setting, s: State, beat: Heartbeat, s': State)
    requires HeardInTime(c, s) && IntervalsOk(c, s) && ArriveStep(c, s, beat, s')
    ensures HeardInTime(c, s')
  {
    forall other | other in s.alive && other != c.local && Key(c.topic, other) in s'.timers
      ensures Queue(s.channels, other) == [] && WillBeHeard(s', other, s'.timers[Key(c.topic, other)])
    {
      KeyDeterminesGateway(c.topic, beat.ip, other);
      assert WillBeHeard(s, other, s.timers[Key(c.topic, other)]);
    }
  }

  lemma ArrivedMonitoring(c: Setting, s: State, beat: Heartbeat)
    requires IntervalsOk(c, s) && BeatsOk(s) && AnsweredOk(c, s)
    ensures var arrived := s.(beats := s.beats - {beat});
      IntervalsOk(c, arrived) && BeatsOk(arrived) && AnsweredOk(c, arrived)
  {
  }

  lemma RearmedMonitoring(c: Setting, s: State, key: string)
    requires IntervalsOk(c, s) && BeatsOk(s) && AnsweredOk(c, s) && key in s.timers
    ensures IntervalsOk(c, Arm(s, key)) && BeatsOk(Arm(s, key)) && AnsweredOk(c, Arm(s, key))
  {
    assert Arm(s, key).timers.Keys == s.timers.Keys;
  }

  lemma ArriveMonitoring(c: Setting, s: State, beat: Heartbeat, s': State)
    requires MonitoringOk(c, s) && ArriveStep(c, s, beat, s')
    ensures MonitoringOk(c, s')
  {
    var arrived := s.(beats := s.beats - {beat});
    ArriveHeardInTime(c, s, beat, s');
    ArrivedMonitoring(c, s, beat);
    if Key(c.topic, beat.ip) in s.timers {
      RearmedMonitoring(c, arrived, Key(c.topic, beat.ip));
    }
  }

  lemma ArriveInv(c: Setting, s: State, beat: Heartbeat, s': State)
    requires c.Valid() && Inv(c, s) && ArriveStep(c, s, beat, s')
    ensures Inv(c, s')
  {
    var arrived := s.(beats := s.beats - {beat});
    SameForwarders(c, s, s');
    ArriveMonitoring(c, s, beat, s');
    KeepsRequest(c, s, arrived);
    if Key(c.topic, beat.ip) in s.timers {
      KeyDeterminesGateway(c.topic, SecondPart(Key(c.topic, beat.ip)), beat.ip);
      ArmedRequestOk(c, arrived, beat.ip);
    }
  }

  /** The timer of a live gateway is never due: the next heartbeat comes first. */
  lemma LiveTimersAreNotDue(c: Setting, s: State, ip: Ip)
    requires MonitoringOk(c, s) && ip in s.alive && ip != c.local && Key(c.topic, ip) in s.timers
    ensures s.now < s.timers[Key(c.topic, ip)]
  {
    assert WillBeHeard(s, ip, s.timers[Key(c.topic, ip)]);
  }

  /** Every timer belongs to a gateway of the mapping, so a recovery clears them all. */
  lemma RecoveryClearsAll(c: Setting, s: State)
    requires TimersOk(c, s)
    ensures ClearTimers(s.timers, s.mapping, c.topic) == map[]
  {
    ClearTimersExact(s.timers, s.mapping, c.topic);
    forall key | key in s.timers
      ensures key !in ClearTimers(s.timers, s.mapping, c.topic)
    {
      var k :| 0 <= k < |s.mapping| && s.mapping[k].ip == SecondPart(key);
    }
  }

  /**
   When a timer fires, that is at its deadline, no reply is outstanding, no recovery is in progress, and the gateway
   has crashed.
   */
  lemma TimeoutIsAccurate(c: Setting, s: State, key: string)
    requires c.Valid() && RequestOk(c, s) && MonitoringOk(c, s)
    requires key in s.timers && s.timers[key] <= s.now
    ensures s.timers[key] == s.now && s.awaiting == map[] && s.recoveries == 0
    ensures key == Key(c.topic, SecondPart(key)) && FirstPart(key) == c.topic && SecondPart(key) !in s.alive
    ensures BeginRecovery(c, s, SecondPart(key)).timers == map[]
  {
    SplitKey(c.topic, SecondPart(key));
    if SecondPart(key) in s.alive {
      LiveTimersAreNotDue(c, s, SecondPart(key));
    }
    RecoveryClearsAll(c, s);
    assert forall ip :: ip !in s.awaiting;
  }

  lemma StopsDrain(c: Setting, f: Forwarder, channels: Channels, mapping: seq<A.Share>, failed: Ip, ip: Ip)
    requires A.DistinctIps(mapping) && ip != c.local && ip != failed && Drains(c, f, Queue(channels, ip), mapping, 0, ip)
    ensures Drains(c, f, Queue(SendStops(channels, mapping, c.local, failed, c.topic), ip), mapping, 1, ip)
  {
    SendStopsQueue(channels, mapping, c.local, failed, c.topic, ip);
    var sent := if A.HasIp(mapping, ip) then [Stop(c.topic, A.DevicesOf(mapping, ip))] else [];
    DrainsAfterSend(c, f, Queue(channels, ip), mapping, 0, ip, sent, mapping, 1);
  }

  lemma BeginRecoveryForwarders(c: Setting, s: State, failed: Ip)
    requires MappingOk(c, s.mapping) && ForwardersOk(c, s) && LocalOk(c, s) && s.recoveries == 0 && failed !in s.alive
    ensures ForwardersOk(c, BeginRecovery(c, s, failed)) && LocalOk(c, BeginRecovery(c, s, failed))
  {
    var s' := BeginRecovery(c, s, failed);
    SendStopsQueue(s.channels, s.mapping, c.local, failed, c.topic, c.local);
    assert Queue(s'.channels, c.local) == Queue(s.channels, c.local) + [];
    forall ip | ip in s'.alive && ip != c.local
      ensures Drains(c, ForwarderAt(s', ip), Queue(s'.channels, ip), s'.mapping, s'.recoveries, ip)
    {
      assert Drains(c, ForwarderAt(s, ip), Queue(s.channels, ip), s.mapping, s.recoveries, ip);
      StopsDrain(c, ForwarderAt(s, ip), s.channels, s.mapping, failed, ip);
    }
  }

  lemma StartsDrain(c: Setting, f: Forwarder, channels: Channels, before: seq<A.Share>, mapping: seq<A.Share>, ip: Ip)
    requires A.DistinctIps(mapping) && ip != c.local && Drains(c, f, Queue(channels, ip), before, 1, ip)
    ensures Drains(c, f, Queue(SendStarts(channels, mapping, c.local, c.topic), ip), mapping, 0, ip)
  {
    SendStartsQueue(channels, mapping, c.local, c.topic, ip);
    var sent := if A.HasIp(mapping, ip) then [Start(c.topic, A.DevicesOf(mapping, ip))] else [];
    DrainsAfterSend(c, f, Queue(channels, ip), before, 1, ip, sent, mapping, 0);
  }

  lemma FinishRecoveryForwarders(c: Setting, s: State, mapping: seq<A.Share>)
    requires MappingOk(c, mapping) && ForwardersOk(c, s) && s.recoveries == 1
    ensures ForwardersOk(c, FinishRecovery(c, s, mapping))
  {
    var s' := FinishRecovery(c, s, mapping);
    forall ip | ip in s'.alive && ip != c.local
      ensures Drains(c, ForwarderAt(s', ip), Queue(s'.channels, ip), s'.mapping, s'.recoveries, ip)
    {
      StartsDrain(c, ForwarderAt(s, ip), s.channels, s.mapping, mapping, ip);
    }
  }

  lemma TimeoutInv(c: Setting, s: State, key: string, s': State)
    requires c.Valid() && Inv(c, s) && TimeoutStep(c, s, key, s')
    ensures Inv(c, s')
  {
    TimeoutIsAccurate(c, s, key);
    BeginRecoveryForwarders(c, s, SecondPart(key));
    BeginRecoveryMonitoring(c, s, SecondPart(key));
  }

  lemma BeginRecoveryMonitoring(c: Setting, s: State, failed: Ip)
    requires RequestOk(c, s) && MonitoringOk(c, s) && s.recoveries == 0 && s.awaiting == map[]
    ensures RequestOk(c, BeginRecovery(c, s, failed)) && MonitoringOk(c, BeginRecovery(c, s, failed))
  {
    RecoveryClearsAll(c, s);
  }

  lemma FinishRecoveryMonitoring(c: Setting, s: State, mapping: seq<A.Share>)
    requires RequestOk(c, s) && MonitoringOk(c, s) && s.recoveries == 1 && MappingOk(c, mapping)
    ensures RequestOk(c, FinishRecovery(c, s, mapping)) && MonitoringOk(c, FinishRecovery(c, s, mapping))
  {
  }

  lemma RecomputeInv(c: Setting, s: State, data: seq<A.HostData>, s': State)
    requires Inv(c, s) && RecomputeStep(c, s, data, s')
    ensures Inv(c, s')
  {
    AllocateOk(c, data);
    FinishRecoveryForwarders(c, s, Allocate(c, data));
    FinishRecoveryMonitoring(c, s, Allocate(c, data));
    SendStartsQueue(s.channels, Allocate(c, data), c.local, c.topic, c.local);
  }

  lemma TickMonitoring(c: Setting, s: State, s': State)
    requires RequestOk(c, s) && MonitoringOk(c, s) && TickStep(c, s, s')
    ensures RequestOk(c, s') && MonitoringOk(c, s')
  {
    KeepsHeardInTime(c, s, s');
  }

  lemma TickInv(c: Setting, s: State, s': State)
    requires Inv(c, s) && TickStep(c, s, s')
    ensures Inv(c, s')
  {
    SameForwarders(c, s, s');
    TickMonitoring(c, s, s');
  }

  lemma CrashMonitoring(c: Setting, s: State, ip: Ip, s': State)
    requires MonitoringOk(c, s) && CrashStep(c, s, ip, s')
    ensures MonitoringOk(c, s')
  {
    KeepsHeardInTime(c, s, s');
  }

  lemma CrashInv(c: Setting, s: State, ip: Ip, s': State)
    requires Inv(c, s) && CrashStep(c, s, ip, s')
    ensures Inv(c, s')
  {
    SameForwarders(c, s, s');
    CrashMonitoring(c, s, ip, s');
    KeepsRequest(c, s, s');
  }

  lemma GatewayStepInv(c: Setting, s: State, step: Step, s': State)
    requires c.Valid() && Inv(c, s) && Next(c, s, step, s')
    requires step.Deliver? || step.Beat? || step.Crash? || step.OtherTraffic?
    ensures Inv(c, s')
  {
    match step
    case Deliver(ip) => DeliverInv(c, s, ip, s');
    case Beat(ip) => BeatInv(c, s, ip, s');
    case Crash(ip) => CrashInv(c, s, ip, s');
    case OtherTraffic(at, requester, message) => OtherTrafficInv(c, s, at, requester, message, s');
  }

  lemma NextInv(c: Setting, s: State, step: Step, s': State)
    requires c.Valid() && Inv(c, s) && Next(c, s, step, s')
    ensures Inv(c, s')
  {
    match step
    case Tick => TickInv(c, s, s');
    case Reply(ip, ok) => ReplyInv(c, s, ip, ok, s');
    case Arrive(beat) => ArriveInv(c, s, beat, s');
    case Timeout(key) => TimeoutInv(c, s, key, s');
    case Recompute(data) => RecomputeInv(c, s, data, s');
    case _ => GatewayStepInv(c, s, step, s');
  }

  lemma FollowsInv(c: Setting, s: State, s': State)
    requires c.Valid() && Inv(c, s) && Follows(c, s, s')
    ensures Inv(c, s')
  {
    var step :| Next(c, s, step, s');
    NextInv(c, s, step, s');
  }

  lemma ExecutionFollows(c: Setting, trace: seq<State>, k: nat)
    requires Execution(c, trace) && k + 1 < |trace|
    ensures Follows(c, trace[k], trace[k + 1])
  {
  }

  lemma {:induction false} ExecutionInv(c: Setting, trace: seq<State>, k: nat)
    requires c.Valid() && Execution(c, trace) && k < |trace|
    ensures Inv(c, trace[k])
  {
    if k == 0 {
      InitialInv(c, trace[0]);
    } else {
      ExecutionInv(c, trace, k - 1);
      ExecutionFollows(c, trace, k - 1);
      FollowsInv(c, trace[k - 1], trace[k]);
    }
  }
}
