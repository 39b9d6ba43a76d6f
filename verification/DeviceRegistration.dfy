/**
 Registering devices and delivering their data while registration is under way
 (platform/device-manager/device-manager.js:14-20, 80-159, platform/dao/collections/devices-dao.js:20-31).

 A database insertion is an outstanding operation that first stores the device and later runs its callback; the
 operations of different calls advance in any order.
 */
module DeviceRegistration {
  import opened Vocabulary

  type HandlerId = string

  datatype Reading = Reading(device: DeviceId, data: string)

  /** A call of addDevice whose callback has not run. */
  datatype Insertion = Insertion(device: DeviceId, handler: HandlerId, fromDeliver: bool, stored: bool)

  /** `delivered` is the history of readings handed in; `crashed` marks a callback that found no buffer to publish. */
  datatype State = State(
    deviceCache: map<DeviceId, HandlerId>,
    pendingDeviceBuffer: map<DeviceId, seq<Reading>>,
    database: set<DeviceId>,
    outstanding: seq<Insertion>,
    delivered: seq<Reading>,
    published: seq<Reading>,
    crashed: bool)

  datatype Event =
    | Register(device: DeviceId, handler: HandlerId)
    | Deliver(handler: HandlerId, reading: Reading)
    | Store(index: nat)
    | Complete(index: nat)

  function RegisterStep(s: State, device: DeviceId, handler: HandlerId): State {
    if device in s.deviceCache then s
    else s.(outstanding := s.outstanding + [Insertion(device, handler, false, false)])
  }

  function DeliverStep(s: State, handler: HandlerId, reading: Reading): State {
    var d := reading.device;
    var s := s.(delivered := s.delivered + [reading]);
    if d in s.pendingDeviceBuffer then
      s.(pendingDeviceBuffer := s.pendingDeviceBuffer[d := s.pendingDeviceBuffer[d] + [reading]])
    else if d !in s.deviceCache then
      s.(pendingDeviceBuffer := s.pendingDeviceBuffer[d := [reading]],
         outstanding := s.outstanding + [Insertion(d, handler, true, false)])
    else
      s.(published := s.published + [reading])
  }

  /** The insertion reaches the database, which keeps an entry that it already has. */
  function StoreStep(s: State, k: nat): State
    requires k < |s.outstanding|
  {
    s.(database := s.database + {s.outstanding[k].device},
       outstanding := s.outstanding[k := s.outstanding[k].(stored := true)])
  }

  function Without(ops: seq<Insertion>, k: nat): seq<Insertion>
    requires k < |ops|
  {
    ops[..k] + ops[k + 1..]
  }

  /** The callback of a stored insertion. */
  function CompleteStep(s: State, k: nat): State
    requires k < |s.outstanding|
  {
    var op := s.outstanding[k];
    var s := s.(outstanding := Without(s.outstanding, k), deviceCache := s.deviceCache[op.device := op.handler]);
    if !op.fromDeliver then s
    else if op.device !in s.pendingDeviceBuffer then s.(crashed := true)
    else s.(published := s.published + s.pendingDeviceBuffer[op.device],
            pendingDeviceBuffer := s.pendingDeviceBuffer - {op.device})
  }

  /** Events that name no outstanding insertion, or complete one that is not stored, do not occur and change nothing. */
  function Step(s: State, e: Event): State {
    match e
    case Register(device, handler) => RegisterStep(s, device, handler)
    case Deliver(handler, reading) => DeliverStep(s, handler, reading)
    case Store(k) => if k < |s.outstanding| then StoreStep(s, k) else s
    case Complete(k) => if k < |s.outstanding| && s.outstanding[k].stored then CompleteStep(s, k) else s
  }

  /** The state after the handlers have loaded the registered devices into the cache. */
  function Loaded(database: map<DeviceId, HandlerId>): State {
    State(database, map[], database.Keys, [], [], [], false)
  }

  function Run(s: State, events: seq<Event>): State {
    if events == [] then s else Step(Run(s, events[..|events| - 1]), events[|events| - 1])
  }

  // ---------------------------------------------------------------------------
  // The handlers on the module's tables

  class DeviceManager {
    var deviceCache: map<DeviceId, HandlerId>
    var pendingDeviceBuffer: map<DeviceId, seq<Reading>>
    var database: set<DeviceId>
    var outstanding: seq<Insertion>
    var published: seq<Reading>
    ghost var delivered: seq<Reading>
    ghost var crashed: bool

    constructor (stored: map<DeviceId, HandlerId>)
      ensures Tables() == Loaded(stored)
    {
      deviceCache, pendingDeviceBuffer, database, outstanding := stored, map[], stored.Keys, [];
      published, delivered, crashed := [], [], false;
    }

    ghost function Tables(): State
      reads this
    {
      State(deviceCache, pendingDeviceBuffer, database, outstanding, delivered, published, crashed)
    }

    method AddDevice(device: DeviceId, handler: HandlerId, fromDeliver: bool)
      modifies this`outstanding
      ensures outstanding == old(outstanding) + [Insertion(device, handler, fromDeliver, false)]
    {
      outstanding := outstanding + [Insertion(device, handler, fromDeliver, false)];
    }

    method Register(device: DeviceId, handler: HandlerId)
      modifies this
      ensures Tables() == RegisterStep(old(Tables()), device, handler)
    {
      if device !in deviceCache {
        AddDevice(device, handler, false);
      }
    }

    method Deliver(handler: HandlerId, reading: Reading)
      modifies this
      ensures Tables() == DeliverStep(old(Tables()), handler, reading)
    {
      var d := reading.device;
      delivered := delivered + [reading];
      if d in pendingDeviceBuffer {
        pendingDeviceBuffer := pendingDeviceBuffer[d := pendingDeviceBuffer[d] + [reading]];
      } else if d !in deviceCache {
        pendingDeviceBuffer := pendingDeviceBuffer[d := [reading]];
        AddDevice(d, handler, true);
      } else {
        published := published + [reading];
      }
    }

    method OnStored(k: nat)
      requires k < |outstanding|
      modifies this
      ensures Tables() == StoreStep(old(Tables()), k)
    {
      if outstanding[k].device !in database {
        database := database + {outstanding[k].device};
      } else {
        assert database == database + {outstanding[k].device};
      }
      outstanding := outstanding[k := outstanding[k].(stored := true)];
    }

    method OnComplete(k: nat)
      requires k < |outstanding|
      modifies this
      ensures Tables() == CompleteStep(old(Tables()), k)
    {
      var op := outstanding[k];
      outstanding := outstanding[..k] + outstanding[k + 1..];
      deviceCache := deviceCache[op.device := op.handler];
      if op.fromDeliver {
        if op.device !in pendingDeviceBuffer {
          crashed := true;
          return;
        }
        var buffered := pendingDeviceBuffer[op.device];
        for i := 0 to |buffered|
          invariant published == old(published) + buffered[..i]
          modifies this`published
        {
          published := published + [buffered[i]];
        }
        assert buffered[..|buffered|] == buffered;
        pendingDeviceBuffer := pendingDeviceBuffer - {op.device};
      }
    }
  }

  // ---------------------------------------------------------------------------
  // Conservation

  /** The readings of one device, in order. */
  function OfDevice(readings: seq<Reading>, d: DeviceId): seq<Reading> {
    if readings == [] then []
    else
      var front, last := OfDevice(readings[..|readings| - 1], d), readings[|readings| - 1];
      if last.device == d then front + [last] else front
  }

  function Buffered(s: State, d: DeviceId): seq<Reading> {
    if d in s.pendingDeviceBuffer then s.pendingDeviceBuffer[d] else []
  }

  /** How many insertions started by a delivery for `d` are outstanding. */
  function DeliveriesOutstanding(ops: seq<Insertion>, d: DeviceId): nat {
    if ops == [] then 0
    else DeliveriesOutstanding(ops[..|ops| - 1], d) +
         (if ops[|ops| - 1].device == d && ops[|ops| - 1].fromDeliver then 1 else 0)
  }

  ghost predicate AllOf(readings: seq<Reading>, d: DeviceId) {
    forall k :: 0 <= k < |readings| ==> readings[k].device == d
  }

  ghost predicate Conserved(s: State, d: DeviceId) {
    && OfDevice(s.delivered, d) == OfDevice(s.published, d) + Buffered(s, d)
    && DeliveriesOutstanding(s.outstanding, d) == (if d in s.pendingDeviceBuffer then 1 else 0)
    && (d in s.deviceCache ==> d in s.database)
    && AllOf(Buffered(s, d), d)
  }

  ghost predicate Inv(s: State) {
    && !s.crashed
    && (forall d :: Conserved(s, d))
    && (forall k :: 0 <= k < |s.outstanding| && s.outstanding[k].stored ==> s.outstanding[k].device in s.database)
    && (forall k :: 0 <= k < |s.published| ==> s.published[k].device in s.database)
  }

  lemma {:induction false} OfDeviceAppend(a: seq<Reading>, b: seq<Reading>, d: DeviceId)
    ensures OfDevice(a + b, d) == OfDevice(a, d) + OfDevice(b, d)
  {
    if b == [] {
      assert a + b == a;
    } else {
      OfDeviceAppend(a, b[..|b| - 1], d);
      assert (a + b)[..|a + b| - 1] == a + b[..|b| - 1];
    }
  }

  lemma {:induction false} OfDeviceUniform(readings: seq<Reading>, own: DeviceId, d: DeviceId)
    requires AllOf(readings, own)
    ensures OfDevice(readings, d) == if d == own then readings else []
  {
    if readings != [] {
      OfDeviceUniform(readings[..|readings| - 1], own, d);
      assert readings == readings[..|readings| - 1] + [readings[|readings| - 1]];
    }
  }

  lemma {:induction false} OutstandingAppend(a: seq<Insertion>, b: seq<Insertion>, d: DeviceId)
    ensures DeliveriesOutstanding(a + b, d) == DeliveriesOutstanding(a, d) + DeliveriesOutstanding(b, d)
  {
    if b == [] {
      assert a + b == a;
    } else {
      OutstandingAppend(a, b[..|b| - 1], d);
      assert (a + b)[..|a + b| - 1] == a + b[..|b| - 1];
    }
  }

  /** Counting with the insertion at position k replaced by `op`. */
  lemma OutstandingReplaced(ops: seq<Insertion>, k: nat, op: Insertion, d: DeviceId)
    requires k < |ops|
    ensures DeliveriesOutstanding(ops[k := op], d) ==
            DeliveriesOutstanding(Without(ops, k), d) + DeliveriesOutstanding([op], d)
  {
    OutstandingAppend(ops[..k], ops[k + 1..], d);
    assert ops[k := op] == (ops[..k] + [op]) + ops[k + 1..];
    OutstandingAppend(ops[..k] + [op], ops[k + 1..], d);
    OutstandingAppend(ops[..k], [op], d);
  }

  lemma OutstandingAt(ops: seq<Insertion>, k: nat, d: DeviceId)
    requires k < |ops|
    ensures DeliveriesOutstanding(ops, d) ==
            DeliveriesOutstanding(Without(ops, k), d) + if ops[k].device == d && ops[k].fromDeliver then 1 else 0
  {
    OutstandingReplaced(ops, k, ops[k], d);
    assert ops == ops[k := ops[k]];
    One(ops[k], d);
  }

  lemma One(op: Insertion, d: DeviceId)
    ensures DeliveriesOutstanding([op], d) == if op.device == d && op.fromDeliver then 1 else 0
  {
    assert [op][..0] == [];
  }

  lemma RegisterInv(s: State, device: DeviceId, handler: HandlerId)
    requires Inv(s)
    ensures Inv(RegisterStep(s, device, handler))
  {
    var op := Insertion(device, handler, false, false);
    forall d
      ensures Conserved(RegisterStep(s, device, handler), d)
    {
      assert Conserved(s, d);
      OutstandingAppend(s.outstanding, [op], d);
      One(op, d);
    }
  }

  /** The readings of `d` after one more reading. */
  lemma OneMoreReading(readings: seq<Reading>, reading: Reading, d: DeviceId)
    ensures OfDevice(readings + [reading], d) == OfDevice(readings, d) + (if reading.device == d then [reading] else [])
  {
    assert (readings + [reading])[..|readings|] == readings;
  }

  lemma AllOfSnoc(readings: seq<Reading>, reading: Reading, d: DeviceId)
    requires AllOf(readings, d)
    ensures reading.device == d ==> AllOf(readings + [reading], d)
  {
  }

  lemma AppendLast<T>(whole: seq<T>, front: seq<T>, back: seq<T>, last: T)
    requires whole == front + back
    ensures whole + [last] == front + (back + [last])
  {
  }

  /** One more reading that is delivered and put behind those buffered for its device. */
  lemma OneMoreBuffered(delivered: seq<Reading>, published: seq<Reading>, buffered: seq<Reading>, reading: Reading, d: DeviceId)
    requires OfDevice(delivered, d) == OfDevice(published, d) + buffered && AllOf(buffered, d)
    ensures reading.device == d ==>
      OfDevice(delivered + [reading], d) == OfDevice(published, d) + (buffered + [reading]) && AllOf(buffered + [reading], d)
    ensures reading.device != d ==> OfDevice(delivered + [reading], d) == OfDevice(published, d) + buffered
  {
    OneMoreReading(delivered, reading, d);
    AppendLast(OfDevice(delivered, d), OfDevice(published, d), buffered, reading);
    AllOfSnoc(buffered, reading, d);
  }

  lemma OneMorePublished(delivered: seq<Reading>, published: seq<Reading>, reading: Reading, d: DeviceId)
    requires OfDevice(delivered, d) == OfDevice(published, d)
    ensures OfDevice(delivered + [reading], d) == OfDevice(published + [reading], d)
  {
    OneMoreReading(delivered, reading, d);
    OneMoreReading(published, reading, d);
  }

  /** A delivery that is buffered: behind other readings, or as the first one with an insertion of its own. */
  lemma BufferingConserves(s: State, s': State, reading: Reading, more: seq<Insertion>, d: DeviceId)
    requires Conserved(s, d)
    requires s' == s.(delivered := s.delivered + [reading], outstanding := s.outstanding + more,
                      pendingDeviceBuffer := s.pendingDeviceBuffer[reading.device := Buffered(s, reading.device) + [reading]])
    requires DeliveriesOutstanding(more, d) ==
             if d == reading.device && d !in s.pendingDeviceBuffer then 1 else 0
    ensures Conserved(s', d)
  {
    OneMoreBuffered(s.delivered, s.published, Buffered(s, d), reading, d);
    OutstandingAppend(s.outstanding, more, d);
    assert Buffered(s', d) == if d == reading.device then Buffered(s, d) + [reading] else Buffered(s, d);
  }

  lemma PublishingConserves(s: State, s': State, reading: Reading, d: DeviceId)
    requires Conserved(s, d) && reading.device !in s.pendingDeviceBuffer
    requires s' == s.(delivered := s.delivered + [reading], published := s.published + [reading])
    ensures Conserved(s', d)
  {
    if d == reading.device {
      OneMorePublished(s.delivered, s.published, reading, d);
    } else {
      OneMoreBuffered(s.delivered, s.published, Buffered(s, d), reading, d);
      OneMoreReading(s.published, reading, d);
    }
  }

  /** One delivery, seen from one device. */
  lemma DeliverConserves(s: State, handler: HandlerId, reading: Reading, d: DeviceId)
    requires Conserved(s, d)
    ensures Conserved(DeliverStep(s, handler, reading), d)
  {
    var s' := DeliverStep(s, handler, reading);
    if reading.device in s.pendingDeviceBuffer {
      assert s.outstanding + [] == s.outstanding;
      BufferingConserves(s, s', reading, [], d);
    } else if reading.device !in s.deviceCache {
      var op := Insertion(reading.device, handler, true, false);
      One(op, d);
      assert [] + [reading] == [reading];
      BufferingConserves(s, s', reading, [op], d);
    } else {
      PublishingConserves(s, s', reading, d);
    }
  }

  lemma DeliverInv(s: State, handler: HandlerId, reading: Reading)
    requires Inv(s)
    ensures Inv(DeliverStep(s, handler, reading))
  {
    forall d
      ensures Conserved(DeliverStep(s, handler, reading), d)
    {
      assert Conserved(s, d);
      DeliverConserves(s, handler, reading, d);
    }
    assert Conserved(s, reading.device);
  }

  lemma StoreInv(s: State, k: nat)
    requires Inv(s) && k < |s.outstanding|
    ensures Inv(StoreStep(s, k))
  {
    var op := s.outstanding[k].(stored := true);
    forall d
      ensures Conserved(StoreStep(s, k), d)
    {
      assert Conserved(s, d);
      OutstandingAt(s.outstanding, k, d);
      OutstandingReplaced(s.outstanding, k, op, d);
      One(op, d);
    }
  }

  /** Publishing a buffer: it moves behind what its device has published, and other devices see no difference. */
  lemma PublishedBuffer(published: seq<Reading>, buffered: seq<Reading>, own: DeviceId, d: DeviceId)
    requires AllOf(buffered, own)
    ensures OfDevice(published + buffered, d) == OfDevice(published, d) + if d == own then buffered else []
  {
    OfDeviceAppend(published, buffered, d);
    OfDeviceUniform(buffered, own, d);
  }

  /** The buffer of the completed device moves to what is published; buffers of other devices stay. */
  lemma CompleteMovesBuffer(s: State, k: nat, d: DeviceId)
    requires k < |s.outstanding| && Conserved(s, s.outstanding[k].device) && Conserved(s, d)
    requires s.outstanding[k].fromDeliver && s.outstanding[k].device in s.pendingDeviceBuffer
    ensures var s' := CompleteStep(s, k);
      OfDevice(s'.published, d) + Buffered(s', d) == OfDevice(s.published, d) + Buffered(s, d)
  {
    var own, s' := s.outstanding[k].device, CompleteStep(s, k);
    PublishedBuffer(s.published, s.pendingDeviceBuffer[own], own, d);
    assert Buffered(s', d) == if d == own then [] else Buffered(s, d);
    assert OfDevice(s.published, d) + [] == OfDevice(s.published, d);
  }

  lemma CompleteConserves(s: State, k: nat, d: DeviceId)
    requires k < |s.outstanding| && Conserved(s, s.outstanding[k].device) && Conserved(s, d)
    requires s.outstanding[k].device in s.database
    ensures Conserved(CompleteStep(s, k), d)
  {
    OutstandingAt(s.outstanding, k, d);
    OutstandingAt(s.outstanding, k, s.outstanding[k].device);
    if s.outstanding[k].fromDeliver {
      CompleteMovesBuffer(s, k, d);
    }
  }

  lemma CompleteInv(s: State, k: nat)
    requires Inv(s) && k < |s.outstanding| && s.outstanding[k].stored
    ensures Inv(CompleteStep(s, k))
  {
    var op := s.outstanding[k];
    assert Conserved(s, op.device);
    OutstandingAt(s.outstanding, k, op.device);
    One(op, op.device);
    forall d
      ensures Conserved(CompleteStep(s, k), d)
    {
      assert Conserved(s, d);
      CompleteConserves(s, k, d);
    }
  }

  lemma {:induction false} RunInv(database: map<DeviceId, HandlerId>, events: seq<Event>)
    ensures Inv(Run(Loaded(database), events))
  {
    if events == [] {
      forall d
        ensures Conserved(Loaded(database), d)
      {
      }
    } else {
      RunInv(database, events[..|events| - 1]);
      var s := Run(Loaded(database), events[..|events| - 1]);
      match events[|events| - 1]
      case Register(device, handler) => RegisterInv(s, device, handler);
      case Deliver(handler, reading) => DeliverInv(s, handler, reading);
      case Store(k) => if k < |s.outstanding| { StoreInv(s, k); }
      case Complete(k) => if k < |s.outstanding| && s.outstanding[k].stored { CompleteInv(s, k); }
    }
  }

  /** The readings that the events deliver for device `d`, in order. */
  function DeliveredTo(events: seq<Event>, d: DeviceId): seq<Reading> {
    if events == [] then []
    else
      var front, last := DeliveredTo(events[..|events| - 1], d), events[|events| - 1];
      if last.Deliver? && last.reading.device == d then front + [last.reading] else front
  }

  lemma StepDelivers(s: State, e: Event)
    ensures Step(s, e).delivered == s.delivered + if e.Deliver? then [e.reading] else []
  {
  }

  lemma {:induction false} DeliveriesAreRecorded(database: map<DeviceId, HandlerId>, events: seq<Event>, d: DeviceId)
    ensures OfDevice(Run(Loaded(database), events).delivered, d) == DeliveredTo(events, d)
  {
    if events != [] {
      var front, last := events[..|events| - 1], events[|events| - 1];
      DeliveriesAreRecorded(database, front, d);
      StepDelivers(Run(Loaded(database), front), last);
      if last.Deliver? {
        OneMoreReading(Run(Loaded(database), front).delivered, last.reading, d);
      }
    }
  }

  /**
   In every interleaving, the readings that the events delivered for a device are those published followed by those
   buffered, in order; a buffer exists exactly while one insertion started by a delivery is outstanding; and no callback
   fails.
   */
  lemma {:induction false} NothingIsLostOrReordered(database: map<DeviceId, HandlerId>, events: seq<Event>, d: DeviceId)
    ensures var s := Run(Loaded(database), events);
      && !s.crashed
      && DeliveredTo(events, d) == OfDevice(s.published, d) + Buffered(s, d)
      && DeliveriesOutstanding(s.outstanding, d) == (if d in s.pendingDeviceBuffer then 1 else 0)
      && (DeliveriesOutstanding(s.outstanding, d) == 0 ==> OfDevice(s.published, d) == DeliveredTo(events, d))
  {
    RunInv(database, events);
    DeliveriesAreRecorded(database, events, d);
    var s := Run(Loaded(database), events);
    assert Conserved(s, d);
  }

  // ---------------------------------------------------------------------------
  // Registrations take effect

  /** The event announces device `d` on behalf of handler `h`. */
  predicate Announces(e: Event, d: DeviceId, h: HandlerId) {
    e == Register(d, h) || (e.Deliver? && e.handler == h && e.reading.device == d)
  }

  /** Device `d` is cached, or its insertion is under way. */
  ghost predicate TakenUp(s: State, d: DeviceId) {
    d in s.deviceCache || exists k :: 0 <= k < |s.outstanding| && s.outstanding[k].device == d
  }

  lemma TakenUpWhenCompleted(s: State, k: nat, d: DeviceId)
    requires TakenUp(s, d) && k < |s.outstanding|
    ensures TakenUp(CompleteStep(s, k), d)
  {
    var s' := CompleteStep(s, k);
    assert s'.outstanding == Without(s.outstanding, k) && s'.deviceCache == s.deviceCache[s.outstanding[k].device := s.outstanding[k].handler];
    if at :| 0 <= at < |s.outstanding| && s.outstanding[at].device == d && at != k {
      assert s'.outstanding[if at < k then at else at - 1] == s.outstanding[at];
    }
  }

  lemma TakenUpStays(s: State, e: Event, d: DeviceId)
    requires TakenUp(s, d)
    ensures TakenUp(Step(s, e), d)
  {
    if e.Complete? && e.index < |s.outstanding| && s.outstanding[e.index].stored {
      TakenUpWhenCompleted(s, e.index, d);
    } else if k :| 0 <= k < |s.outstanding| && s.outstanding[k].device == d {
      assert Step(s, e).outstanding[k].device == d;
    }
  }

  lemma AnnouncedIsTakenUp(s: State, e: Event, d: DeviceId, h: HandlerId)
    requires Inv(s) && Announces(e, d, h)
    ensures TakenUp(Step(s, e), d)
  {
    assert Conserved(s, d);
    if d in s.pendingDeviceBuffer && e.Deliver? {
      SomeDelivery(s.outstanding, d);
      TakenUpStays(s, e, d);
    } else if d !in s.deviceCache {
      var s' := Step(s, e);
      assert s'.outstanding[|s.outstanding|].device == d;
    }
  }

  lemma {:induction false} SomeDelivery(ops: seq<Insertion>, d: DeviceId)
    requires DeliveriesOutstanding(ops, d) > 0
    ensures exists k :: 0 <= k < |ops| && ops[k].device == d
  {
    if ops[|ops| - 1].device != d {
      SomeDelivery(ops[..|ops| - 1], d);
      var k :| 0 <= k < |ops| - 1 && ops[..|ops| - 1][k].device == d;
      assert ops[k].device == d;
    }
  }

  /** In every interleaving a device that was announced is cached, or its insertion is under way. */
  lemma {:induction false} AnnouncedDevicesAreTakenUp(database: map<DeviceId, HandlerId>, events: seq<Event>, k: nat,
                                                      d: DeviceId, h: HandlerId)
    requires k < |events| && Announces(events[k], d, h)
    ensures TakenUp(Run(Loaded(database), events), d)
  {
    var front, last := events[..|events| - 1], events[|events| - 1];
    var s := Run(Loaded(database), front);
    if k < |front| {
      AnnouncedDevicesAreTakenUp(database, front, k, d, h);
      TakenUpStays(s, last, d);
    } else {
      RunInv(database, front);
      AnnouncedIsTakenUp(s, last, d, h);
    }
  }

  /** Handler `h` is one that announced device `d`, or that the database had for it at the start. */
  ghost predicate IsHandlerOf(database: map<DeviceId, HandlerId>, events: seq<Event>, d: DeviceId, h: HandlerId) {
    (d in database && database[d] == h) || exists k :: 0 <= k < |events| && Announces(events[k], d, h)
  }

  ghost predicate HandlersOk(database: map<DeviceId, HandlerId>, events: seq<Event>, s: State) {
    && (forall d :: d in s.deviceCache ==> IsHandlerOf(database, events, d, s.deviceCache[d]))
    && (forall k :: 0 <= k < |s.outstanding| ==> IsHandlerOf(database, events, s.outstanding[k].device, s.outstanding[k].handler))
  }

  lemma IsHandlerOfMore(database: map<DeviceId, HandlerId>, front: seq<Event>, last: Event, d: DeviceId, h: HandlerId)
    ensures IsHandlerOf(database, front + [last], d, h) <==> IsHandlerOf(database, front, d, h) || Announces(last, d, h)
  {
    var all := front + [last];
    assert all[|front|] == last && forall k :: 0 <= k < |front| ==> all[k] == front[k];
  }

  lemma HandlersStayOk(database: map<DeviceId, HandlerId>, front: seq<Event>, last: Event, s: State)
    requires HandlersOk(database, front, s)
    ensures HandlersOk(database, front + [last], s)
    ensures forall d, h :: Announces(last, d, h) ==> IsHandlerOf(database, front + [last], d, h)
  {
    forall d, h
      ensures IsHandlerOf(database, front + [last], d, h) <==> IsHandlerOf(database, front, d, h) || Announces(last, d, h)
    {
      IsHandlerOfMore(database, front, last, d, h);
    }
  }

  lemma StepKeepsHandlers(database: map<DeviceId, HandlerId>, events: seq<Event>, s: State, e: Event)
    requires HandlersOk(database, events, s) && forall d, h :: Announces(e, d, h) ==> IsHandlerOf(database, events, d, h)
    ensures HandlersOk(database, events, Step(s, e))
  {
    match e
    case Register(device, handler) => assert Announces(e, device, handler);
    case Deliver(handler, reading) => assert Announces(e, reading.device, handler);
    case Store(k) =>
    case Complete(k) =>
  }

  /** In every interleaving a device is cached with a handler that announced it, or the one it was stored with. */
  lemma {:induction false} CachedHandlersAnnounced(database: map<DeviceId, HandlerId>, events: seq<Event>)
    ensures HandlersOk(database, events, Run(Loaded(database), events))
  {
    if events != [] {
      var front, last := events[..|events| - 1], events[|events| - 1];
      CachedHandlersAnnounced(database, front);
      HandlersStayOk(database, front, last, Run(Loaded(database), front));
      assert events == front + [last];
      StepKeepsHandlers(database, events, Run(Loaded(database), front), last);
    }
  }

  lemma RunOneMore(s: State, events: seq<Event>, e: Event)
    ensures Run(s, events + [e]) == Step(Run(s, events), e)
  {
    assert (events + [e])[..|events|] == events;
  }

  /** Storing and completing the first outstanding insertion settles it. */
  lemma SettleFirst(s: State)
    requires s.outstanding != []
    ensures Step(Step(s, Store(0)), Complete(0)).outstanding == s.outstanding[1..]
  {
    var stored := Step(s, Store(0));
    assert stored.outstanding[0].stored && stored.outstanding[1..] == s.outstanding[1..];
  }

  /** From every state of every run the database can settle all insertions, and no further data is delivered meanwhile. */
  lemma {:induction false} CanSettle(database: map<DeviceId, HandlerId>, events: seq<Event>) returns (all: seq<Event>)
    ensures events <= all && forall k :: |events| <= k < |all| ==> all[k].Store? || all[k].Complete?
    ensures Run(Loaded(database), all).outstanding == []
    decreases |Run(Loaded(database), events).outstanding|
  {
    var s := Run(Loaded(database), events);
    if s.outstanding == [] {
      all := events;
    } else {
      RunOneMore(Loaded(database), events, Store(0));
      RunOneMore(Loaded(database), events + [Store(0)], Complete(0));
      SettleFirst(s);
      all := CanSettle(database, (events + [Store(0)]) + [Complete(0)]);
    }
  }

  lemma {:induction false} OnlyDeliveriesDeliver(events: seq<Event>, all: seq<Event>, d: DeviceId)
    requires events <= all && forall k :: |events| <= k < |all| ==> all[k].Store? || all[k].Complete?
    ensures DeliveredTo(all, d) == DeliveredTo(events, d)
    decreases |all|
  {
    if |events| < |all| {
      OnlyDeliveriesDeliver(events, all[..|all| - 1], d);
    } else {
      assert all == events;
    }
  }

  /**
   However a run has gone so far, once the outstanding insertions are settled everything delivered has been published,
   in order and for every device, and every device that was announced is cached.
   */
  lemma EverythingGetsPublished(database: map<DeviceId, HandlerId>, events: seq<Event>) returns (all: seq<Event>)
    ensures events <= all && Run(Loaded(database), all).outstanding == []
    ensures forall d :: OfDevice(Run(Loaded(database), all).published, d) == DeliveredTo(events, d)
    ensures forall k, d, h :: 0 <= k < |events| && Announces(events[k], d, h) ==> d in Run(Loaded(database), all).deviceCache
  {
    all := CanSettle(database, events);
    forall d
      ensures OfDevice(Run(Loaded(database), all).published, d) == DeliveredTo(events, d)
    {
      NothingIsLostOrReordered(database, all, d);
      OnlyDeliveriesDeliver(events, all, d);
    }
    forall k, d, h | 0 <= k < |events| && Announces(events[k], d, h)
      ensures d in Run(Loaded(database), all).deviceCache
    {
      AnnouncedDevicesAreTakenUp(database, all, k, d, h);
    }
  }

  /** Cached devices are in the database, and so is every device whose data has been published. */
  lemma PublishedDevicesAreStored(database: map<DeviceId, HandlerId>, events: seq<Event>, d: DeviceId)
    ensures var s := Run(Loaded(database), events);
      (d in s.deviceCache || OfDevice(s.published, d) != []) ==> d in s.database
  {
    RunInv(database, events);
    var s := Run(Loaded(database), events);
    assert Conserved(s, d);
    SomeReading(s.published, d);
  }

  lemma SomeReading(readings: seq<Reading>, d: DeviceId)
    ensures OfDevice(readings, d) != [] ==> exists k :: 0 <= k < |readings| && readings[k].device == d
  {
    if readings != [] {
      SomeReading(readings[..|readings| - 1], d);
      assert readings == readings[..|readings| - 1] + [readings[|readings| - 1]];
    }
  }
}
