/**
 Sending commands to lights one at a time
 (platform/device-manager/handlers/leviton-lighting-handler/leviton-lighting-handler.js:10-140). Connecting to a light
 and writing to it is one step that finishes, or rejects, at any later time.
 */
module Lighting {
  import opened Vocabulary

  /** A send request as it arrives: any part may be missing. */
  datatype Payload = Payload(state: Option<string>, brightness: Option<int>)
  datatype Request = Request(requestType: Option<string>, payload: Option<Payload>)

  const STATE_CONTROL := "stateControl"
  const BRIGHTNESS_CONTROL := "brightnessControl"

  datatype Command = Command(device: DeviceId, request: Request)

  /** `accepted` and `finished` are the history of valid dispatches and of completed commands. */
  datatype State = State(
    pending: map<DeviceId, seq<Request>>,
    isHandlingMessages: bool,
    inFlight: Option<Command>,
    registeredDevices: seq<DeviceId>,
    accepted: seq<Command>, finished: seq<Command>,
    crashed: bool)

  datatype Event = Dispatch(device: DeviceId, request: Request) | Peripheral(device: DeviceId) | Finish | Reject

  const INITIAL := State(map[], false, None, [], [], [], false)

  /** What a light can be asked to do: switch on or off, or one of five brightness levels. */
  predicate Supported(r: Request) {
    && r.payload.Some?
    && ((r.requestType == Some(STATE_CONTROL) && r.payload.value.state in {Some("on"), Some("off")})
        || (r.requestType == Some(BRIGHTNESS_CONTROL)
            && r.payload.value.brightness in {Some(1), Some(25), Some(50), Some(75), Some(100)}))
  }

  method IsValidData(r: Request) returns (valid: bool)
    ensures valid == Supported(r)
  {
    if r.requestType.Some? && r.payload.Some? {
      var payload := r.payload.value;
      if r.requestType.value == STATE_CONTROL {
        if payload.state.Some? {
          if payload.state.value == "on" || payload.state.value == "off" {
            return true;
          }
        }
      } else if r.requestType.value == BRIGHTNESS_CONTROL {
        if payload.brightness.Some? {
          var possibleValues := [1, 25, 50, 75, 100];
          if payload.brightness.value in possibleValues {
            return true;
          }
        }
      } else {
        return false;
      }
    }
    return false;
  }

  function DispatchStep(s: State, d: DeviceId, r: Request): State {
    if !Supported(r) then s
    else s.(pending := s.pending[d := Pending(s, d) + [r]], accepted := s.accepted + [Command(d, r)])
  }

  function Pending(s: State, d: DeviceId): seq<Request> {
    if d in s.pending then s.pending[d] else []
  }

  /** The advertisement of a light: register it, and take its next command unless another is being handled. */
  function PeripheralStep(s: State, d: DeviceId): State {
    var s := if d in s.registeredDevices then s else s.(registeredDevices := s.registeredDevices + [d]);
    if d in s.pending && !s.isHandlingMessages then
      if s.pending[d] == [] then s.(isHandlingMessages := true, crashed := true)
      else s.(isHandlingMessages := true, pending := s.pending[d := s.pending[d][1..]],
              inFlight := Some(Command(d, s.pending[d][0])))
    else s
  }

  function FinishStep(s: State): State
    requires s.inFlight.Some?
  {
    var c := s.inFlight.value;
    s.(pending := if Pending(s, c.device) == [] then s.pending - {c.device} else s.pending,
       isHandlingMessages := false, inFlight := None, finished := s.finished + [c])
  }

  /** A BLE operation rejects: the handler ends there and the lock stays taken. */
  function RejectStep(s: State): State {
    s.(inFlight := None)
  }

  function Step(s: State, e: Event): State {
    match e
    case Dispatch(d, r) => DispatchStep(s, d, r)
    case Peripheral(d) => PeripheralStep(s, d)
    case Finish => if s.inFlight.Some? then FinishStep(s) else s
    case Reject => RejectStep(s)
  }

  function Run(s: State, events: seq<Event>): State {
    if events == [] then s else Step(Run(s, events[..|events| - 1]), events[|events| - 1])
  }

  // ---------------------------------------------------------------------------
  // The handler object

  class LightingHandler {
    var pendingMessages: map<DeviceId, seq<Request>>
    var isHandlingMessages: bool
    var registeredDevices: seq<DeviceId>
    var inFlight: Option<Command>
    ghost var accepted: seq<Command>
    ghost var finished: seq<Command>
    ghost var crashed: bool

    constructor ()
      ensures Tables() == INITIAL
    {
      pendingMessages, isHandlingMessages, registeredDevices, inFlight := map[], false, [], None;
      accepted, finished, crashed := [], [], false;
    }

    ghost function Tables(): State
      reads this
    {
      State(pendingMessages, isHandlingMessages, inFlight, registeredDevices, accepted, finished, crashed)
    }

    method OnDispatch(deviceId: DeviceId, data: Request)
      modifies this
      ensures Tables() == DispatchStep(old(Tables()), deviceId, data)
    {
      var valid := IsValidData(data);
      if valid {
        accepted := accepted + [Command(deviceId, data)];
        if deviceId in pendingMessages {
          pendingMessages := pendingMessages[deviceId := pendingMessages[deviceId] + [data]];
        } else {
          pendingMessages := pendingMessages[deviceId := [data]];
          assert [] + [data] == [data];
        }
      }
    }

    method HandlePeripheral(deviceId: DeviceId)
      modifies this
      ensures Tables() == PeripheralStep(old(Tables()), deviceId)
    {
      if deviceId !in registeredDevices {
        registeredDevices := registeredDevices + [deviceId];
      }
      if deviceId in pendingMessages && !isHandlingMessages {
        isHandlingMessages := true;
        var messageList := pendingMessages[deviceId];
        if |messageList| == 0 {
          crashed := true;
          return;
        }
        inFlight := Some(Command(deviceId, messageList[0]));
        pendingMessages := pendingMessages[deviceId := messageList[1..]];
      }
    }

    /** The rest of the handler, after the last BLE operation. */
    method OnDisconnected()
      requires inFlight.Some?
      modifies this
      ensures Tables() == FinishStep(old(Tables()))
    {
      var deviceId := inFlight.value.device;
      finished := finished + [inFlight.value];
      if deviceId !in pendingMessages || |pendingMessages[deviceId]| == 0 {
        pendingMessages := pendingMessages - {deviceId};
      }
      isHandlingMessages, inFlight := false, None;
    }
  }

  // ---------------------------------------------------------------------------
  // Every accepted command is carried out, in order, one at a time

  function OfDevice(commands: seq<Command>, d: DeviceId): seq<Request> {
    if commands == [] then []
    else
      var front, last := OfDevice(commands[..|commands| - 1], d), commands[|commands| - 1];
      if last.device == d then front + [last.request] else front
  }

  function InFlight(s: State, d: DeviceId): seq<Request> {
    if s.inFlight.Some? && s.inFlight.value.device == d then [s.inFlight.value.request] else []
  }

  ghost predicate InOrder(s: State, d: DeviceId) {
    OfDevice(s.accepted, d) == OfDevice(s.finished, d) + InFlight(s, d) + Pending(s, d)
  }

  ghost predicate Inv(s: State) {
    && !s.crashed
    && (s.isHandlingMessages <==> s.inFlight.Some?)
    && (s.inFlight.Some? ==> s.inFlight.value.device in s.pending)
    && (forall d :: d in s.pending && s.pending[d] == [] ==> s.inFlight.Some? && s.inFlight.value.device == d)
    && (forall d :: InOrder(s, d))
    && (forall k :: 0 <= k < |s.finished| ==> Supported(s.finished[k].request))
    && (s.inFlight.Some? ==> Supported(s.inFlight.value.request))
    && (forall d, k :: d in s.pending && 0 <= k < |s.pending[d]| ==> Supported(s.pending[d][k]))
  }

  lemma OneMore(commands: seq<Command>, c: Command, d: DeviceId)
    ensures OfDevice(commands + [c], d) == OfDevice(commands, d) + (if c.device == d then [c.request] else [])
  {
    assert (commands + [c])[..|commands|] == commands;
  }

  lemma DispatchInv(s: State, d: DeviceId, r: Request)
    requires Inv(s)
    ensures Inv(DispatchStep(s, d, r))
  {
    var s' := DispatchStep(s, d, r);
    if Supported(r) {
      forall x
        ensures InOrder(s', x)
      {
        assert InOrder(s, x);
        OneMore(s.accepted, Command(d, r), x);
        assert Pending(s', x) == Pending(s, x) + (if d == x then [r] else []);
      }
    }
  }

  lemma PeripheralInv(s: State, d: DeviceId)
    requires Inv(s)
    ensures Inv(PeripheralStep(s, d))
  {
    var s' := PeripheralStep(s, d);
    forall x
      ensures InOrder(s', x)
    {
      assert InOrder(s, x);
      if s'.inFlight != s.inFlight && x == d {
        assert s.pending[d] == [s.pending[d][0]] + s.pending[d][1..];
      }
    }
  }

  lemma FinishInv(s: State)
    requires Inv(s) && s.inFlight.Some?
    ensures Inv(FinishStep(s))
  {
    var s', c := FinishStep(s), s.inFlight.value;
    forall x
      ensures InOrder(s', x)
    {
      assert InOrder(s, x);
      OneMore(s.finished, c, x);
      assert Pending(s', x) == Pending(s, x);
    }
  }

  /** Whenever a BLE operation rejects, no command is in flight: there is nothing to reject. */
  ghost predicate NoCommandRejected(events: seq<Event>) {
    forall k :: 0 <= k < |events| && events[k] == Reject ==> Run(INITIAL, events[..k]).inFlight.None?
  }

  lemma NoCommandRejectedSnoc(events: seq<Event>)
    requires events != []
    ensures var front := events[..|events| - 1];
      NoCommandRejected(events) <==>
      NoCommandRejected(front) && (events[|events| - 1] == Reject ==> Run(INITIAL, front).inFlight.None?)
  {
    var front := events[..|events| - 1];
    assert forall k :: 0 <= k < |front| ==> front[..k] == events[..k];
    if NoCommandRejected(events) {
      forall k | 0 <= k < |front| && front[k] == Reject
        ensures Run(INITIAL, front[..k]).inFlight.None?
      {
        assert events[k] == Reject;
      }
    }
  }

  /** The lock is taken and no command is in flight that could free it. */
  ghost predicate Stuck(s: State) {
    s.isHandlingMessages && s.inFlight.None?
  }

  lemma StepInv(s: State, e: Event)
    requires Inv(s)
    ensures if e == Reject && s.inFlight.Some? then Stuck(Step(s, e)) else Inv(Step(s, e))
  {
    match e
    case Dispatch(d, r) => DispatchInv(s, d, r);
    case Peripheral(d) => PeripheralInv(s, d);
    case Finish => if s.inFlight.Some? { FinishInv(s); }
    case Reject => if s.inFlight.None? { assert RejectStep(s) == s; }
  }

  lemma {:induction false} WorksOrIsStuck(events: seq<Event>)
    ensures if NoCommandRejected(events) then Inv(Run(INITIAL, events)) else Stuck(Run(INITIAL, events))
  {
    if events != [] {
      var front := events[..|events| - 1];
      WorksOrIsStuck(front);
      NoCommandRejectedSnoc(events);
      if NoCommandRejected(front) {
        StepInv(Run(INITIAL, front), events[|events| - 1]);
      }
    }
  }

  /**
   Exactly when commands are carried out in order: unless a command's own BLE operation has been rejected. Then for each
   light, the accepted commands are those finished, then the one in flight, then those pending; a command is in flight
   exactly while the lock is taken; when it is free every pending list that exists has a command; and only supported
   commands are carried out. After a rejection none of this can come back.
   */
  lemma {:induction false} CommandsAreCarriedOutInOrder(events: seq<Event>)
    ensures Inv(Run(INITIAL, events)) <==> NoCommandRejected(events)
  {
    WorksOrIsStuck(events);
  }

  /** The supported requests that the events dispatch for light `d`, in order. */
  function DispatchedTo(events: seq<Event>, d: DeviceId): seq<Request> {
    if events == [] then []
    else
      var front, last := DispatchedTo(events[..|events| - 1], d), events[|events| - 1];
      if last.Dispatch? && last.device == d && Supported(last.request) then front + [last.request] else front
  }

  lemma StepAccepts(s: State, e: Event)
    ensures Step(s, e).accepted ==
            s.accepted + if e.Dispatch? && Supported(e.request) then [Command(e.device, e.request)] else []
  {
  }

  lemma {:induction false} DispatchesAreAccepted(events: seq<Event>, d: DeviceId)
    ensures OfDevice(Run(INITIAL, events).accepted, d) == DispatchedTo(events, d)
  {
    if events != [] {
      var front, last := events[..|events| - 1], events[|events| - 1];
      DispatchesAreAccepted(front, d);
      StepAccepts(Run(INITIAL, front), last);
      if last.Dispatch? && Supported(last.request) {
        OneMore(Run(INITIAL, front).accepted, Command(last.device, last.request), d);
      }
    }
  }

  /** No supported command is lost, repeated or overtaken: those dispatched are those finished, in flight and pending. */
  lemma DispatchedCommandsAreKept(events: seq<Event>, d: DeviceId)
    requires NoCommandRejected(events)
    ensures var s := Run(INITIAL, events);
      DispatchedTo(events, d) == OfDevice(s.finished, d) + InFlight(s, d) + Pending(s, d)
  {
    WorksOrIsStuck(events);
    DispatchesAreAccepted(events, d);
    assert InOrder(Run(INITIAL, events), d);
  }

  /** When the lock is free, the advertisement of a light with pending commands has the first of them sent. */
  lemma FreeLockSendsHead(s: State, d: DeviceId)
    requires !s.isHandlingMessages && Pending(s, d) != []
    ensures var s' := PeripheralStep(s, d);
      && s'.inFlight == Some(Command(d, Pending(s, d)[0])) && s'.isHandlingMessages
      && (forall x :: Pending(s', x) == if x == d then Pending(s, d)[1..] else Pending(s, x))
      && s'.accepted == s.accepted && s'.finished == s.finished
  {
  }

  lemma RunOneMore(events: seq<Event>, e: Event)
    ensures Run(INITIAL, events + [e]) == Step(Run(INITIAL, events), e)
    ensures NoCommandRejected(events) && e != Reject ==> NoCommandRejected(events + [e])
    ensures !e.Dispatch? ==> forall d :: DispatchedTo(events + [e], d) == DispatchedTo(events, d)
  {
    assert (events + [e])[..|events|] == events;
    NoCommandRejectedSnoc(events + [e]);
  }

  /** From every run without rejections a light can be served until all commands dispatched to it so far are finished. */
  lemma {:induction false} CanServe(events: seq<Event>, d: DeviceId) returns (all: seq<Event>)
    requires NoCommandRejected(events)
    ensures events <= all && NoCommandRejected(all)
    ensures DispatchedTo(all, d) == DispatchedTo(events, d) == OfDevice(Run(INITIAL, all).finished, d)
    decreases |Pending(Run(INITIAL, events), d)|, Run(INITIAL, events).isHandlingMessages
  {
    var s := Run(INITIAL, events);
    WorksOrIsStuck(events);
    DispatchedCommandsAreKept(events, d);
    if s.isHandlingMessages {
      RunOneMore(events, Finish);
      assert Pending(FinishStep(s), d) == Pending(s, d);
      all := CanServe(events + [Finish], d);
    } else if Pending(s, d) != [] {
      RunOneMore(events, Peripheral(d));
      FreeLockSendsHead(s, d);
      all := CanServe(events + [Peripheral(d)], d);
    } else {
      all := events;
    }
  }

  /** One rejected BLE operation stops the handler for good: whatever happens later, no command is sent or finished. */
  lemma {:induction false} RejectionStopsTheHandler(s: State, events: seq<Event>)
    requires Inv(s) && s.inFlight.Some?
    ensures var s' := Run(RejectStep(s), events);
      s'.inFlight == None && s'.isHandlingMessages && s'.finished == s.finished
  {
    if events != [] {
      RejectionStopsTheHandler(s, events[..|events| - 1]);
    }
  }
}
