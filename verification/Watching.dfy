/**
 Watching over apps on other gateways (platform/app-manager/watcher.js:11-101). Link graph replies, reschedulings and
 file deletions complete at any later time, in any order.
 */
module Watching {

  type AppId = string
  type GatewayId = string

  datatype App = App(id: AppId, executor: GatewayId)

  /**
   A stop whose file deletion is under way: the app, and its index in the watch list when the stop began. `disturbed`
   records that some entry at or before that index has been spliced out since.
   */
  datatype Stop = Stop(app: App, index: nat, disturbed: bool)

  /** `used` is the set of all app ids ever watched. */
  datatype State = State(watching: seq<App>, timerSet: bool, stops: seq<Stop>, rescheduling: seq<AppId>, used: set<AppId>)

  /** The `data` part of a link graph: gateway -> ids of its apps. */
  type Apps = map<GatewayId, set<AppId>>

  datatype Event =
    | Watch(app: App)
    | Check(apps: Apps)
    | Rescheduled(k: nat)
    | Deleted(k: nat)

  const INITIAL := State([], false, [], [], {})

  function WatchStep(s: State, app: App): State {
    s.(watching := s.watching + [app], timerSet := true, used := s.used + {app.id})
  }

  /** Index of the first app with this id, or the length of the list. */
  function FindIndex(apps: seq<App>, id: AppId): nat {
    if apps == [] || apps[0].id == id then 0 else 1 + FindIndex(apps[1..], id)
  }

  function StopStep(s: State, id: AppId): State {
    var index := FindIndex(s.watching, id);
    if index < |s.watching| then s.(stops := s.stops + [Stop(s.watching[index], index, false)]) else s
  }

  /** The check of the first n apps: reschedule those on missing gateways, stop watching those that are gone. */
  function CheckStep(s: State, apps: Apps, n: nat): State
    requires n <= |s.watching|
  {
    if n == 0 then s
    else
      var before := CheckStep(s, apps, n - 1);
      var app := s.watching[n - 1];
      if app.executor !in apps then before.(rescheduling := before.rescheduling + [app.id])
      else if app.id !in apps[app.executor] then StopStep(before, app.id)
      else before
  }

  function Without<T>(xs: seq<T>, k: nat): seq<T> {
    if k < |xs| then xs[..k] + xs[k + 1..] else xs
  }

  function Disturb(stops: seq<Stop>, index: nat): seq<Stop> {
    seq(|stops|, k requires 0 <= k < |stops| =>
      if index <= stops[k].index then stops[k].(disturbed := true) else stops[k])
  }

  /** The callback after deletion: splices at the index captured when the stop began. */
  function DeletedStep(s: State, k: nat): State
    requires k < |s.stops|
  {
    var index := s.stops[k].index;
    var stops := Without(s.stops, k);
    var watching := Without(s.watching, index);
    State(watching, s.timerSet && watching != [],
          if index < |s.watching| then Disturb(stops, index) else stops,
          s.rescheduling, s.used)
  }

  function Step(s: State, e: Event): State {
    match e
    case Watch(app) => WatchStep(s, app)
    case Check(apps) => CheckStep(s, apps, |s.watching|)
    case Rescheduled(k) =>
      if k < |s.rescheduling| then StopStep(s.(rescheduling := Without(s.rescheduling, k)), s.rescheduling[k]) else s
    case Deleted(k) => if k < |s.stops| then DeletedStep(s, k) else s
  }

  function Run(events: seq<Event>): State {
    if events == [] then INITIAL else Step(Run(events[..|events| - 1]), events[|events| - 1])
  }

  // ---------------------------------------------------------------------------
  // The module's variables and callbacks

  class Watcher {
    var watchingApps: seq<App>
    var watchTimer: bool
    var stops: seq<Stop>
    var rescheduling: seq<AppId>
    ghost var used: set<AppId>

    constructor ()
      ensures Tables() == INITIAL
    {
      watchingApps, watchTimer, stops, rescheduling, used := [], false, [], [], {};
    }

    ghost function Tables(): State
      reads this
    {
      State(watchingApps, watchTimer, stops, rescheduling, used)
    }

    method Watch(app: App)
      modifies this
      ensures Tables() == WatchStep(old(Tables()), app)
    {
      watchingApps := watchingApps + [app];
      used := used + {app.id};
      if !watchTimer {
        watchTimer := true;
      }
    }

    method StopWatchingApp(id: AppId)
      modifies this`stops
      ensures Tables() == StopStep(old(Tables()), id)
    {
      var index := 0;
      while index < |watchingApps| && watchingApps[index].id != id
        invariant index <= |watchingApps| && FindIndex(watchingApps, id) == index + FindIndex(watchingApps[index..], id)
        decreases |watchingApps| - index
      {
        index := index + 1;
      }
      if index < |watchingApps| {
        stops := stops + [Stop(watchingApps[index], index, false)];
      }
    }

    /** The periodic check, once the link graph has arrived. */
    method OnLinkGraph(apps: Apps)
      modifies this`stops, this`rescheduling
      ensures Tables() == CheckStep(old(Tables()), apps, |old(watchingApps)|)
    {
      for i := 0 to |watchingApps|
        invariant Tables() == CheckStep(old(Tables()), apps, i)
      {
        var app := watchingApps[i];
        if app.executor !in apps {
          rescheduling := rescheduling + [app.id];
        } else if app.id !in apps[app.executor] {
          StopWatchingApp(app.id);
        }
      }
    }

    method OnRescheduled(k: nat)
      requires k < |rescheduling|
      modifies this`stops, this`rescheduling
      ensures Tables() == Step(old(Tables()), Rescheduled(k))
    {
      var id := rescheduling[k];
      rescheduling := rescheduling[..k] + rescheduling[k + 1..];
      StopWatchingApp(id);
    }

    method OnDeleted(k: nat)
      requires k < |stops|
      modifies this
      ensures Tables() == DeletedStep(old(Tables()), k)
    {
      var index := stops[k].index;
      stops := stops[..k] + stops[k + 1..];
      if index < |watchingApps| {
        watchingApps := watchingApps[..index] + watchingApps[index + 1..];
        stops := Disturb(stops, index);
      }
      if |watchingApps| == 0 {
        watchTimer := false;
      }
    }
  }

  // ---------------------------------------------------------------------------
  // The timer

  lemma {:induction false} CheckKeepsList(s: State, apps: Apps, n: nat)
    requires n <= |s.watching|
    ensures var s' := CheckStep(s, apps, n);
      s'.watching == s.watching && s'.timerSet == s.timerSet && s'.used == s.used
  {
    if n > 0 {
      CheckKeepsList(s, apps, n - 1);
    }
  }

  lemma StepKeepsTimer(s: State, e: Event)
    requires s.timerSet <==> s.watching != []
    ensures Step(s, e).timerSet <==> Step(s, e).watching != []
  {
    if e.Check? {
      CheckKeepsList(s, e.apps, |s.watching|);
    }
  }

  /** In every interleaving, with stale indices too, the timer is set exactly when there are apps to watch. */
  lemma {:induction false} TimerIsSetExactlyWhenWatching(events: seq<Event>)
    ensures Run(events).timerSet <==> Run(events).watching != []
  {
    if events != [] {
      TimerIsSetExactlyWhenWatching(events[..|events| - 1]);
      StepKeepsTimer(Run(events[..|events| - 1]), events[|events| - 1]);
    }
  }

  // ---------------------------------------------------------------------------
  // What a stop removes

  /** App ids are never watched a second time. */
  ghost predicate FreshIds(events: seq<Event>) {
    events == [] ||
    (var front, last := events[..|events| - 1], events[|events| - 1];
     FreshIds(front) && (last.Watch? ==> last.app.id !in Run(front).used))
  }

  ghost predicate DistinctIds(apps: seq<App>) {
    forall i, j :: 0 <= i < j < |apps| ==> apps[i].id != apps[j].id
  }

  /** An undisturbed stop's index is right; a disturbed one's is past the app's position, if that is still watched. */
  ghost predicate StopOk(watching: seq<App>, used: set<AppId>, stop: Stop) {
    && stop.app.id in used
    && (!stop.disturbed ==> stop.index < |watching| && watching[stop.index] == stop.app)
    && (stop.disturbed ==> forall p :: 0 <= p < |watching| && watching[p].id == stop.app.id ==> p < stop.index)
  }

  ghost predicate Inv(s: State) {
    && DistinctIds(s.watching)
    && (forall p :: 0 <= p < |s.watching| ==> s.watching[p].id in s.used)
    && (forall k :: 0 <= k < |s.stops| ==> StopOk(s.watching, s.used, s.stops[k]))
  }

  lemma {:induction false} FindIndexFirst(apps: seq<App>, id: AppId)
    ensures FindIndex(apps, id) <= |apps|
    ensures FindIndex(apps, id) < |apps| ==> apps[FindIndex(apps, id)].id == id
    ensures forall p :: 0 <= p < FindIndex(apps, id) ==> apps[p].id != id
  {
    if apps != [] && apps[0].id != id {
      FindIndexFirst(apps[1..], id);
    }
  }

  lemma StopInv(s: State, id: AppId)
    requires Inv(s)
    ensures Inv(StopStep(s, id))
  {
    FindIndexFirst(s.watching, id);
  }

  lemma FindIndexDistinct(apps: seq<App>, p: nat)
    requires DistinctIds(apps) && p < |apps|
    ensures FindIndex(apps, apps[p].id) == p
  {
    FindIndexFirst(apps, apps[p].id);
  }

  /** The app's gateway is there and no longer runs it. */
  predicate IsGone(app: App, apps: Apps) {
    app.executor in apps && app.id !in apps[app.executor]
  }

  /** The stop that begins for the app at position p. */
  function StopOf(watching: seq<App>, p: int): Stop
    requires 0 <= p < |watching|
  {
    Stop(watching[p], p, false)
  }

  /** One of the first n apps has this id and a gateway that is missing. */
  ghost predicate IsStranded(watching: seq<App>, apps: Apps, n: nat, id: AppId)
    requires n <= |watching|
  {
    exists p :: 0 <= p < n && watching[p].id == id && watching[p].executor !in apps
  }

  /** A check asks to reschedule exactly the apps whose gateways are missing. */
  lemma {:induction false} CheckReschedulesExactly(s: State, apps: Apps, n: nat, id: AppId)
    requires n <= |s.watching|
    ensures s.rescheduling <= CheckStep(s, apps, n).rescheduling
    ensures id in CheckStep(s, apps, n).rescheduling[|s.rescheduling|..] <==> IsStranded(s.watching, apps, n, id)
  {
    if n > 0 {
      CheckReschedulesExactly(s, apps, n - 1, id);
      if s.watching[n - 1].executor !in apps {
        var more := CheckStep(s, apps, n - 1).rescheduling[|s.rescheduling|..];
        assert CheckStep(s, apps, n).rescheduling[|s.rescheduling|..] == more + [s.watching[n - 1].id];
      }
    }
  }

  /** `stop` is for one of the first n apps, at its index, and the app is gone from a gateway that is there. */
  ghost predicate IsDue(watching: seq<App>, apps: Apps, n: nat, stop: Stop)
    requires n <= |watching|
  {
    stop.index < n && stop == StopOf(watching, stop.index) && IsGone(watching[stop.index], apps)
  }

  function DueStops(watching: seq<App>, apps: Apps, n: nat): seq<Stop>
    requires n <= |watching|
  {
    if n == 0 then []
    else DueStops(watching, apps, n - 1) + if IsGone(watching[n - 1], apps) then [StopOf(watching, n - 1)] else []
  }

  lemma {:induction false} CheckBeginsDueStops(s: State, apps: Apps, n: nat)
    requires DistinctIds(s.watching) && n <= |s.watching|
    ensures CheckStep(s, apps, n).stops == s.stops + DueStops(s.watching, apps, n)
  {
    if n > 0 {
      CheckBeginsDueStops(s, apps, n - 1);
      CheckKeepsList(s, apps, n - 1);
      FindIndexDistinct(s.watching, n - 1);
    }
  }

  lemma {:induction false} DueStopsMembers(watching: seq<App>, apps: Apps, n: nat, stop: Stop)
    requires n <= |watching|
    ensures stop in DueStops(watching, apps, n) <==> IsDue(watching, apps, n, stop)
  {
    if n > 0 {
      DueStopsMembers(watching, apps, n - 1, stop);
    }
  }

  /** A check begins exactly the stops that are due. */
  lemma CheckStopsExactly(s: State, apps: Apps, n: nat, stop: Stop)
    requires DistinctIds(s.watching) && n <= |s.watching|
    ensures s.stops <= CheckStep(s, apps, n).stops
    ensures stop in CheckStep(s, apps, n).stops[|s.stops|..] <==> IsDue(s.watching, apps, n, stop)
  {
    CheckBeginsDueStops(s, apps, n);
    DueStopsMembers(s.watching, apps, n, stop);
    assert CheckStep(s, apps, n).stops[|s.stops|..] == DueStops(s.watching, apps, n);
  }

  /** A completed rescheduling begins the stop of that very app, at its index, if it is still watched. */
  lemma RescheduledAppIsStopped(s: State, k: nat)
    requires DistinctIds(s.watching) && k < |s.rescheduling|
    ensures var s', id := Step(s, Rescheduled(k)), s.rescheduling[k];
      && multiset(s'.rescheduling) == multiset(s.rescheduling) - multiset{id} && s'.watching == s.watching
      && (forall p :: 0 <= p < |s.watching| && s.watching[p].id == id ==> s'.stops == s.stops + [StopOf(s.watching, p)])
      && ((forall p :: 0 <= p < |s.watching| ==> s.watching[p].id != id) ==> s'.stops == s.stops)
  {
    FindIndexFirst(s.watching, s.rescheduling[k]);
    assert s.rescheduling == s.rescheduling[..k] + [s.rescheduling[k]] + s.rescheduling[k + 1..];
  }

  /** The apps that the events start to watch, in order. */
  function WatchedBy(events: seq<Event>): seq<App> {
    if events == [] then []
    else
      var front, last := WatchedBy(events[..|events| - 1]), events[|events| - 1];
      if last.Watch? then front + [last.app] else front
  }

  lemma StepWatches(s: State, e: Event)
    requires !e.Deleted?
    ensures Step(s, e).watching == s.watching + if e.Watch? then [e.app] else []
  {
    if e.Check? {
      CheckKeepsList(s, e.apps, |s.watching|);
    }
  }

  lemma RunFront(events: seq<Event>, later: seq<Event>)
    requires later != []
    ensures Run(events + later) == Step(Run(events + later[..|later| - 1]), later[|later| - 1])
  {
    assert (events + later)[..|events + later| - 1] == events + later[..|later| - 1];
  }

  /** Only deletions take apps off the list: without them it grows by the apps that are newly watched, in order. */
  lemma {:induction false} WatchedAppsStay(events: seq<Event>, later: seq<Event>)
    requires forall k :: 0 <= k < |later| ==> !later[k].Deleted?
    ensures Run(events + later).watching == Run(events).watching + WatchedBy(later)
    decreases |later|
  {
    if later == [] {
      assert events + later == events;
    } else {
      var front, last := later[..|later| - 1], later[|later| - 1];
      WatchedAppsStay(events, front);
      RunFront(events, later);
      StepWatches(Run(events + front), last);
    }
  }

  lemma {:induction false} CheckInv(s: State, apps: Apps, n: nat)
    requires Inv(s) && n <= |s.watching|
    ensures Inv(CheckStep(s, apps, n))
  {
    if n > 0 {
      CheckInv(s, apps, n - 1);
      StopInv(CheckStep(s, apps, n - 1), s.watching[n - 1].id);
    }
  }

  lemma SpliceKeepsStop(watching: seq<App>, used: set<AppId>, stop: Stop, index: nat)
    requires DistinctIds(watching) && StopOk(watching, used, stop) && index < |watching|
    ensures StopOk(Without(watching, index), used, if index <= stop.index then stop.(disturbed := true) else stop)
  {
    var after := Without(watching, index);
    assert forall p :: 0 <= p < |after| ==> after[p] == if p < index then watching[p] else watching[p + 1];
  }

  lemma DeletedInv(s: State, k: nat)
    requires Inv(s) && k < |s.stops|
    ensures Inv(DeletedStep(s, k))
  {
    var s', index := DeletedStep(s, k), s.stops[k].index;
    var rest := Without(s.stops, k);
    assert forall m :: 0 <= m < |rest| ==> rest[m] == if m < k then s.stops[m] else s.stops[m + 1];
    assert forall p :: 0 <= p < |s'.watching| ==> s'.watching[p] == if p < index then s.watching[p] else s.watching[p + 1];
    forall m | 0 <= m < |s'.stops|
      ensures StopOk(s'.watching, s'.used, s'.stops[m])
    {
      if index < |s.watching| {
        SpliceKeepsStop(s.watching, s.used, rest[m], index);
      }
    }
  }

  lemma {:induction false} RunInv(events: seq<Event>)
    requires FreshIds(events)
    ensures Inv(Run(events))
  {
    if events != [] {
      var front, last := events[..|events| - 1], events[|events| - 1];
      RunInv(front);
      var s := Run(front);
      match last
      case Watch(app) =>
      case Check(apps) => CheckInv(s, apps, |s.watching|);
      case Rescheduled(k) =>
        if k < |s.rescheduling| {
          StopInv(s.(rescheduling := Without(s.rescheduling, k)), s.rescheduling[k]);
        }
      case Deleted(k) =>
        if k < |s.stops| {
          DeletedInv(s, k);
        }
    }
  }

  /** Splicing takes out `app` and nothing else, and keeps the order of the rest. */
  ghost predicate RemovesOnly(before: seq<App>, after: seq<App>, app: App) {
    exists p :: 0 <= p < |before| && before[p] == app && after == before[..p] + before[p + 1..]
  }

  /**
   A completing stop removes its own app and nothing else exactly when, since it began, no other stop has spliced the
   list at or before its index. Stops that do not overlap are never disturbed.
   */
  lemma StopRemovesItsAppExactlyWhenUndisturbed(events: seq<Event>, k: nat)
    requires FreshIds(events) && k < |Run(events).stops|
    ensures var s := Run(events);
      RemovesOnly(s.watching, DeletedStep(s, k).watching, s.stops[k].app) <==> !s.stops[k].disturbed
  {
    RunInv(events);
    var s := Run(events);
    var stop := s.stops[k];
    var after := DeletedStep(s, k).watching;
    assert StopOk(s.watching, s.used, stop);
    if stop.disturbed {
      forall p | 0 <= p < |s.watching| && s.watching[p] == stop.app
        ensures after != s.watching[..p] + s.watching[p + 1..]
      {
        assert p < stop.index;
        if stop.index < |s.watching| {
          assert after[p] == s.watching[p];
          assert (s.watching[..p] + s.watching[p + 1..])[p] == s.watching[p + 1];
        }
      }
    }
  }

  ghost predicate Undisturbed(stops: seq<Stop>) {
    forall k :: 0 <= k < |stops| ==> !stops[k].disturbed
  }

  lemma {:induction false} CheckBeginsUndisturbed(s: State, apps: Apps, n: nat)
    requires n <= |s.watching| && Undisturbed(s.stops)
    ensures Undisturbed(CheckStep(s, apps, n).stops)
  {
    if n > 0 {
      CheckBeginsUndisturbed(s, apps, n - 1);
    }
  }

  lemma LoneStopsStayUndisturbed(s: State, e: Event)
    requires |s.stops| <= 1 && Undisturbed(s.stops)
    ensures Undisturbed(Step(s, e).stops)
  {
    if e.Check? {
      CheckBeginsUndisturbed(s, e.apps, |s.watching|);
    }
  }

  ghost predicate NeverTwoStops(events: seq<Event>) {
    |Run(events).stops| <= 1 && (events == [] || NeverTwoStops(events[..|events| - 1]))
  }

  lemma {:induction false} NeverTwoStopsUndisturbed(events: seq<Event>)
    requires NeverTwoStops(events)
    ensures Undisturbed(Run(events).stops)
  {
    if events != [] {
      var front := events[..|events| - 1];
      NeverTwoStopsUndisturbed(front);
      LoneStopsStayUndisturbed(Run(front), events[|events| - 1]);
    }
  }

  /** When no two deletions are ever under way at once, every stop removes exactly its own app. */
  lemma {:induction false} StopsThatDoNotOverlapAreExact(events: seq<Event>, k: nat)
    requires FreshIds(events) && NeverTwoStops(events) && k < |Run(events).stops|
    ensures RemovesOnly(Run(events).watching, DeletedStep(Run(events), k).watching, Run(events).stops[k].app)
  {
    NeverTwoStopsUndisturbed(events);
    StopRemovesItsAppExactlyWhenUndisturbed(events, k);
  }

  lemma RunOneMore(events: seq<Event>, e: Event)
    ensures Run(events + [e]) == Step(Run(events), e)
  {
    assert (events + [e])[..|events|] == events;
  }

  /** Two overlapping stops: the second removes an app that is still running and leaves the one it was for. */
  lemma OverlappingStopsRemoveTheWrongApp()
    ensures var s := Run([Watch(A), Watch(B), Watch(C)]);
      Step(Step(Step(s, Check(map["g" := {"c"}])), Deleted(0)), Deleted(0)).watching == [B]
  {
    ThreeWatched();
    CheckOfThree();
    SpliceTwice();
  }

  const A := App("a", "g")
  const B := App("b", "g")
  const C := App("c", "g")
  const THREE := State([A, B, C], true, [], [], {"a", "b", "c"})

  lemma ThreeWatched()
    ensures Run([Watch(A), Watch(B), Watch(C)]) == THREE
  {
    RunOneMore([], Watch(A));
    RunOneMore([Watch(A)], Watch(B));
    RunOneMore([Watch(A), Watch(B)], Watch(C));
    assert [] + [Watch(A)] == [Watch(A)] && [Watch(A)] + [Watch(B)] == [Watch(A), Watch(B)];
    assert [Watch(A), Watch(B)] + [Watch(C)] == [Watch(A), Watch(B), Watch(C)];
  }

  /** The check finds A and B gone and begins to stop both. */
  lemma CheckOfThree()
    ensures CheckStep(THREE, map["g" := {"c"}], 3) == THREE.(stops := [Stop(A, 0, false), Stop(B, 1, false)])
  {
    var apps: Apps := map["g" := {"c"}];
    assert [A, B, C][1..] == [B, C];
    assert FindIndex([B, C], "b") == 0;
    assert FindIndex([A, B, C], "a") == 0 && FindIndex([A, B, C], "b") == 1;
    assert CheckStep(THREE, apps, 1) == THREE.(stops := [Stop(A, 0, false)]);
    assert CheckStep(THREE, apps, 2) == THREE.(stops := [Stop(A, 0, false), Stop(B, 1, false)]);
  }

  lemma SpliceTwice()
    ensures var once := DeletedStep(THREE.(stops := [Stop(A, 0, false), Stop(B, 1, false)]), 0);
      once.stops == [Stop(B, 1, true)] && DeletedStep(once, 0).watching == [B]
  {
    var s := THREE.(stops := [Stop(A, 0, false), Stop(B, 1, false)]);
    var once := DeletedStep(s, 0);
    assert Without(s.stops, 0) == [Stop(B, 1, false)];
    assert once.watching == [B, C];
    assert once.stops == [Stop(B, 1, true)];
  }
}
