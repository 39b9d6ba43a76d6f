/**
 What the failover protocol of module Failover achieves in every run, and where its guarantees end
 (platform/sensor-stream-manager/sensor-stream-manager.js:39-54, 76-137, 179-261).
 */
module FailoverRuns {
  import opened Vocabulary
  import opened RouteTables
  import opened HeartbeatKeys
  import opened RecoverySteps
  import opened Failover
  import A = Allocation

  /**
   Whenever nothing is in flight to a live gateway, it holds the topic exactly once for each sensor of its current
   share, not at all for other sensors, and runs exactly one heartbeat interval iff it has a share; while a recovery
   is in progress it holds nothing. This is kept across any number of crashes and recoveries.
   */
  lemma GatewaysHoldTheirShare(c: Setting, trace: seq<State>, k: nat, ip: Ip, x: Sensor)
    requires c.Valid() && Execution(c, trace) && k < |trace|
    requires ip in trace[k].alive && ip != c.local && Queue(trace[k].channels, ip) == []
    ensures var s, f := trace[k], ForwarderAt(trace[k], ip);
      && Count(f.table, x, c.local, c.topic) == (if s.recoveries == 0 && x in A.DevicesOf(s.mapping, ip) then 1 else 0)
      && Running(f, Key(c.topic, ip)) == (if s.recoveries == 0 && A.HasIp(s.mapping, ip) then 1 else 0)
  {
    ExecutionInv(c, trace, k);
    var s := trace[k];
    assert Drains(c, ForwarderAt(s, ip), [], s.mapping, s.recoveries, ip);
    assert Settled(HoldingAt(c, ForwarderAt(s, ip), ip, x), [], x) == Expected(s.mapping, s.recoveries, ip, x);
    if !A.HasIp(s.mapping, ip) {
      A.DevicesOfAbsent(s.mapping, ip);
    }
    assert x in A.DevicesOf(s.mapping, ip) <==> Occurrences(A.DevicesOf(s.mapping, ip), x) > 0;
  }

  lemma TimerFires(c: Setting, s: State, key: string, s': State)
    requires c.Valid() && RequestOk(c, s) && MonitoringOk(c, s) && TimeoutStep(c, s, key, s')
    ensures s.recoveries == 0 && s.awaiting == map[] && key in s.timers && s.timers[key] == s.now
    ensures FirstPart(key) == c.topic && SecondPart(key) !in s.alive
    ensures s'.recoveries == 1 && s'.timers == map[]
  {
    TimeoutIsAccurate(c, s, key);
  }

  /**
   At most one recovery is ever in progress. When a timer fires, none is, no registration reply is outstanding, the
   key splits back to the request's topic and a crashed gateway, and the recovery it starts leaves no timer armed.
   */
  lemma RecoveriesDoNotOverlap(c: Setting, trace: seq<State>, k: nat, key: string)
    requires c.Valid() && Execution(c, trace) && k + 1 < |trace|
    ensures trace[k].recoveries <= 1
    ensures Next(c, trace[k], Timeout(key), trace[k + 1]) ==>
      && trace[k].recoveries == 0 && trace[k].awaiting == map[]
      && FirstPart(key) == c.topic && SecondPart(key) !in trace[k].alive
      && trace[k + 1].recoveries == 1 && trace[k + 1].timers == map[]
  {
    ExecutionInv(c, trace, k);
    if Next(c, trace[k], Timeout(key), trace[k + 1]) {
      TimerFires(c, trace[k], key, trace[k + 1]);
    }
  }

  /** Accuracy of the failure detector: a live gateway is heard again before its timer is due, so it is never suspected. */
  lemma OnlyCrashedAreSuspected(c: Setting, trace: seq<State>, k: nat, ip: Ip)
    requires c.Valid() && Execution(c, trace) && k < |trace|
    requires ip in trace[k].alive && ip != c.local && Key(c.topic, ip) in trace[k].timers
    ensures Key(c.topic, ip) in trace[k].lastHeard
    ensures trace[k].now < trace[k].timers[Key(c.topic, ip)] == trace[k].lastHeard[Key(c.topic, ip)] + DIAGNOSTIC_SECONDS
  {
    ExecutionInv(c, trace, k);
    LiveTimersAreNotDue(c, trace[k], ip);
  }

  /** Outside of recoveries a gateway is monitored iff its registration was answered with status 200. */
  lemma MonitoredExactlyWhenAnswered(c: Setting, trace: seq<State>, k: nat, ip: Ip)
    requires c.Valid() && Execution(c, trace) && k < |trace| && trace[k].recoveries == 0
    ensures Key(c.topic, ip) in trace[k].timers <==> ip in trace[k].answered
  {
    ExecutionInv(c, trace, k);
  }

  ghost predicate IsPath(c: Setting, path: seq<State>) {
    forall m, n :: 0 <= m < n < |path| && n == m + 1 ==> Follows(c, path[m], path[n])
  }

  lemma ExecutionIsPath(c: Setting, trace: seq<State>)
    requires Execution(c, trace)
    ensures IsPath(c, trace)
  {
  }

  lemma PathFollows(c: Setting, path: seq<State>, k: nat)
    requires IsPath(c, path) && k + 1 < |path|
    ensures Follows(c, path[k], path[k + 1])
  {
  }

  ghost predicate Unanswered(s: State, ip: Ip) {
    ip !in s.answered && ip !in s.awaiting
  }

  lemma UnansweredReply(c: Setting, s: State, other: Ip, ok: bool, s': State, ip: Ip)
    requires ReplyStep(c, s, other, ok, s') && Unanswered(s, ip)
    ensures Unanswered(s', ip)
  {
    assert s'.awaiting == s.awaiting - {other} && s'.answered <= s.answered + {other};
  }

  /** Only replies and recoveries change what is awaited and answered. */
  lemma OthersKeepReplies(c: Setting, s: State, step: Step, s': State)
    requires Next(c, s, step, s') && !step.Reply? && !step.Recompute?
    ensures s'.awaiting == s.awaiting && s'.answered == s.answered
  {
  }

  lemma UnansweredFollows(c: Setting, s: State, s': State, ip: Ip)
    requires Follows(c, s, s') && s.recoveries == 0 && Unanswered(s, ip)
    ensures Unanswered(s', ip)
  {
    var step :| Next(c, s, step, s');
    if step.Reply? {
      UnansweredReply(c, s, step.ip, step.ok, s', ip);
    } else {
      OthersKeepReplies(c, s, step, s');
    }
  }

  /** No step from state k to state j answers `ip`. */
  ghost predicate StepsKeepUnanswered(path: seq<State>, k: nat, j: nat, ip: Ip)
    requires j < |path|
  {
    forall m, n :: k <= m < n <= j && n == m + 1 && Unanswered(path[m], ip) ==> Unanswered(path[n], ip)
  }

  lemma {:induction false} UnansweredStays(path: seq<State>, k: nat, j: nat, ip: Ip)
    requires k <= j < |path| && Unanswered(path[k], ip) && StepsKeepUnanswered(path, k, j, ip)
    ensures Unanswered(path[j], ip)
    decreases j
  {
    if k < j {
      UnansweredStays(path, k, j - 1, ip);
    }
  }

  lemma QuietStepsKeepUnanswered(c: Setting, path: seq<State>, k: nat, j: nat, ip: Ip)
    requires IsPath(c, path) && k <= j < |path| && forall m :: k <= m < j ==> path[m].recoveries == 0
    ensures StepsKeepUnanswered(path, k, j, ip)
  {
    forall m, n | k <= m < n <= j && n == m + 1 && Unanswered(path[m], ip)
      ensures Unanswered(path[n], ip)
    {
      PathFollows(c, path, m);
      UnansweredFollows(c, path[m], path[n], ip);
    }
  }

  /** A gateway whose registration has failed is not monitored again before the next recovery: its crash goes unnoticed. */
  lemma UnansweredStaysUnmonitored(c: Setting, trace: seq<State>, k: nat, j: nat, ip: Ip)
    requires c.Valid() && Execution(c, trace) && k <= j < |trace| && Unanswered(trace[k], ip)
    requires forall m :: k <= m <= j ==> trace[m].recoveries == 0
    ensures Key(c.topic, ip) !in trace[j].timers
  {
    ExecutionIsPath(c, trace);
    QuietStepsKeepUnanswered(c, trace, k, j, ip);
    UnansweredStays(trace, k, j, ip);
    MonitoredExactlyWhenAnswered(c, trace, j, ip);
  }

  /** Only replies, heartbeats and timers change which timers are armed. */
  lemma OthersKeepTimers(c: Setting, s: State, step: Step, s': State)
    requires Next(c, s, step, s') && !step.Reply? && !step.Arrive? && !step.Timeout?
    ensures s'.timers == s.timers
  {
  }

  /** Only the start of a recovery takes a timer away, and only a successful reply creates one: late heartbeats never do. */
  lemma TimersEndInRecovery(c: Setting, s: State, step: Step, s': State, key: string)
    requires Next(c, s, step, s')
    ensures key in s.timers && key !in s'.timers ==> step.Timeout? && s'.recoveries == s.recoveries + 1
    ensures key !in s.timers && key in s'.timers ==> step.Reply? && step.ok
  {
    if step.Timeout? {
      ClearTimersExact(s.timers, s.mapping, c.topic);
    } else if !step.Reply? && !step.Arrive? {
      OthersKeepTimers(c, s, step, s');
    }
  }

  /** From i to j, nothing is heard for `key` while its timer is armed: the deadline does not move. */
  ghost predicate Silent(trace: seq<State>, i: nat, j: nat, key: string)
    requires j < |trace|
  {
    forall m, n :: i <= m < n <= j && n == m + 1 && key in trace[m].timers && key in trace[n].timers ==>
      trace[n].timers[key] == trace[m].timers[key]
  }

  /** The timer `key` fires at its deadline in state k, and that starts a recovery. */
  ghost predicate Detects(c: Setting, trace: seq<State>, k: nat, key: string)
    requires k + 1 < |trace|
  {
    && key in trace[k].timers && trace[k].timers[key] == trace[k].now
    && Next(c, trace[k], Timeout(key), trace[k + 1])
    && trace[k + 1].recoveries == trace[k].recoveries + 1
  }

  lemma TimerEnds(c: Setting, trace: seq<State>, k: nat, key: string) returns (fired: string)
    requires c.Valid() && Execution(c, trace) && k + 1 < |trace|
    requires key in trace[k].timers && key !in trace[k + 1].timers
    ensures Detects(c, trace, k, fired)
  {
    ExecutionFollows(c, trace, k);
    var step :| Next(c, trace[k], step, trace[k + 1]);
    TimersEndInRecovery(c, trace[k], step, trace[k + 1], key);
    fired := step.key;
    ExecutionInv(c, trace, k);
    TimerFires(c, trace[k], fired, trace[k + 1]);
  }

  /**
   Completeness of the failure detector. When a monitored gateway falls silent, then by 65 s after it was last heard a
   recovery has started: its own timer fires exactly then, unless another timer has started one before.
   */
  lemma {:induction false} SilenceIsDetected(c: Setting, trace: seq<State>, i: nat, j: nat, key: string)
      returns (k: nat, fired: string)
    requires c.Valid() && Execution(c, trace) && i <= j < |trace| && Silent(trace, i, j, key)
    requires key in trace[i].timers && key in trace[i].lastHeard
    requires trace[j].now > trace[i].lastHeard[key] + DIAGNOSTIC_SECONDS
    ensures i <= k < j && Detects(c, trace, k, fired)
    ensures trace[k].now <= trace[i].lastHeard[key] + DIAGNOSTIC_SECONDS
    ensures fired == key ==> trace[k].now == trace[i].lastHeard[key] + DIAGNOSTIC_SECONDS
    decreases j - i
  {
    ExecutionInv(c, trace, i);
    assert i < j;
    if key in trace[i + 1].timers {
      ExecutionInv(c, trace, i + 1);
      assert trace[i + 1].timers[key] == trace[i].timers[key];
      k, fired := SilenceIsDetected(c, trace, i + 1, j, key);
    } else {
      k := i;
      fired := TimerEnds(c, trace, i, key);
    }
  }

  // ---------------------------------------------------------------------------
  // Time passes in every run

  lemma PathFrom(c: Setting, s: State, step: Step, path: seq<State>) returns (longer: seq<State>)
    requires path != [] && IsPath(c, path) && Next(c, s, step, path[0])
    ensures longer == [s] + path && IsPath(c, longer)
  {
    longer := [s] + path;
    assert Follows(c, s, path[0]);
    assert forall m :: 0 < m < |longer| ==> longer[m] == path[m - 1];
  }

  /** The live gateways whose heartbeat intervals are due. */
  function DueBeats(s: State): set<Ip> {
    set ip | ip in s.alive && ip in s.beating && s.beating[ip] <= s.now
  }

  datatype Duty = Duty(step: Step, after: State)

  /** The duty is allowed now and leaves less to do before time may pass. */
  ghost predicate IsDuty(c: Setting, s: State, duty: Duty) {
    && Next(c, s, duty.step, duty.after) && duty.after.now == s.now
    && (|s.timers|, |s.awaiting|, |DueBeats(s)|, |s.beats|
        decreases to |duty.after.timers|, |duty.after.awaiting|, |DueBeats(duty.after)|, |duty.after.beats|)
  }

  /** The duty starts a recovery, or moves no deadline of a crashed gateway. */
  ghost predicate LeavesSilentAlone(c: Setting, s: State, duty: Duty) {
    && duty.after.alive == s.alive
    && if duty.step.Timeout? then duty.after.recoveries == 1
       else
         && duty.after.recoveries == s.recoveries
         && forall ip :: ip !in s.alive && Key(c.topic, ip) in s.timers ==>
              Key(c.topic, ip) in duty.after.timers && duty.after.timers[Key(c.topic, ip)] == s.timers[Key(c.topic, ip)]
  }

  lemma FireTimer(c: Setting, s: State, key: string) returns (duty: Duty)
    requires c.Valid() && RequestOk(c, s) && MonitoringOk(c, s) && key in s.timers && s.timers[key] <= s.now
    ensures IsDuty(c, s, duty) && LeavesSilentAlone(c, s, duty)
  {
    TimeoutIsAccurate(c, s, key);
    duty := Duty(Timeout(key), BeginRecovery(c, s, SecondPart(key)));
    assert s.timers != map[] && duty.after.timers == map[];
  }

  lemma FailRequest(c: Setting, s: State, ip: Ip) returns (duty: Duty)
    requires ip in s.awaiting
    ensures IsDuty(c, s, duty) && LeavesSilentAlone(c, s, duty)
  {
    duty := Duty(Reply(ip, false), s.(awaiting := s.awaiting - {ip}, refused := s.refused + {ip}));
    assert |duty.after.awaiting.Keys| < |s.awaiting.Keys|;
  }

  lemma FireInterval(c: Setting, s: State, ip: Ip) returns (duty: Duty)
    requires BeatsInTime(s) && ip in DueBeats(s)
    ensures IsDuty(c, s, duty) && LeavesSilentAlone(c, s, duty)
  {
    duty := Duty(Beat(ip), s.(beats := s.beats + {Heartbeat(ip, s.now)},
                              beating := s.beating[ip := s.beating[ip] + HEARTBEAT_SECONDS]));
    assert DueBeats(duty.after) == DueBeats(s) - {ip};
  }

  ghost predicate BeatsInTime(s: State) {
    forall ip :: ip in s.alive && ip in s.beating ==> s.now <= s.beating[ip]
  }

  lemma ReceiveBeat(c: Setting, s: State, b: Heartbeat) returns (duty: Duty)
    requires b in s.beats && b.ip in s.alive
    ensures IsDuty(c, s, duty) && LeavesSilentAlone(c, s, duty)
  {
    var arrived := s.(beats := s.beats - {b});
    duty := Duty(Arrive(b), if Key(c.topic, b.ip) in s.timers then Arm(arrived, Key(c.topic, b.ip)) else arrived);
    assert duty.after.timers.Keys == s.timers.Keys;
    assert |duty.after.timers| == |duty.after.timers.Keys|;
    forall ip | ip !in s.alive
      ensures Key(c.topic, ip) != Key(c.topic, b.ip)
    {
      KeyDeterminesGateway(c.topic, ip, b.ip);
    }
  }

  /** What happens first when time may not pass yet: timers, then overdue replies, then intervals, then heartbeats. */
  lemma NextDuty(c: Setting, s: State) returns (duty: Duty)
    requires c.Valid() && RequestOk(c, s) && MonitoringOk(c, s) && !CanTick(c, s)
    ensures IsDuty(c, s, duty) && LeavesSilentAlone(c, s, duty)
  {
    if key :| key in s.timers && s.timers[key] <= s.now {
      duty := FireTimer(c, s, key);
    } else if ip :| ip in s.awaiting && s.awaiting[ip] + REQUEST_TIMEOUT_SECONDS <= s.now {
      duty := FailRequest(c, s, ip);
    } else if ip :| ip in DueBeats(s) {
      duty := FireInterval(c, s, ip);
    } else {
      assert forall ip :: ip in s.alive && ip in s.beating && s.beating[ip] <= s.now ==> ip in DueBeats(s);
      var b :| b in s.beats && b.ip in s.alive && b.sent + BUFFER_SECONDS <= s.now + 1;
      duty := ReceiveBeat(c, s, b);
    }
  }

  lemma {:induction false} NextSecond(c: Setting, s: State) returns (path: seq<State>)
    requires c.Valid() && Inv(c, s)
    ensures path != [] && path[0] == s && IsPath(c, path) && path[|path| - 1].now == s.now + 1
    decreases |s.timers|, |s.awaiting|, |DueBeats(s)|, |s.beats|
  {
    if CanTick(c, s) {
      var later := s.(now := s.now + 1);
      path := PathFrom(c, s, Tick, [later]);
    } else {
      var duty := NextDuty(c, s);
      NextInv(c, s, duty.step, duty.after);
      var rest := NextSecond(c, duty.after);
      path := PathFrom(c, s, duty.step, rest);
    }
  }

  /** The timing assumptions never block a run: from every state of every run, steps lead on to the next second. */
  lemma TimePasses(c: Setting, trace: seq<State>, n: nat) returns (path: seq<State>)
    requires c.Valid() && Execution(c, trace) && n < |trace|
    ensures path != [] && path[0] == trace[n] && IsPath(c, path) && path[|path| - 1].now == trace[n].now + 1
  {
    ExecutionInv(c, trace, n);
    path := NextSecond(c, trace[n]);
  }

  // ---------------------------------------------------------------------------
  // Registrations lead to monitoring, and crashes of monitored gateways to recovery

  /** In every run, outside of recoveries the registration of each remote gateway of the mapping is awaited or settled. */
  lemma RegistrationsAreAwaitedOrSettled(c: Setting, trace: seq<State>, k: nat, ip: Ip)
    requires c.Valid() && Execution(c, trace) && k < |trace| && trace[k].recoveries == 0
    ensures A.HasIp(trace[k].mapping, ip) && ip != c.local
        <==> ip in trace[k].awaiting || ip in trace[k].answered || ip in trace[k].refused
  {
    ExecutionInv(c, trace, k);
  }

  /** An awaited gateway can handle what it was sent and answer with status 200, and then its timer is armed. */
  lemma {:induction false} DrainAndAnswer(c: Setting, s: State, ip: Ip) returns (path: seq<State>)
    requires ip in s.awaiting
    ensures path != [] && path[0] == s && IsPath(c, path)
    ensures var last := path[|path| - 1];
      && Key(c.topic, ip) in last.timers && last.timers[Key(c.topic, ip)] == s.now + DIAGNOSTIC_SECONDS
      && last.now == s.now && last.alive == s.alive && last.recoveries == s.recoveries
    decreases |Queue(s.channels, ip)|
  {
    if Queue(s.channels, ip) == [] {
      var answered := Arm(s.(awaiting := s.awaiting - {ip}, answered := s.answered + {ip}), Key(c.topic, ip));
      assert ReplyStep(c, s, ip, true, answered);
      path := PathFrom(c, s, Reply(ip, true), [answered]);
    } else {
      var rest := s.(channels := s.channels[ip := Queue(s.channels, ip)[1..]]);
      var handled := if ip in s.alive then Handle(c, rest, ip, Queue(s.channels, ip)[0]) else rest;
      assert DeliverStep(c, s, ip, handled);
      var more := DrainAndAnswer(c, handled, ip);
      path := PathFrom(c, s, Deliver(ip), more);
    }
  }

  /** A crashed gateway is monitored, and no recovery is in progress. */
  ghost predicate Watches(c: Setting, s: State, ip: Ip) {
    Inv(c, s) && s.recoveries == 0 && ip !in s.alive && Key(c.topic, ip) in s.timers
  }

  /** Less time or, at the same time, fewer duties until the deadline of `ip`, which does not move. */
  ghost predicate Nearer(c: Setting, s: State, after: State, ip: Ip)
    requires Watches(c, s, ip) && Watches(c, after, ip)
  {
    && after.timers[Key(c.topic, ip)] == s.timers[Key(c.topic, ip)]
    && (s.timers[Key(c.topic, ip)] - s.now, |s.timers|, |s.awaiting|, |DueBeats(s)|, |s.beats|
        decreases to after.timers[Key(c.topic, ip)] - after.now, |after.timers|, |after.awaiting|, |DueBeats(after)|, |after.beats|)
  }

  lemma TickTowards(c: Setting, s: State, ip: Ip) returns (after: State)
    requires Watches(c, s, ip) && CanTick(c, s)
    ensures Next(c, s, Tick, after) && Watches(c, after, ip) && Nearer(c, s, after, ip)
  {
    after := s.(now := s.now + 1);
    TickInv(c, s, after);
  }

  lemma DutyTowards(c: Setting, s: State, ip: Ip) returns (duty: Duty)
    requires c.Valid() && Watches(c, s, ip) && !CanTick(c, s)
    ensures Next(c, s, duty.step, duty.after)
    ensures (duty.after.recoveries == 1 && duty.after.now == s.now) || (Watches(c, duty.after, ip) && Nearer(c, s, duty.after, ip))
  {
    duty := NextDuty(c, s);
    NextInv(c, s, duty.step, duty.after);
  }

  /** From a state in which a crashed gateway is monitored, steps lead to a recovery no later than its deadline. */
  lemma {:induction false} UntilRecovery(c: Setting, s: State, ip: Ip) returns (path: seq<State>)
    requires c.Valid() && Watches(c, s, ip)
    ensures path != [] && path[0] == s && IsPath(c, path)
    ensures path[|path| - 1].recoveries == 1 && path[|path| - 1].now <= s.timers[Key(c.topic, ip)]
    decreases s.timers[Key(c.topic, ip)] - s.now, |s.timers|, |s.awaiting|, |DueBeats(s)|, |s.beats|
  {
    if CanTick(c, s) {
      var later := TickTowards(c, s, ip);
      var rest := UntilRecovery(c, later, ip);
      path := PathFrom(c, s, Tick, rest);
    } else {
      var duty := DutyTowards(c, s, ip);
      assert s.now <= s.timers[Key(c.topic, ip)];
      if duty.after.recoveries == 1 {
        path := PathFrom(c, s, duty.step, [duty.after]);
      } else {
        var rest := UntilRecovery(c, duty.after, ip);
        path := PathFrom(c, s, duty.step, rest);
      }
    }
  }

  lemma {:induction false} PathInv(c: Setting, path: seq<State>)
    requires c.Valid() && path != [] && IsPath(c, path) && Inv(c, path[0])
    ensures Inv(c, path[|path| - 1])
  {
    if |path| > 1 {
      var front := path[..|path| - 1];
      assert IsPath(c, front);
      PathInv(c, front);
      PathFollows(c, path, |path| - 2);
      FollowsInv(c, path[|path| - 2], path[|path| - 1]);
    }
  }

  lemma JoinPaths(c: Setting, first: seq<State>, second: seq<State>) returns (whole: seq<State>)
    requires first != [] && second != [] && IsPath(c, first) && IsPath(c, second)
    requires Follows(c, first[|first| - 1], second[0])
    ensures whole == first + second && IsPath(c, whole)
  {
    whole := first + second;
    forall m, n | 0 <= m < n < |whole| && n == m + 1
      ensures Follows(c, whole[m], whole[n])
    {
      if n < |first| {
        assert Follows(c, first[m], first[n]);
      } else if m >= |first| {
        assert Follows(c, second[m - |first|], second[n - |first|]);
      }
    }
  }

  lemma CrashStepInv(c: Setting, s: State, ip: Ip) returns (crashed: State)
    requires c.Valid() && Inv(c, s) && ip != c.local
    ensures crashed == s.(alive := s.alive - {ip}) && Follows(c, s, crashed) && Inv(c, crashed)
  {
    crashed := s.(alive := s.alive - {ip});
    assert Next(c, s, Crash(ip), crashed);
    CrashInv(c, s, ip, crashed);
  }

  /**
   Detection is real: from every state of every run in which a registration is awaited, steps lead to a state in which
   the gateway is monitored and, when it crashes there, on to a recovery within 65 s.
   */
  lemma AwaitedGatewaysCanBeFoundOut(c: Setting, trace: seq<State>, k: nat, ip: Ip) returns (path: seq<State>, m: nat)
    requires c.Valid() && Execution(c, trace) && k < |trace| && ip in trace[k].awaiting
    ensures path != [] && path[0] == trace[k] && IsPath(c, path)
    ensures m < |path| && Key(c.topic, ip) in path[m].timers && ip !in path[m].alive && path[m].now == trace[k].now
    ensures path[|path| - 1].recoveries == 1 && path[|path| - 1].now <= trace[k].now + DIAGNOSTIC_SECONDS
  {
    var s := trace[k];
    ExecutionInv(c, trace, k);
    var monitored := DrainAndAnswer(c, s, ip);
    PathInv(c, monitored);
    var crashed := CrashStepInv(c, monitored[|monitored| - 1], ip);
    var found := UntilRecovery(c, crashed, ip);
    path := JoinPaths(c, monitored, found);
    m := |monitored|;
  }

  // ---------------------------------------------------------------------------
  // Heartbeats come a period apart

  /** Heartbeats of one gateway were sent at least 60 s apart, and so will the next one be. */
  ghost predicate PeriodsOk(beating: map<Ip, int>, beats: set<Heartbeat>, now: int) {
    && (forall b :: b in beats ==> b.sent <= now && (b.ip in beating ==> b.sent + HEARTBEAT_SECONDS <= beating[b.ip]))
    && (forall b, b' :: b in beats && b' in beats && b.ip == b'.ip && b.sent < b'.sent ==> b.sent + HEARTBEAT_SECONDS <= b'.sent)
  }

  ghost predicate PeriodsOkIn(s: State) {
    PeriodsOk(s.beating, s.beats, s.now)
  }

  lemma BeatPeriods(c: Setting, s: State, ip: Ip, s': State)
    requires PeriodsOkIn(s) && IntervalsOk(c, s) && BeatStep(s, ip, s')
    ensures PeriodsOkIn(s')
  {
    assert ip != c.local && s.beating[ip] == s.now;
  }

  lemma HandlePeriods(c: Setting, s: State, ip: Ip, s': State)
    requires PeriodsOkIn(s) && DeliverStep(c, s, ip, s')
    ensures PeriodsOkIn(s')
  {
  }

  lemma ArrivePeriods(c: Setting, s: State, beat: Heartbeat, s': State)
    requires PeriodsOkIn(s) && ArriveStep(c, s, beat, s')
    ensures PeriodsOkIn(s')
  {
    assert s'.beats == s.beats - {beat} && s'.beating == s.beating && s'.now == s.now;
  }

  lemma OthersKeepBeats(c: Setting, s: State, step: Step, s': State)
    requires Next(c, s, step, s') && !step.Deliver? && !step.Beat? && !step.Arrive?
    ensures s'.beating == s.beating && s'.beats == s.beats && s.now <= s'.now
  {
  }

  lemma FollowsPeriods(c: Setting, s: State, s': State)
    requires PeriodsOkIn(s) && IntervalsOk(c, s) && Follows(c, s, s')
    ensures PeriodsOkIn(s')
  {
    var step :| Next(c, s, step, s');
    match step
    case Deliver(ip) => HandlePeriods(c, s, ip, s');
    case Beat(ip) => BeatPeriods(c, s, ip, s');
    case Arrive(beat) => ArrivePeriods(c, s, beat, s');
    case _ => OthersKeepBeats(c, s, step, s');
  }

  ghost predicate StepsKeepPeriods(path: seq<State>) {
    forall m, n :: 0 <= m < n < |path| && n == m + 1 && PeriodsOkIn(path[m]) ==> PeriodsOkIn(path[n])
  }

  lemma ExecutionKeepsPeriods(c: Setting, trace: seq<State>)
    requires c.Valid() && Execution(c, trace)
    ensures PeriodsOkIn(trace[0]) && StepsKeepPeriods(trace)
  {
    ExecutionIsPath(c, trace);
    forall m, n | 0 <= m < n < |trace| && n == m + 1 && PeriodsOkIn(trace[m])
      ensures PeriodsOkIn(trace[n])
    {
      ExecutionInv(c, trace, m);
      PathFollows(c, trace, m);
      FollowsPeriods(c, trace[m], trace[n]);
    }
  }

  lemma {:induction false} PeriodsStay(path: seq<State>, k: nat)
    requires k < |path| && PeriodsOkIn(path[0]) && StepsKeepPeriods(path)
    ensures PeriodsOkIn(path[k])
  {
    if k > 0 {
      PeriodsStay(path, k - 1);
    }
  }

  /** In every run, heartbeats of one gateway that are on their way were sent at least 60 s apart. */
  lemma HeartbeatsComeAPeriodApart(c: Setting, trace: seq<State>, k: nat, b: Heartbeat, b': Heartbeat)
    requires c.Valid() && Execution(c, trace) && k < |trace|
    requires b in trace[k].beats && b' in trace[k].beats && b.ip == b'.ip && b.sent < b'.sent
    ensures b.sent + HEARTBEAT_SECONDS <= b'.sent <= trace[k].now
  {
    ExecutionKeepsPeriods(c, trace);
    PeriodsStay(trace, k);
  }

  // ---------------------------------------------------------------------------
  // Coverage

  /** Gateway `ip` forwards sensor x to the application exactly once. */
  ghost predicate ForwardsOnce(c: Setting, s: State, ip: Ip, x: Sensor) {
    Count(ForwarderAt(s, ip).table, x, c.local, c.topic) == 1
  }

  /**
   Coverage after any number of recoveries. When the mapping's remote gateways are live and nothing is in flight to
   them, every assigned sensor is forwarded exactly once by its gateway iff the requester registered each sensor that
   the mapping now assigns to it, once, at the start. Recovery never registers local sensors.
   */
  lemma CoverageNeedsTheLocalShare(c: Setting, trace: seq<State>, k: nat)
    requires c.Valid() && Execution(c, trace) && k < |trace|
    requires trace[k].recoveries == 0
    requires forall ip :: A.HasIp(trace[k].mapping, ip) && ip != c.local ==>
      ip in trace[k].alive && Queue(trace[k].channels, ip) == []
    ensures (forall ip, x :: A.Assigned(trace[k].mapping, ip, x) ==> ForwardsOnce(c, trace[k], ip, x))
        <==> (forall x :: x in A.DevicesOf(trace[k].mapping, c.local) ==> Occurrences(trace[k].localShare, x) == 1)
  {
    ExecutionInv(c, trace, k);
    var s := trace[k];
    forall ip, x | A.Assigned(s.mapping, ip, x)
      ensures ip != c.local ==> ForwardsOnce(c, s, ip, x)
    {
      A.AssignedIsDevicesOf(s.mapping, ip, x);
      if ip != c.local {
        GatewaysHoldTheirShare(c, trace, k, ip, x);
      }
    }
    forall x
      ensures ForwardsOnce(c, s, c.local, x) <==> Occurrences(s.localShare, x) == 1
      ensures A.Assigned(s.mapping, c.local, x) <==> x in A.DevicesOf(s.mapping, c.local)
    {
      A.AssignedIsDevicesOf(s.mapping, c.local, x);
    }
  }

  // ---------------------------------------------------------------------------
  // Where the guarantee ends: the code as written, and a live gateway taken for dead

  /** Gateway `f` holds exactly `share`, each sensor once. */
  ghost predicate HoldsExactly(c: Setting, f: Forwarder, share: seq<Sensor>) {
    forall x :: Count(f.table, x, c.local, c.topic) == Occurrences(share, x)
  }

  /** A recovery round at a gateway that is asked to stop `before` and to start `after`, with line 44 in place. */
  function LiteralRound(c: Setting, f: Forwarder, ip: Ip, before: seq<Sensor>, after: seq<Sensor>): Forwarder {
    Receive(Receive(f, Stop(c.topic, before), c.local, ip, true), Start(c.topic, after), c.local, ip, true)
  }

  lemma LiteralRoundCounts(c: Setting, f: Forwarder, ip: Ip, before: seq<Sensor>, after: seq<Sensor>, x: Sensor)
    ensures Count(LiteralRound(c, f, ip, before, after).table, x, c.local, c.topic) ==
            Count(f.table, x, c.local, c.topic) + Occurrences(after, x)
  {
    var stopped := Receive(f, Stop(c.topic, before), c.local, ip, true);
    LiteralDeregisterConserves(f.table, before, c.local, c.topic, x, c.local);
    RegisterAllCounts(stopped.table, after, c.local, c.topic, x, c.local, c.topic);
  }

  /** With line 44 a round leaves a gateway with its new share exactly iff it had no share before. */
  lemma LiteralRoundExactlyWhenIdle(c: Setting, f: Forwarder, ip: Ip, before: seq<Sensor>, after: seq<Sensor>)
    requires HoldsExactly(c, f, before)
    ensures HoldsExactly(c, LiteralRound(c, f, ip, before, after), after) <==> before == []
  {
    forall x
      ensures Count(LiteralRound(c, f, ip, before, after).table, x, c.local, c.topic) ==
              Occurrences(before, x) + Occurrences(after, x)
    {
      LiteralRoundCounts(c, f, ip, before, after, x);
    }
    if before != [] {
      assert before[0] in multiset(before);
      var result := LiteralRound(c, f, ip, before, after);
      assert Count(result.table, before[0], c.local, c.topic) > Occurrences(after, before[0]);
    }
  }

  function LiteralRounds(c: Setting, f: Forwarder, ip: Ip, share: seq<Sensor>, n: nat): Forwarder {
    if n == 0 then f else LiteralRound(c, LiteralRounds(c, f, ip, share, n - 1), ip, share, share)
  }

  /** With line 44 a gateway that keeps its share publishes n + 1 copies after n recoveries. */
  lemma {:induction false} LiteralCopiesPileUp(c: Setting, f: Forwarder, ip: Ip, share: seq<Sensor>, n: nat, x: Sensor)
    requires Count(f.table, x, c.local, c.topic) == 1 == Occurrences(share, x)
    ensures Count(LiteralRounds(c, f, ip, share, n).table, x, c.local, c.topic) == n + 1
  {
    if n > 0 {
      LiteralCopiesPileUp(c, f, ip, share, n - 1, x);
      LiteralRoundCounts(c, LiteralRounds(c, f, ip, share, n - 1), ip, share, share, x);
    }
  }

  /**
   The gateway whose timer fired is not asked to stop. If it is alive after all and gets a share again, it holds
   exactly that share iff it had none before; and its old heartbeat interval keeps running beside the new one.
   */
  lemma FalseSuspicionExactlyWhenIdle(c: Setting, f: Forwarder, ip: Ip, before: seq<Sensor>, after: seq<Sensor>)
    requires HoldsExactly(c, f, before)
    ensures HoldsExactly(c, Receive(f, Start(c.topic, after), c.local, ip, false), after) <==> before == []
    ensures Running(Receive(f, Start(c.topic, after), c.local, ip, false), Key(c.topic, ip)) == Running(f, Key(c.topic, ip)) + 1
  {
    forall x
      ensures Count(Receive(f, Start(c.topic, after), c.local, ip, false).table, x, c.local, c.topic) ==
              Occurrences(before, x) + Occurrences(after, x)
    {
      RegisterAllCounts(f.table, after, c.local, c.topic, x, c.local, c.topic);
    }
    if before != [] {
      assert before[0] in multiset(before);
      var result := Receive(f, Start(c.topic, after), c.local, ip, false);
      assert Count(result.table, before[0], c.local, c.topic) > Occurrences(after, before[0]);
    }
  }
}
