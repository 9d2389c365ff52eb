/** One node's failure detector: self-check health, probe tasks with their
    tokens, and consecutive-failure counts.

    `State` is the detector as a value, with a log of everything it processed.
    `Backed` says, over the log alone and without naming a counter, what
    evidence must exist before the node may vote. `NodeDetector` is the same
    detector as the object the event loop updates in place. */
module Detector {
  import opened Members

  datatype Health = Healthy | Unhealthy

  /** One processed event. `targets` are the neighbours of that moment, `started` holds the
      probes a tick launched. */
  datatype Event =
    | Check(ok: bool, targets: seq<MemberId>, started: map<MemberId, nat>)
    | Poll(targets: seq<MemberId>)
    | Reply(target: MemberId, token: nat, good: bool)

  datatype State = State(
    health: Health,
    healthyTicks: nat,
    failures: map<MemberId, nat>,
    tasks: map<MemberId, nat>,
    lastToken: nat,
    log: seq<Event>)

  /** What the node does about the target of a processed reply. */
  datatype Action = Nothing | Withdraw | Cast

  const RECOVERY_TICKS := 3

  function Fresh(): State {
    State(Healthy, 0, map[], map[], 0, [])
  }

  // ---- transitions ------------------------------------------------------------

  function Checked(s: State, ok: bool): State {
    if !ok then s.(health := Unhealthy, healthyTicks := 0, failures := map[])
    else if s.health == Healthy then s
    else s.(healthyTicks := s.healthyTicks + 1,
            health := if s.healthyTicks + 1 == RECOVERY_TICKS then Healthy else Unhealthy)
  }

  function Reconciled(s: State, targets: seq<MemberId>): State {
    s.(tasks := map t | t in s.tasks && t in targets :: s.tasks[t],
       failures := map t | t in s.failures && t in targets :: s.failures[t])
  }

  /** Launches a probe for every target that has none; tokens are consecutive. */
  function Launched(s: State, targets: seq<MemberId>): State
    decreases |targets|
  {
    if targets == [] then s
    else if targets[0] in s.tasks then Launched(s, targets[1..])
    else Launched(s.(tasks := s.tasks[targets[0] := s.lastToken + 1], lastToken := s.lastToken + 1), targets[1..])
  }

  function Ticked(s: State, ok: bool, targets: seq<MemberId>): State {
    var before := Reconciled(Checked(s, ok), targets);
    var after := Launched(before, targets);
    after.(log := s.log + [Check(ok, targets, after.tasks - before.tasks.Keys)])
  }

  function Polled(s: State, targets: seq<MemberId>): State {
    Reconciled(s, targets).(log := s.log + [Poll(targets)])
  }

  predicate Current(s: State, target: MemberId, token: nat) {
    target in s.tasks && s.tasks[target] == token
  }

  function Failures(s: State, target: MemberId): nat {
    if target in s.failures then s.failures[target] else 0
  }

  /** `recordProbeEvent` on an event whose token is current. */
  function Recorded(s: State, target: MemberId, token: nat, good: bool): State {
    s.(tasks := s.tasks - {target},
       failures := s.failures[target := if good then 0 else Failures(s, target) + 1],
       log := s.log + [Reply(target, token, good)])
  }

  function Handled(s: State, target: MemberId, token: nat, good: bool): State {
    if !Current(s, target, token) then s
    else
      var r := Recorded(s, target, token, good);
      if s.health == Unhealthy then r.(failures := map[]) else r
  }

  function Decision(s: State, target: MemberId, token: nat, good: bool, limit: nat): Action {
    if !Current(s, target, token) then Nothing
    else if good then Withdraw
    else if s.health == Unhealthy then Nothing
    else if Failures(Handled(s, target, token, good), target) >= limit then Cast
    else Nothing
  }

  // ---- evidence, stated over the log -------------------------------------------

  predicate FailedCheck(e: Event) {
    e.Check? && !e.ok
  }

  function OkChecks(log: seq<Event>): nat {
    if log == [] then 0
    else OkChecks(log[..|log| - 1]) + (if log[|log| - 1].Check? && log[|log| - 1].ok then 1 else 0)
  }

  /** Good self-checks after position `i`. */
  function OkAfter(log: seq<Event>, i: nat): nat
    requires i < |log|
  {
    OkChecks(log[i + 1..])
  }

  /** Every failed self-check so far was followed by at least three good ones. */
  ghost predicate Recovered(log: seq<Event>) {
    forall i :: 0 <= i < |log| && FailedCheck(log[i]) ==> OkAfter(log, i) >= RECOVERY_TICKS
  }

  /** `token` belongs to the latest probe the log launched at `target`. */
  ghost predicate LatestProbe(log: seq<Event>, target: MemberId, token: nat) {
    exists i :: 0 <= i < |log| && LaunchedAt(log, target, token, i)
  }

  ghost predicate LaunchedAt(log: seq<Event>, target: MemberId, token: nat, i: nat)
    requires i < |log|
  {
    && log[i].Check? && target in log[i].started && log[i].started[target] == token
    && forall k :: i < k < |log| && log[k].Check? ==> target !in log[k].started
  }

  /** `at` picks consecutive failed replies of `target`: each answers the latest
      probe of its time and was processed in health; tokens never repeat; and
      since the first of them no self-check failed and no other reply of the
      target was processed. */
  ghost predicate Streak(log: seq<Event>, target: MemberId, at: seq<nat>) {
    && (forall j :: 0 <= j < |at| ==> StreakItem(log, target, at[j]))
    && (forall j, k :: 0 <= j < k < |at| ==> at[j] < at[k] && log[at[j]].token < log[at[k]].token)
    && (|at| > 0 ==> forall k :: at[0] <= k < |log| ==> StreakSpares(log, target, at, k))
  }

  ghost predicate StreakItem(log: seq<Event>, target: MemberId, i: nat) {
    && i < |log| && FailedReply(log[i], target)
    && LatestProbe(log[..i], target, log[i].token) && Recovered(log[..i])
  }

  ghost predicate StreakSpares(log: seq<Event>, target: MemberId, at: seq<nat>, k: nat)
    requires k < |log|
  {
    !FailedCheck(log[k]) && (log[k].Reply? && log[k].target == target ==> k in at)
  }

  predicate FailedReply(e: Event, target: MemberId) {
    e.Reply? && e.target == target && !e.good
  }

  /** The evidence a vote against `target` needs. */
  ghost predicate Backed(log: seq<Event>, target: MemberId, limit: nat) {
    Recovered(log) && exists at :: |at| >= limit && Streak(log, target, at)
  }

  // ---- the invariant -------------------------------------------------------------

  /** Good self-checks since the last failed one; negative when none failed. */
  function GoodSince(log: seq<Event>): int {
    if log == [] then -1
    else
      var before := GoodSince(log[..|log| - 1]);
      var last := log[|log| - 1];
      if !last.Check? then before
      else if !last.ok then 0
      else if before < 0 then -1 else before + 1
  }

  ghost predicate HealthAgrees(s: State) {
    match s.health
    case Healthy => GoodSince(s.log) < 0 || GoodSince(s.log) >= RECOVERY_TICKS
    case Unhealthy => 0 <= GoodSince(s.log) == s.healthyTicks < RECOVERY_TICKS && s.failures == map[]
  }

  ghost predicate TokensAgree(s: State) {
    && (forall t :: t in s.tasks ==> s.tasks[t] <= s.lastToken && LatestProbe(s.log, t, s.tasks[t]))
    && (forall k :: 0 <= k < |s.log| && s.log[k].Reply? ==>
          && s.log[k].token <= s.lastToken
          && (s.log[k].target in s.tasks ==> s.log[k].token < s.tasks[s.log[k].target]))
  }

  ghost predicate HasStreak(log: seq<Event>, target: MemberId, n: nat) {
    exists at :: |at| == n && Streak(log, target, at)
  }

  ghost predicate CountsAgree(s: State) {
    forall t :: t in s.failures ==> HasStreak(s.log, t, s.failures[t])
  }

  ghost predicate Inv(s: State) {
    HealthAgrees(s) && TokensAgree(s) && CountsAgree(s)
  }

  // ---- lemmas ----------------------------------------------------------------------

  lemma OkAfterAppend(log: seq<Event>, e: Event, i: nat)
    requires i < |log|
    ensures OkAfter(log + [e], i) == OkAfter(log, i) + if e.Check? && e.ok then 1 else 0
  {
    var tail := (log + [e])[i + 1..];
    assert tail == log[i + 1..] + [e];
    assert tail[..|tail| - 1] == log[i + 1..];
  }

  ghost predicate CountedAt(log: seq<Event>, i: nat, n: int) {
    i < |log| && FailedCheck(log[i]) && OkAfter(log, i) == n
  }

  /** The counter is the least number of good self-checks after any failed one. */
  lemma {:induction false} CounterIsLeast(log: seq<Event>, i: nat)
    requires i < |log| && FailedCheck(log[i])
    ensures 0 <= GoodSince(log) <= OkAfter(log, i)
  {
    var n := |log| - 1;
    if i < n && !FailedCheck(log[n]) {
      assert log == log[..n] + [log[n]];
      OkAfterAppend(log[..n], log[n], i);
      CounterIsLeast(log[..n], i);
    }
  }

  lemma {:induction false} CounterIsReached(log: seq<Event>) returns (i: nat)
    requires GoodSince(log) >= 0
    ensures CountedAt(log, i, GoodSince(log))
  {
    var n := |log| - 1;
    if FailedCheck(log[n]) {
      i := n;
      assert log[n + 1..] == [];
    } else {
      i := CounterIsReached(log[..n]);
      assert log == log[..n] + [log[n]];
      OkAfterAppend(log[..n], log[n], i);
    }
  }

  /** The counter over the log decides the quantified recovery condition. */
  lemma RecoveredIffCounted(log: seq<Event>)
    ensures Recovered(log) <==> GoodSince(log) < 0 || GoodSince(log) >= RECOVERY_TICKS
  {
    forall i | 0 <= i < |log| && FailedCheck(log[i]) ensures 0 <= GoodSince(log) <= OkAfter(log, i) {
      CounterIsLeast(log, i);
    }
    if GoodSince(log) >= 0 {
      var i := CounterIsReached(log);
    }
  }

  lemma StreakSurvives(log: seq<Event>, e: Event, target: MemberId, at: seq<nat>)
    requires Streak(log, target, at)
    requires !FailedCheck(e) && !(e.Reply? && e.target == target)
    ensures Streak(log + [e], target, at)
  {
    forall j | 0 <= j < |at| ensures StreakItem(log + [e], target, at[j]) {
      ItemSurvives(log, e, target, at[j]);
    }
    forall k | |at| > 0 && at[0] <= k < |log + [e]| ensures StreakSpares(log + [e], target, at, k) {
      assert k < |log| ==> StreakSpares(log, target, at, k);
    }
  }

  lemma StreakGrows(log: seq<Event>, e: Event, target: MemberId, at: seq<nat>)
    requires Streak(log, target, at) && FailedReply(e, target)
    requires LatestProbe(log, target, e.token) && Recovered(log)
    requires forall j :: 0 <= j < |at| ==> log[at[j]].token < e.token
    ensures Streak(log + [e], target, at + [|log|])
  {
    var log', at' := log + [e], at + [|log|];
    forall j | 0 <= j < |at'| ensures StreakItem(log', target, at'[j]) {
      ItemSurvives(log, e, target, if j < |at| then at[j] else |log|);
    }
    forall k | at'[0] <= k < |log'| ensures StreakSpares(log', target, at', k) {
      if k < |log| {
        assert |at| > 0 && at'[0] == at[0] && log'[k] == log[k];
        assert StreakSpares(log, target, at, k);
      } else {
        assert at'[|at|] == k;
      }
    }
  }

  lemma ItemSurvives(log: seq<Event>, e: Event, target: MemberId, i: nat)
    requires i <= |log|
    requires if i < |log| then StreakItem(log, target, i)
             else FailedReply(e, target) && LatestProbe(log, target, e.token) && Recovered(log)
    ensures StreakItem(log + [e], target, i)
  {
    assert (log + [e])[..i] == log[..i];
    assert i == |log| ==> log[..i] == log;
  }

  lemma NoStreakNeeded(log: seq<Event>, target: MemberId)
    ensures HasStreak(log, target, 0)
  {
    assert Streak(log, target, []);
  }

  lemma ProbeStaysLatest(log: seq<Event>, e: Event, target: MemberId, token: nat)
    requires LatestProbe(log, target, token)
    requires e.Check? ==> target !in e.started
    ensures LatestProbe(log + [e], target, token)
  {
    var i :| 0 <= i < |log| && LaunchedAt(log, target, token, i);
    assert LaunchedAt(log + [e], target, token, i);
  }

  /** Appending an event that is not the target's reply keeps every kept count. */
  lemma CountsSurvive(s: State, r: State, e: Event)
    requires CountsAgree(s) && r.log == s.log + [e]
    requires forall t :: t in r.failures ==> t in s.failures && r.failures[t] == s.failures[t]
    requires !FailedCheck(e) && !e.Reply?
    ensures CountsAgree(r)
  {
    forall t | t in r.failures ensures HasStreak(r.log, t, r.failures[t]) {
      var at :| |at| == s.failures[t] && Streak(s.log, t, at);
      StreakSurvives(s.log, e, t, at);
    }
  }

  lemma GoodSinceAppend(log: seq<Event>, e: Event)
    ensures GoodSince(log + [e]) ==
            if !e.Check? then GoodSince(log)
            else if !e.ok then 0
            else if GoodSince(log) < 0 then -1 else GoodSince(log) + 1
  {
    assert (log + [e])[..|log|] == log;
  }

  // ---- every transition keeps the invariant --------------------------------------

  lemma {:induction false} LaunchKeepsOld(s: State, targets: seq<MemberId>)
    ensures var r := Launched(s, targets);
      && r == s.(tasks := r.tasks, lastToken := r.lastToken)
      && r.lastToken >= s.lastToken
      && (forall t :: t in s.tasks ==> t in r.tasks && r.tasks[t] == s.tasks[t])
      && (forall t :: t in r.tasks && t !in s.tasks ==> s.lastToken < r.tasks[t] <= r.lastToken)
      && (forall t :: t in r.tasks ==> t in s.tasks || t in targets)
      && (forall t :: t in targets ==> t in r.tasks)
    decreases |targets|
  {
    if targets != [] {
      var next := if targets[0] in s.tasks then s
                  else s.(tasks := s.tasks[targets[0] := s.lastToken + 1], lastToken := s.lastToken + 1);
      LaunchKeepsOld(next, targets[1..]);
      assert targets == [targets[0]] + targets[1..];
    }
  }

  lemma TickKeepsProbes(s: State, ok: bool, targets: seq<MemberId>, t: MemberId)
    requires TokensAgree(s) && t in Ticked(s, ok, targets).tasks
    ensures var r := Ticked(s, ok, targets); r.tasks[t] <= r.lastToken && LatestProbe(r.log, t, r.tasks[t])
  {
    var before := Reconciled(Checked(s, ok), targets);
    var r := Ticked(s, ok, targets);
    LaunchKeepsOld(before, targets);
    if t in before.tasks {
      ProbeStaysLatest(s.log, r.log[|s.log|], t, s.tasks[t]);
    } else {
      assert LaunchedAt(r.log, t, r.tasks[t], |s.log|);
    }
  }

  lemma TickKeepsTokens(s: State, ok: bool, targets: seq<MemberId>)
    requires TokensAgree(s)
    ensures TokensAgree(Ticked(s, ok, targets))
  {
    var r := Ticked(s, ok, targets);
    LaunchKeepsOld(Reconciled(Checked(s, ok), targets), targets);
    forall t | t in r.tasks ensures r.tasks[t] <= r.lastToken && LatestProbe(r.log, t, r.tasks[t]) {
      TickKeepsProbes(s, ok, targets, t);
    }
  }

  lemma TickKeepsInv(s: State, ok: bool, targets: seq<MemberId>)
    requires Inv(s)
    ensures Inv(Ticked(s, ok, targets))
  {
    var r := Ticked(s, ok, targets);
    LaunchKeepsOld(Reconciled(Checked(s, ok), targets), targets);
    TickKeepsTokens(s, ok, targets);
    GoodSinceAppend(s.log, r.log[|s.log|]);
    if ok {
      CountsSurvive(s, r, r.log[|s.log|]);
    }
  }

  lemma PollKeepsInv(s: State, targets: seq<MemberId>)
    requires Inv(s)
    ensures Inv(Polled(s, targets))
  {
    var r := Polled(s, targets);
    GoodSinceAppend(s.log, Poll(targets));
    CountsSurvive(s, r, Poll(targets));
    forall t | t in r.tasks ensures LatestProbe(r.log, t, r.tasks[t]) {
      ProbeStaysLatest(s.log, Poll(targets), t, s.tasks[t]);
    }
  }

  lemma StreakIsOlder(s: State, target: MemberId, token: nat, at: seq<nat>)
    requires TokensAgree(s) && Current(s, target, token) && Streak(s.log, target, at)
    ensures forall j :: 0 <= j < |at| ==> s.log[at[j]].token < token
  {
    forall j | 0 <= j < |at| ensures s.log[at[j]].token < token {
      assert FailedReply(s.log[at[j]], target);
    }
  }

  lemma RecordedStreak(s: State, target: MemberId, token: nat)
    requires Inv(s) && Current(s, target, token) && s.health == Healthy
    ensures HasStreak(s.log + [Reply(target, token, false)], target, Failures(s, target) + 1)
  {
    RecoveredIffCounted(s.log);
    if target !in s.failures {
      NoStreakNeeded(s.log, target);
    }
    assert HasStreak(s.log, target, Failures(s, target));
    var at: seq<nat> :| |at| == Failures(s, target) && Streak(s.log, target, at);
    StreakIsOlder(s, target, token, at);
    StreakGrows(s.log, Reply(target, token, false), target, at);
    assert |at + [|s.log|]| == Failures(s, target) + 1;
  }

  lemma HandleKeepsTokens(s: State, target: MemberId, token: nat, good: bool)
    requires TokensAgree(s) && Current(s, target, token)
    ensures TokensAgree(Handled(s, target, token, good))
  {
    var r := Handled(s, target, token, good);
    forall t | t in r.tasks ensures LatestProbe(r.log, t, r.tasks[t]) {
      ProbeStaysLatest(s.log, Reply(target, token, good), t, s.tasks[t]);
    }
  }

  lemma HandleKeepsCount(s: State, target: MemberId, token: nat, good: bool, t: MemberId)
    requires Inv(s) && Current(s, target, token) && t in Handled(s, target, token, good).failures
    ensures var r := Handled(s, target, token, good); HasStreak(r.log, t, r.failures[t])
  {
    var r := Handled(s, target, token, good);
    if t != target {
      var at :| |at| == s.failures[t] && Streak(s.log, t, at);
      StreakSurvives(s.log, Reply(target, token, good), t, at);
    } else if good {
      NoStreakNeeded(r.log, t);
    } else {
      RecordedStreak(s, target, token);
    }
  }

  lemma HandleKeepsInv(s: State, target: MemberId, token: nat, good: bool)
    requires Inv(s)
    ensures Inv(Handled(s, target, token, good))
  {
    if Current(s, target, token) {
      var r := Handled(s, target, token, good);
      GoodSinceAppend(s.log, Reply(target, token, good));
      HandleKeepsTokens(s, target, token, good);
      forall t | t in r.failures ensures HasStreak(r.log, t, r.failures[t]) {
        HandleKeepsCount(s, target, token, good, t);
      }
    }
  }

  /** No vote without evidence: whenever the detector decides to cast, the log
      holds `limit` consecutive failed probes of the target. */
  lemma CastIsBacked(s: State, target: MemberId, token: nat, good: bool, limit: nat)
    requires Inv(s) && Decision(s, target, token, good, limit) == Cast
    ensures Backed(Handled(s, target, token, good).log, target, limit)
  {
    var r := Handled(s, target, token, good);
    HandleKeepsInv(s, target, token, good);
    RecoveredIffCounted(r.log);
    if target in r.failures {
      var at :| |at| == r.failures[target] && Streak(r.log, target, at);
    } else {
      NoStreakNeeded(r.log, target);
    }
  }

  // ---- whole runs --------------------------------------------------------------------

  datatype Input =
    | Tick(ok: bool, targets: seq<MemberId>)
    | View(targets: seq<MemberId>)
    | Answer(target: MemberId, token: nat, good: bool)

  function After(s: State, input: Input): State {
    match input
    case Tick(ok, targets) => Ticked(s, ok, targets)
    case View(targets) => Polled(s, targets)
    case Answer(target, token, good) => Handled(s, target, token, good)
  }

  function Run(s: State, inputs: seq<Input>): State
    decreases |inputs|
  {
    if inputs == [] then s else Run(After(s, inputs[0]), inputs[1..])
  }

  lemma {:induction false} RunKeepsInv(s: State, inputs: seq<Input>)
    requires Inv(s)
    ensures Inv(Run(s, inputs))
    decreases |inputs|
  {
    if inputs != [] {
      match inputs[0] {
        case Tick(ok, targets) => TickKeepsInv(s, ok, targets);
        case View(targets) => PollKeepsInv(s, targets);
        case Answer(target, token, good) => HandleKeepsInv(s, target, token, good);
      }
      RunKeepsInv(After(s, inputs[0]), inputs[1..]);
    }
  }

  /** From a fresh detector, after any inputs, an answer that makes it vote
      leaves the required evidence in the log. */
  lemma EveryCastIsBacked(inputs: seq<Input>, target: MemberId, token: nat, good: bool, limit: nat)
    requires Decision(Run(Fresh(), inputs), target, token, good, limit) == Cast
    ensures Backed(Handled(Run(Fresh(), inputs), target, token, good).log, target, limit)
  {
    RunKeepsInv(Fresh(), inputs);
    CastIsBacked(Run(Fresh(), inputs), target, token, good, limit);
  }

  // ---- the object ----------------------------------------------------------------------

  class NodeDetector {
    var health: Health
    var healthyTicks: nat
    var failures: map<MemberId, nat>
    var tasks: map<MemberId, nat>
    var nextProbeToken: nat
    const probeFailureLimit: nat
    ghost var log: seq<Event>

    ghost function Value(): State
      reads this
    {
      State(health, healthyTicks, failures, tasks, nextProbeToken, log)
    }

    constructor (limit: nat)
      ensures Value() == Fresh() && probeFailureLimit == limit
      ensures Inv(Value())
    {
      health, healthyTicks := Healthy, 0;
      failures, tasks, nextProbeToken := map[], map[], 0;
      probeFailureLimit := limit;
      log := [];
    }

    method UpdateHealth(checkOk: bool)
      modifies this
      ensures !checkOk ==> health == Unhealthy && healthyTicks == 0 && failures == map[]
      ensures checkOk && old(health) == Healthy ==> health == Healthy && healthyTicks == old(healthyTicks)
      ensures checkOk && old(health) == Unhealthy ==>
        healthyTicks == old(healthyTicks) + 1 && (health == Healthy <==> healthyTicks == 3)
      ensures checkOk ==> failures == old(failures)
      ensures tasks == old(tasks) && nextProbeToken == old(nextProbeToken) && log == old(log)
      ensures Value() == Checked(old(Value()), checkOk)
    {
      if !checkOk {
        health, healthyTicks, failures := Unhealthy, 0, map[];
        return;
      }
      if health != Unhealthy {
        return;
      }
      healthyTicks := healthyTicks + 1;
      if healthyTicks == RECOVERY_TICKS {
        health := Healthy;
      }
    }

    method ReconcileProbeState(targets: seq<MemberId>)
      modifies this
      ensures forall t :: t in failures <==> t in old(failures) && t in targets
      ensures forall t :: t in failures ==> failures[t] == old(failures)[t]
      ensures forall t :: t in tasks <==> t in old(tasks) && t in targets
      ensures forall t :: t in tasks ==> tasks[t] == old(tasks)[t]
      ensures health == old(health) && healthyTicks == old(healthyTicks) && nextProbeToken == old(nextProbeToken)
      ensures Value() == Reconciled(old(Value()), targets)
    {
      var current := set t | t in targets;
      var rest := tasks.Keys;
      while rest != {}
        invariant rest <= tasks.Keys
        invariant failures == old(failures)
        invariant forall t :: t in tasks <==> t in old(tasks) && (t in rest || t in current)
        invariant forall t :: t in tasks ==> tasks[t] == old(tasks)[t]
        invariant log == old(log) && health == old(health)
        invariant healthyTicks == old(healthyTicks) && nextProbeToken == old(nextProbeToken)
        decreases |rest|
      {
        var t :| t in rest;
        rest := rest - {t};
        if t !in current {
          tasks := tasks - {t};
        }
      }
      rest := failures.Keys;
      while rest != {}
        invariant rest <= failures.Keys
        invariant tasks == map t | t in old(tasks) && t in targets :: old(tasks)[t]
        invariant forall t :: t in failures <==> t in old(failures) && (t in rest || t in current)
        invariant forall t :: t in failures ==> failures[t] == old(failures)[t]
        invariant log == old(log) && health == old(health)
        invariant healthyTicks == old(healthyTicks) && nextProbeToken == old(nextProbeToken)
        decreases |rest|
      {
        var t :| t in rest;
        rest := rest - {t};
        if t !in current {
          failures := failures - {t};
        }
      }
    }

    /** The probe-tick branch of the event loop, after the self-check itself. */
    method ProbeTick(checkOk: bool, targets: seq<MemberId>)
      requires Inv(Value())
      modifies this
      ensures Value() == Ticked(old(Value()), checkOk, targets)
      ensures Inv(Value())
    {
      TickKeepsInv(Value(), checkOk, targets);
      UpdateHealth(checkOk);
      ReconcileProbeState(targets);
      ghost var before := Value();
      var i := 0;
      while i < |targets|
        invariant 0 <= i <= |targets|
        invariant Launched(Value(), targets[i..]) == Launched(before, targets)
        invariant log == before.log
      {
        if targets[i] !in tasks {
          nextProbeToken := nextProbeToken + 1;
          tasks := tasks[targets[i] := nextProbeToken];
        }
        i := i + 1;
      }
      log := log + [Check(checkOk, targets, tasks - before.tasks.Keys)];
    }

    /** Records the answer to a current probe; a stale one changes nothing. */
    method RecordProbeEvent(target: MemberId, token: nat, good: bool) returns (recovered: bool)
      modifies this
      ensures Value() == if Current(old(Value()), target, token) then Recorded(old(Value()), target, token, good)
                         else old(Value())
      ensures recovered <==> good && target in old(tasks) && old(tasks)[target] == token
      ensures if target in old(tasks) && old(tasks)[target] == token
        then tasks == old(tasks) - {target}
          && failures == old(failures)[target := if good then 0 else (if target in old(failures) then old(failures)[target] else 0) + 1]
        else tasks == old(tasks) && failures == old(failures)
    {
      if target !in tasks || tasks[target] != token {
        return false;
      }
      tasks := tasks - {target};
      log := log + [Reply(target, token, good)];
      if good {
        failures := failures[target := 0];
        return true;
      }
      failures := failures[target := (if target in failures then failures[target] else 0) + 1];
      return false;
    }

    method ProcessEvent(target: MemberId, token: nat, good: bool) returns (action: Action)
      modifies this
      ensures Value() == Handled(old(Value()), target, token, good)
      ensures action == Decision(old(Value()), target, token, good, probeFailureLimit)
    {
      if target !in tasks || tasks[target] != token {
        return Nothing;
      }
      var success := RecordProbeEvent(target, token, good);
      if health == Unhealthy {
        failures := map[];
        return if success then Withdraw else Nothing;
      }
      if success {
        return Withdraw;
      }
      if failures[target] >= probeFailureLimit {
        return Cast;
      }
      return Nothing;
    }

    method HandleProbeEvent(target: MemberId, token: nat, good: bool) returns (action: Action)
      requires Inv(Value())
      modifies this
      ensures Value() == Handled(old(Value()), target, token, good)
      ensures action == Decision(old(Value()), target, token, good, probeFailureLimit)
      ensures Inv(Value())
      ensures action == Cast ==> Backed(log, target, probeFailureLimit)
    {
      ghost var before := Value();
      action := ProcessEvent(target, token, good);
      HandleKeepsInv(before, target, token, good);
      if action == Cast {
        CastIsBacked(before, target, token, good, probeFailureLimit);
      }
    }
  }
}
