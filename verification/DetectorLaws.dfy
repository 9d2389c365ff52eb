/** The failure detector, exactly: what its tables hold and what it decides, told from the
    log of what it processed, without naming a counter or a table. */
module DetectorLaws {
  import opened Members
  import opened Detector

  // ---- which probe is awaited --------------------------------------------------------------------

  /** The event keeps a probe of `t` going: it is no answer of `t`, and `t` is still a neighbour. */
  predicate Keeps(e: Event, t: MemberId) {
    if e.Reply? then e.target != t else t in e.targets && (e.Check? ==> t !in e.started)
  }

  ghost predicate Launches(e: Event, t: MemberId, token: nat) {
    e.Check? && t in e.started && e.started[t] == token
  }

  /** A probe of `t` was launched under `token` and kept going ever since. */
  ghost predicate Outstanding(log: seq<Event>, t: MemberId, token: nat) {
    exists i :: 0 <= i < |log| && OutstandingSince(log, t, token, i)
  }

  ghost predicate OutstandingSince(log: seq<Event>, t: MemberId, token: nat, i: nat)
    requires i < |log|
  {
    Launches(log[i], t, token) && forall k :: i < k < |log| ==> Keeps(log[k], t)
  }

  lemma OutstandingAppend(log: seq<Event>, e: Event, t: MemberId, token: nat)
    ensures Outstanding(log + [e], t, token) <==>
      Launches(e, t, token) || (Outstanding(log, t, token) && Keeps(e, t))
  {
    var all := log + [e];
    if Launches(e, t, token) {
      assert OutstandingSince(all, t, token, |log|);
    }
    if Outstanding(log, t, token) && Keeps(e, t) {
      var i :| 0 <= i < |log| && OutstandingSince(log, t, token, i);
      assert OutstandingSince(all, t, token, i);
    }
    if Outstanding(all, t, token) {
      var i :| 0 <= i < |all| && OutstandingSince(all, t, token, i);
      if i < |log| {
        assert Keeps(all[|log|], t);
        assert OutstandingSince(log, t, token, i) by {
          forall k | i < k < |log| ensures Keeps(log[k], t) { assert all[k] == log[k]; }
        }
      }
    }
  }

  // ---- how many failures count ------------------------------------------------------------------------

  /** The event clears the failures of `t`: a good answer, a failed self-check, or that `t`
      is not a neighbour any more. */
  predicate Clears(e: Event, t: MemberId) {
    if e.Reply? then e.target == t && e.good else t !in e.targets || FailedCheck(e)
  }

  /** A failed answer of `t` that counts: processed in health, and nothing cleared it since. */
  ghost predicate Counts(log: seq<Event>, t: MemberId, k: nat)
    requires k < |log|
  {
    && FailedReply(log[k], t) && Recovered(log[..k])
    && forall m :: k < m < |log| ==> !Clears(log[m], t)
  }

  /** The failed answers of `t` that count, by their places in the log. */
  ghost function Counted(log: seq<Event>, t: MemberId): set<nat> {
    set k: nat | k < |log| && Counts(log, t, k)
  }

  lemma CountsAppend(log: seq<Event>, e: Event, t: MemberId, k: nat)
    requires k < |log|
    ensures Counts(log + [e], t, k) <==> Counts(log, t, k) && !Clears(e, t)
  {
    var all := log + [e];
    assert all[..k] == log[..k];
    assert all[|log|] == e;
    if Counts(all, t, k) {
      forall m | k < m < |log| ensures !Clears(log[m], t) { assert all[m] == log[m]; }
    }
  }

  lemma CountedAppend(log: seq<Event>, e: Event, t: MemberId)
    ensures Counted(log + [e], t) ==
      (if Clears(e, t) then {} else Counted(log, t)) + if FailedReply(e, t) && Recovered(log) then {|log|} else {}
  {
    var all := log + [e];
    assert all[..|log|] == log;
    forall k: nat ensures k in Counted(all, t) <==>
      (k < |log| && Counts(log, t, k) && !Clears(e, t)) || (k == |log| && FailedReply(e, t) && Recovered(log))
    {
      if k < |log| {
        CountsAppend(log, e, t, k);
      }
    }
  }

  lemma CountAppend(log: seq<Event>, e: Event, t: MemberId)
    ensures |Counted(log + [e], t)| ==
      (if Clears(e, t) then 0 else |Counted(log, t)|) + if FailedReply(e, t) && Recovered(log) then 1 else 0
  {
    CountedAppend(log, e, t);
    assert |log| !in Counted(log, t);
  }

  // ---- the tables are what the log says -----------------------------------------------------------------

  ghost predicate Exact(s: State) {
    && (s.health == Healthy <==> Recovered(s.log))
    && (forall t, token :: Current(s, t, token) <==> Outstanding(s.log, t, token))
    && (forall t :: Failures(s, t) == |Counted(s.log, t)|)
  }

  lemma HealthIsExact(s: State)
    requires Inv(s)
    ensures s.health == Healthy <==> Recovered(s.log)
  {
    RecoveredIffCounted(s.log);
  }

  lemma FreshIsExact()
    ensures Inv(Fresh()) && Exact(Fresh())
  {
    forall t ensures Failures(Fresh(), t) == |Counted([], t)| {
      assert Counted([], t) == {};
    }
  }

  /** After a tick or a poll a probe is awaited when it was before and its target is still a
      neighbour, or when it was launched just now. */
  lemma TickTasks(s: State, ok: bool, targets: seq<MemberId>, t: MemberId, token: nat)
    ensures var r := Ticked(s, ok, targets); var e := r.log[|s.log|];
      && r.log == s.log + [e] && e.Check? && e.ok == ok && e.targets == targets
      && (Current(r, t, token) <==> Launches(e, t, token) || (Current(s, t, token) && Keeps(e, t)))
  {
    LaunchKeepsOld(Reconciled(Checked(s, ok), targets), targets);
  }

  lemma TickFailures(s: State, ok: bool, targets: seq<MemberId>, t: MemberId)
    ensures var r := Ticked(s, ok, targets);
      Failures(r, t) == if Clears(r.log[|s.log|], t) then 0 else Failures(s, t)
  {
    LaunchKeepsOld(Reconciled(Checked(s, ok), targets), targets);
  }

  lemma TickIsExact(s: State, ok: bool, targets: seq<MemberId>)
    requires Inv(s) && Exact(s)
    ensures Exact(Ticked(s, ok, targets))
  {
    var r := Ticked(s, ok, targets);
    var e := r.log[|s.log|];
    TickKeepsInv(s, ok, targets);
    HealthIsExact(r);
    forall t, token ensures Current(r, t, token) <==> Outstanding(r.log, t, token) {
      TickTasks(s, ok, targets, t, token);
      OutstandingAppend(s.log, e, t, token);
    }
    forall t ensures Failures(r, t) == |Counted(r.log, t)| {
      TickFailures(s, ok, targets, t);
      CountAppend(s.log, e, t);
    }
  }

  lemma PollIsExact(s: State, targets: seq<MemberId>)
    requires Inv(s) && Exact(s)
    ensures Exact(Polled(s, targets))
  {
    var r := Polled(s, targets);
    PollKeepsInv(s, targets);
    HealthIsExact(r);
    forall t, token ensures Current(r, t, token) <==> Outstanding(r.log, t, token) {
      OutstandingAppend(s.log, Poll(targets), t, token);
    }
    forall t ensures Failures(r, t) == |Counted(r.log, t)| {
      CountAppend(s.log, Poll(targets), t);
    }
  }

  lemma HandledFailures(s: State, target: MemberId, token: nat, good: bool, t: MemberId)
    requires Inv(s) && Current(s, target, token)
    ensures Failures(Handled(s, target, token, good), t) ==
      if t != target then Failures(s, t) else if good || s.health == Unhealthy then 0 else Failures(s, t) + 1
  {
  }

  lemma HandledTasks(s: State, target: MemberId, token: nat, good: bool, t: MemberId, k: nat)
    requires Current(s, target, token)
    ensures var r := Handled(s, target, token, good);
      r.log == s.log + [Reply(target, token, good)] && (Current(r, t, k) <==> Current(s, t, k) && t != target)
  {
  }

  lemma HandleIsExact(s: State, target: MemberId, token: nat, good: bool)
    requires Inv(s) && Exact(s)
    ensures Exact(Handled(s, target, token, good))
  {
    if Current(s, target, token) {
      var r, e := Handled(s, target, token, good), Reply(target, token, good);
      HandleKeepsInv(s, target, token, good);
      HealthIsExact(r);
      forall t, k ensures Current(r, t, k) <==> Outstanding(r.log, t, k) {
        HandledTasks(s, target, token, good, t, k);
        OutstandingAppend(s.log, e, t, k);
      }
      forall t ensures Failures(r, t) == |Counted(r.log, t)| {
        HandledFailures(s, target, token, good, t);
        CountAppend(s.log, e, t);
      }
    }
  }

  lemma {:induction false} RunIsExact(s: State, inputs: seq<Input>)
    requires Inv(s) && Exact(s)
    ensures Inv(Run(s, inputs)) && Exact(Run(s, inputs))
    decreases |inputs|
  {
    if inputs != [] {
      match inputs[0] {
        case Tick(ok, targets) => TickKeepsInv(s, ok, targets); TickIsExact(s, ok, targets);
        case View(targets) => PollKeepsInv(s, targets); PollIsExact(s, targets);
        case Answer(target, token, good) => HandleKeepsInv(s, target, token, good); HandleIsExact(s, target, token, good);
      }
      RunIsExact(After(s, inputs[0]), inputs[1..]);
    }
  }

  // ---- what is logged, and what is decided ------------------------------------------------------------------

  /** What one input adds to the log: a tick and a view always an event with the neighbours
      given; an answer exactly if its probe is awaited. A tick launches probes of exactly the
      neighbours that have none. */
  lemma LogIs(inputs: seq<Input>, input: Input)
    ensures var s := Run(Fresh(), inputs); var r := After(s, input);
      match input
      case Tick(ok, targets) =>
        && |r.log| == |s.log| + 1 && r.log[..|s.log|] == s.log
        && var e := r.log[|s.log|];
           && e.Check? && e.ok == ok && e.targets == targets
           && forall t :: t in e.started <==> t in targets && forall token :: !Outstanding(s.log, t, token)
      case View(targets) => r.log == s.log + [Poll(targets)]
      case Answer(target, token, good) =>
        r.log == s.log + if Outstanding(s.log, target, token) then [Reply(target, token, good)] else []
  {
    FreshIsExact();
    RunIsExact(Fresh(), inputs);
    var s := Run(Fresh(), inputs);
    if input.Tick? {
      forall t ensures (forall token :: !Outstanding(s.log, t, token)) <==> t !in s.tasks {
        if t in s.tasks {
          assert Current(s, t, s.tasks[t]);
        }
      }
      LaunchKeepsOld(Reconciled(Checked(s, input.ok), input.targets), input.targets);
    }
  }

  /** After any inputs the detector casts a vote if and only if the answer is a failed one to
      the probe awaited, every failed self-check was followed by three good ones, and with
      this answer at least `limit` failed answers count; and it withdraws if and only if the
      answer is a good one to the probe awaited. */
  lemma DecisionIff(inputs: seq<Input>, target: MemberId, token: nat, good: bool, limit: nat)
    ensures var log, action := Run(Fresh(), inputs).log, Decision(Run(Fresh(), inputs), target, token, good, limit);
      && (action == Cast <==>
            !good && Outstanding(log, target, token) && Recovered(log) && |Counted(log, target)| + 1 >= limit)
      && (action == Withdraw <==> good && Outstanding(log, target, token))
  {
    FreshIsExact();
    RunIsExact(Fresh(), inputs);
    ExactDecision(Run(Fresh(), inputs), target, token, good, limit);
  }

  lemma ExactDecision(s: State, target: MemberId, token: nat, good: bool, limit: nat)
    requires Inv(s) && Exact(s)
    ensures var action := Decision(s, target, token, good, limit);
      && (action == Cast <==>
            !good && Outstanding(s.log, target, token) && Recovered(s.log) && |Counted(s.log, target)| + 1 >= limit)
      && (action == Withdraw <==> good && Outstanding(s.log, target, token))
  {
    assert Current(s, target, token) <==> Outstanding(s.log, target, token);
    assert Failures(s, target) == |Counted(s.log, target)|;
    if Current(s, target, token) {
      HandledFailures(s, target, token, good, target);
    }
  }
}
