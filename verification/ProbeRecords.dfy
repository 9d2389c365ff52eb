/** The detector's log tells what happened: its replies are the answers the process
    received to its current probes, a good self-check in it really was one, and no
    failed self-check is missing from it. */
module ProbeRecords {
  import opened Basics
  import opened Orders
  import opened Members
  import opened ProbeRing
  import D = Detector
  import opened Membership
  import opened MembershipLaws
  import opened Conduct
  import opened Provenance

  // ---- answers ---------------------------------------------------------------------------------------

  function RepliesIn(log: seq<D.Event>): seq<D.Event> {
    if log == [] then []
    else
      var last := log[|log| - 1];
      RepliesIn(log[..|log| - 1]) + if last.Reply? then [last] else []
  }

  /** The answer to a current probe that step `t` brings to `pid`, if it brings one. */
  ghost function HeardAt(ws: seq<World>, steps: seq<Step>, pid: nat, t: nat): seq<D.Event>
    requires t < |steps| && t < |ws|
  {
    if Acts(ws, steps, t, pid) && Hears(ws[t].nodes[pid], steps[t].input)
    then [D.Reply(steps[t].input.target, steps[t].input.token, steps[t].input.good)] else []
  }

  /** The answers `pid` received to probes that were current then, in order. */
  ghost function Heard(ws: seq<World>, steps: seq<Step>, pid: nat, t: nat): seq<D.Event>
    requires t <= |steps| < |ws|
  {
    if t == 0 then [] else Heard(ws, steps, pid, t - 1) + HeardAt(ws, steps, pid, t - 1)
  }

  lemma LoggedReplies(n: Node, input: Input, log: seq<D.Event>)
    requires LogMoved(n, input, log)
    ensures RepliesIn(log) == RepliesIn(n.detector.log)
      + if Hears(n, input) then [D.Reply(input.target, input.token, input.good)] else []
  {
    if log != n.detector.log {
      assert log[..|log| - 1] == n.detector.log;
    }
  }

  /** The replies in the log of `pid`, if it has been started. */
  ghost function Logged(ws: seq<World>, pid: nat, t: nat): seq<D.Event>
    requires t < |ws|
  {
    if pid in ws[t].nodes then RepliesIn(ws[t].nodes[pid].detector.log) else []
  }

  lemma HeardStep(h: Hash, ws: seq<World>, steps: seq<Step>, pid: nat, t: nat)
    requires Trace(h, ws, steps) && t < |steps|
    ensures Logged(ws, pid, t + 1) == Logged(ws, pid, t) + HeardAt(ws, steps, pid, t)
  {
    if steps[t].Act? && steps[t].pid == pid {
      var e := ActAt(h, ws, steps, t);
      LoggedReplies(ws[t].nodes[pid], steps[t].input, e.node.detector.log);
    } else {
      OtherStep(h, ws, steps, t, pid);
    }
  }

  lemma NothingLogged(h: Hash, ws: seq<World>, steps: seq<Step>, pid: nat)
    requires Trace(h, ws, steps)
    ensures Logged(ws, pid, 0) == []
  {
  }

  /** `logged` starts empty and grows by what is heard at each step. */
  ghost predicate GrowsAsHeard(ws: seq<World>, steps: seq<Step>, pid: nat, logged: nat -> seq<D.Event>, t: nat) {
    && t <= |steps| < |ws| && logged(0) == []
    && forall s: nat :: s < t ==> GainsHeard(ws, steps, pid, logged, s)
  }

  ghost predicate GainsHeard(ws: seq<World>, steps: seq<Step>, pid: nat, logged: nat -> seq<D.Event>, s: nat)
    requires s < |steps| < |ws|
  {
    logged(s + 1) == logged(s) + HeardAt(ws, steps, pid, s)
  }

  lemma {:induction false} HeardSums(ws: seq<World>, steps: seq<Step>, pid: nat, logged: nat -> seq<D.Event>, t: nat)
    requires GrowsAsHeard(ws, steps, pid, logged, t)
    ensures logged(t) == Heard(ws, steps, pid, t)
  {
    if t > 0 {
      HeardSums(ws, steps, pid, logged, t - 1);
      assert GainsHeard(ws, steps, pid, logged, t - 1);
    }
  }

  /** The replies in a detector's log are exactly the answers its process received. */
  lemma RepliesAreHeard(h: Hash, ws: seq<World>, steps: seq<Step>, pid: nat, t: nat)
    requires Trace(h, ws, steps) && t < |ws|
    ensures Logged(ws, pid, t) == Heard(ws, steps, pid, t)
  {
    NothingLogged(h, ws, steps, pid);
    var logged := (s: nat) => if s < |ws| then Logged(ws, pid, s) else [];
    forall s: nat | s < t ensures GainsHeard(ws, steps, pid, logged, s) {
      HeardStep(h, ws, steps, pid, s);
    }
    HeardSums(ws, steps, pid, logged, t);
  }

  /** Each reply in the log was received at a step of its own. */
  lemma {:induction false} ReplyWasReceived(h: Hash, ws: seq<World>, steps: seq<Step>, t: nat, pid: nat, k: nat)
    returns (s: nat)
    requires Trace(h, ws, steps) && t < |ws| && pid in ws[t].nodes
    requires k < |ws[t].nodes[pid].detector.log| && ws[t].nodes[pid].detector.log[k].Reply?
    ensures var e := ws[t].nodes[pid].detector.log[k];
      s < t && AnswerAt(ws, steps, s, pid, e.target, e.good) && steps[s].input.token == e.token
    ensures |ws[s].nodes[pid].detector.log| == k
  {
    if steps[t - 1].Act? && steps[t - 1].pid == pid {
      var e := ActAt(h, ws, steps, t - 1);
      var log := ws[t - 1].nodes[pid].detector.log;
      if k == |log| {
        s := t - 1;
        return;
      }
      assert e.node.detector.log[k] == log[k];
    } else {
      OtherStep(h, ws, steps, t - 1, pid);
    }
    s := ReplyWasReceived(h, ws, steps, t - 1, pid, k);
  }

  /** The steps at which the failed replies at positions `at` of the log were received. */
  ghost predicate ReceivedAt(ws: seq<World>, steps: seq<Step>, t: nat, pid: nat, target: MemberId, at: seq<nat>, ss: seq<nat>) {
    && |ss| == |at|
    && forall j :: 0 <= j < |at| ==>
      ss[j] < t && AnswerAt(ws, steps, ss[j], pid, target, false) && |ws[ss[j]].nodes[pid].detector.log| == at[j]
  }

  lemma {:induction false} StreakWasReceived(
    h: Hash, ws: seq<World>, steps: seq<Step>, t: nat, pid: nat, target: MemberId, at: seq<nat>) returns (ss: seq<nat>)
    requires Trace(h, ws, steps) && t < |ws| && pid in ws[t].nodes
    requires forall j :: 0 <= j < |at| ==>
      at[j] < |ws[t].nodes[pid].detector.log| && D.FailedReply(ws[t].nodes[pid].detector.log[at[j]], target)
    ensures ReceivedAt(ws, steps, t, pid, target, at, ss)
  {
    if at == [] {
      ss := [];
    } else {
      var n := |at| - 1;
      var before := StreakWasReceived(h, ws, steps, t, pid, target, at[..n]);
      var s := ReplyWasReceived(h, ws, steps, t, pid, at[n]);
      ss := before + [s];
    }
  }

  /** Evidence in a detector's log is as many failed answers, received at as many different
      steps, as the limit asks for. */
  lemma EvidenceWasReceived(h: Hash, ws: seq<World>, steps: seq<Step>, t: nat, pid: nat, target: MemberId, limit: nat)
    returns (ss: seq<nat>)
    requires Trace(h, ws, steps) && t < |ws| && pid in ws[t].nodes
    requires D.Backed(ws[t].nodes[pid].detector.log, target, limit)
    ensures |ss| >= limit && Distinct(ss)
    ensures forall j :: 0 <= j < |ss| ==> ss[j] < t && AnswerAt(ws, steps, ss[j], pid, target, false)
  {
    var log := ws[t].nodes[pid].detector.log;
    var at: seq<nat> :| |at| >= limit && D.Streak(log, target, at);
    ss := StreakWasReceived(h, ws, steps, t, pid, target, at);
    forall i, j | 0 <= i < j < |ss| ensures ss[i] != ss[j] {
      assert at[i] < at[j];
    }
  }

  // ---- the schedule of the ticks -----------------------------------------------------------------------------

  /** At step `r` process `pid` takes a probe tick. */
  ghost predicate TickedAt(ws: seq<World>, steps: seq<Step>, r: nat, pid: nat) {
    Acts(ws, steps, r, pid) && ws[r].nodes[pid].phase == Running && steps[r].input.ProbeTick?
  }

  /** `q` is the latest probe tick of `pid` before step `t`. */
  ghost predicate LatestTick(ws: seq<World>, steps: seq<Step>, q: nat, t: nat, pid: nat) {
    q < t && TickedAt(ws, steps, q, pid) && forall u :: q < u < t ==> !TickedAt(ws, steps, u, pid)
  }

  ghost predicate NoTickBefore(ws: seq<World>, steps: seq<Step>, t: nat, pid: nat) {
    forall u :: 0 <= u < t ==> !TickedAt(ws, steps, u, pid)
  }

  /** The tick at step `r` comes after the one before it and within the gap of the process;
      the first tick, and one that follows a tick at the zero time, always do. */
  ghost predicate InTime(ws: seq<World>, steps: seq<Step>, r: nat, pid: nat)
    requires TickedAt(ws, steps, r, pid)
  {
    forall q: nat :: LatestTick(ws, steps, q, r, pid) ==>
      || steps[q].input.at == ZERO_TIME
      || steps[q].input.at < steps[r].input.at <= steps[q].input.at + ws[r].nodes[pid].gap
  }

  /** What a process remembers is the time of its latest tick. */
  ghost predicate Remembers(ws: seq<World>, steps: seq<Step>, t: nat, pid: nat, last: Time) {
    || (NoTickBefore(ws, steps, t, pid) && last == ZERO_TIME)
    || exists q: nat :: LatestTick(ws, steps, q, t, pid) && steps[q].input.at == last
  }

  lemma TickRemembered(ws: seq<World>, steps: seq<Step>, t: nat, pid: nat)
    requires TickedAt(ws, steps, t, pid)
    ensures Remembers(ws, steps, t + 1, pid, steps[t].input.at)
  {
    assert LatestTick(ws, steps, t, t + 1, pid);
  }

  lemma StillRemembered(ws: seq<World>, steps: seq<Step>, t: nat, pid: nat, last: Time)
    requires Remembers(ws, steps, t, pid, last) && !TickedAt(ws, steps, t, pid)
    ensures Remembers(ws, steps, t + 1, pid, last)
  {
    if !NoTickBefore(ws, steps, t, pid) || last != ZERO_TIME {
      var q: nat :| LatestTick(ws, steps, q, t, pid) && steps[q].input.at == last;
      assert LatestTick(ws, steps, q, t + 1, pid);
    }
  }

  lemma {:induction false} NoTickYet(h: Hash, ws: seq<World>, steps: seq<Step>, t: nat, pid: nat)
    requires Trace(h, ws, steps) && t < |ws| && pid !in ws[t].nodes
    ensures NoTickBefore(ws, steps, t, pid)
  {
    if t > 0 {
      if steps[t - 1].Act? && steps[t - 1].pid == pid {
        var e := ActAt(h, ws, steps, t - 1);
      } else {
        OtherStep(h, ws, steps, t - 1, pid);
      }
      NoTickYet(h, ws, steps, t - 1, pid);
    }
  }

  lemma {:induction false} LastProbeIsLatest(h: Hash, ws: seq<World>, steps: seq<Step>, t: nat, pid: nat)
    requires Trace(h, ws, steps) && t < |ws| && pid in ws[t].nodes
    ensures Remembers(ws, steps, t, pid, ws[t].nodes[pid].lastProbe)
  {
    var s := t - 1;
    if steps[s].Act? && steps[s].pid == pid {
      var e := ActAt(h, ws, steps, s);
      LastProbeIsLatest(h, ws, steps, s, pid);
      if TickedAt(ws, steps, s, pid) {
        TickRemembered(ws, steps, s, pid);
      } else {
        StillRemembered(ws, steps, s, pid, ws[s].nodes[pid].lastProbe);
      }
    } else {
      OtherStep(h, ws, steps, s, pid);
      if pid in ws[s].nodes {
        LastProbeIsLatest(h, ws, steps, s, pid);
        StillRemembered(ws, steps, s, pid, ws[s].nodes[pid].lastProbe);
      } else {
        NoTickYet(h, ws, steps, s, pid);
      }
    }
  }

  lemma OneLatestTick(ws: seq<World>, steps: seq<Step>, p: nat, q: nat, t: nat, pid: nat)
    requires LatestTick(ws, steps, p, t, pid) && LatestTick(ws, steps, q, t, pid)
    ensures p == q
  {
  }

  /** The node's own test of the interval decides, over the run, whether the tick came in time. */
  lemma ScheduleIsKeptIff(h: Hash, ws: seq<World>, steps: seq<Step>, r: nat, pid: nat)
    requires Trace(h, ws, steps) && TickedAt(ws, steps, r, pid)
    ensures OnSchedule(ws[r].nodes[pid], steps[r].input.at) <==> InTime(ws, steps, r, pid)
  {
    var n := ws[r].nodes[pid];
    LastProbeIsLatest(h, ws, steps, r, pid);
    if !(NoTickBefore(ws, steps, r, pid) && n.lastProbe == ZERO_TIME) {
      var p: nat :| LatestTick(ws, steps, p, r, pid) && steps[p].input.at == n.lastProbe;
      forall q: nat | LatestTick(ws, steps, q, r, pid) ensures q == p {
        OneLatestTick(ws, steps, p, q, r, pid);
      }
    }
  }

  // ---- good self-checks ----------------------------------------------------------------------------------

  predicate Checking(phase: Phase) {
    phase.AwaitCheck? || phase.RelistCheck?
  }

  /** Nothing went wrong with the self-check so far. */
  predicate OnCourse(phase: Phase) {
    Checking(phase) && phase.ok
  }

  /** Step `r` begins a self-check within the gap, with a listing that came in time. */
  ghost predicate TicksAt(ws: seq<World>, steps: seq<Step>, r: nat, pid: nat) {
    TickedAt(ws, steps, r, pid) && InTime(ws, steps, r, pid) && steps[r].input.listing.Fast?
  }

  /** From step `r` on the process has been busy with one self-check; a write of it that was
      refused was refused in time. */
  ghost predicate OneCheck(ws: seq<World>, steps: seq<Step>, r: nat, t: nat, pid: nat) {
    && t < |ws| && t <= |steps|
    && (forall u :: r < u <= t ==> pid in ws[u].nodes && Checking(ws[u].nodes[pid].phase))
    && (forall u :: r < u < t && ws[u].nodes[pid].phase.AwaitCheck? && ws[u + 1].nodes[pid].phase.RelistCheck? ==>
          steps[u] == Act(pid, Answer(Reply.Conflict, false)))
  }

  /** A self-check that is on course began in this step, or was on course before it. */
  lemma CourseStep(h: Hash, ws: seq<World>, steps: seq<Step>, t: nat, pid: nat)
    requires Trace(h, ws, steps) && t < |steps| && pid in ws[t + 1].nodes && OnCourse(ws[t + 1].nodes[pid].phase)
    ensures pid in ws[t].nodes
    ensures var n, phase := ws[t].nodes[pid], ws[t + 1].nodes[pid].phase;
      || (TickedAt(ws, steps, t, pid) && OnSchedule(n, steps[t].input.at) && steps[t].input.listing.Fast?)
      || (OnCourse(n.phase)
          && (n.phase.AwaitCheck? && phase.RelistCheck? ==> steps[t] == Act(pid, Answer(Reply.Conflict, false))))
  {
    if steps[t].Act? && steps[t].pid == pid {
      var e := ActAt(h, ws, steps, t);
    } else {
      OtherStep(h, ws, steps, t, pid);
    }
  }

  lemma {:induction false} CourseBegan(h: Hash, ws: seq<World>, steps: seq<Step>, t: nat, pid: nat) returns (r: nat)
    requires Trace(h, ws, steps) && t < |ws| && pid in ws[t].nodes && OnCourse(ws[t].nodes[pid].phase)
    ensures r < t && TicksAt(ws, steps, r, pid) && OneCheck(ws, steps, r, t, pid)
  {
    CourseStep(h, ws, steps, t - 1, pid);
    if !OnCourse(ws[t - 1].nodes[pid].phase) {
      r := t - 1;
      ScheduleIsKeptIff(h, ws, steps, r, pid);
    } else {
      r := CourseBegan(h, ws, steps, t - 1, pid);
    }
  }

  /** A good self-check in the log was one: a tick within the gap with a listing in time, then
      its write confirmed in time, or refused in time and followed by a listing in time,
      and nothing else in between. */
  lemma {:induction false} GoodCheckIsReal(h: Hash, ws: seq<World>, steps: seq<Step>, t: nat, pid: nat, k: nat)
    returns (r: nat, s: nat)
    requires Trace(h, ws, steps) && t < |ws| && pid in ws[t].nodes
    requires var log := ws[t].nodes[pid].detector.log; k < |log| && log[k].Check? && log[k].ok
    ensures r < s < t && TicksAt(ws, steps, r, pid) && OneCheck(ws, steps, r, s, pid)
    ensures Acts(ws, steps, s, pid) && |ws[s].nodes[pid].detector.log| == k
    ensures var phase, input := ws[s].nodes[pid].phase, steps[s].input;
      || (phase.AwaitCheck? && input == Answer(Ok, false))
      || (phase.RelistCheck? && input.Relist? && input.listing.Fast?)
  {
    if steps[t - 1].Act? && steps[t - 1].pid == pid {
      var e := ActAt(h, ws, steps, t - 1);
      var log := ws[t - 1].nodes[pid].detector.log;
      if k == |log| {
        s := t - 1;
        r := CourseBegan(h, ws, steps, s, pid);
        return;
      }
      assert e.node.detector.log[k] == log[k];
    } else {
      OtherStep(h, ws, steps, t - 1, pid);
    }
    r, s := GoodCheckIsReal(h, ws, steps, t - 1, pid, k);
  }

  // ---- no failed self-check is missing ------------------------------------------------------------------

  /** The event spoils a self-check: off schedule, no listing in time, an error, or a late answer. */
  predicate Spoils(n: Node, input: Input) {
    || (n.phase == Running && input.ProbeTick? && !(OnSchedule(n, input.at) && input.listing.Fast?))
    || (n.phase.AwaitCheck? && input.Answer? && (input.reply == Error || input.late))
    || (n.phase.RelistCheck? && input.Relist? && !input.listing.Fast?)
  }

  /** Step `r` spoils a self-check of `pid`: a tick outside the gap, no listing in time, an
      error, or a late answer. */
  ghost predicate SpoiledAt(ws: seq<World>, steps: seq<Step>, r: nat, pid: nat)
    requires Acts(ws, steps, r, pid)
  {
    var phase, input := ws[r].nodes[pid].phase, steps[r].input;
    || (TickedAt(ws, steps, r, pid) && !(InTime(ws, steps, r, pid) && input.listing.Fast?))
    || (phase.AwaitCheck? && input.Answer? && (input.reply == Error || input.late))
    || (phase.RelistCheck? && input.Relist? && !input.listing.Fast?)
  }

  lemma SpoiledAtSpoils(h: Hash, ws: seq<World>, steps: seq<Step>, r: nat, pid: nat)
    requires Trace(h, ws, steps) && Acts(ws, steps, r, pid) && SpoiledAt(ws, steps, r, pid)
    ensures Spoils(ws[r].nodes[pid], steps[r].input)
  {
    if TickedAt(ws, steps, r, pid) {
      ScheduleIsKeptIff(h, ws, steps, r, pid);
    }
  }

  ghost predicate LogsFailure(log: seq<D.Event>, k: nat) {
    exists j :: k <= j < |log| && D.FailedCheck(log[j])
  }

  /** A spoiled self-check is over only when it is in the log, or the node is gone. */
  ghost predicate Owns(n: Node, k: nat) {
    && k <= |n.detector.log|
    && ((Checking(n.phase) && !n.phase.ok) || n.phase.Stopped? || LogsFailure(n.detector.log, k))
  }

  lemma SpoiledIsOwned(h: Hash, n: Node, pid: nat, w: nat, input: Input, e: Effect)
    requires Conducts(h, n, pid, w, input, e) && Spoils(n, input)
    ensures Owns(e.node, |n.detector.log|)
  {
    var k := |n.detector.log|;
    if LogsEnd(n, input, e.node) {
      assert D.FailedCheck(e.node.detector.log[k]);
    }
  }

  lemma OwnedStays(h: Hash, n: Node, pid: nat, w: nat, input: Input, e: Effect, k: nat)
    requires Conducts(h, n, pid, w, input, e) && Owns(n, k)
    ensures Owns(e.node, k)
  {
    if LogsFailure(n.detector.log, k) {
      var j :| k <= j < |n.detector.log| && D.FailedCheck(n.detector.log[j]);
      assert e.node.detector.log[..|n.detector.log|] == n.detector.log;
      assert e.node.detector.log[j] == n.detector.log[j];
    } else if Checking(n.phase) && LogsEnd(n, input, e.node) {
      assert D.FailedCheck(e.node.detector.log[|n.detector.log|]);
    }
  }

  lemma {:induction false} FailureIsOwned(h: Hash, ws: seq<World>, steps: seq<Step>, r: nat, t: nat, pid: nat)
    requires Trace(h, ws, steps) && r < t < |ws| && Acts(ws, steps, r, pid)
    requires Spoils(ws[r].nodes[pid], steps[r].input)
    ensures pid in ws[t].nodes && Owns(ws[t].nodes[pid], |ws[r].nodes[pid].detector.log|)
    decreases t
  {
    var k := |ws[r].nodes[pid].detector.log|;
    if r == t - 1 {
      var e := ActAt(h, ws, steps, r);
      SpoiledIsOwned(h, ws[r].nodes[pid], pid, |ws[r].writes|, steps[r].input, e);
    } else {
      FailureIsOwned(h, ws, steps, r, t - 1, pid);
      if steps[t - 1].Act? && steps[t - 1].pid == pid {
        var e := ActAt(h, ws, steps, t - 1);
        OwnedStays(h, ws[t - 1].nodes[pid], pid, |ws[t - 1].writes|, steps[t - 1].input, e, k);
      } else {
        OtherStep(h, ws, steps, t - 1, pid);
      }
    }
  }

  /** Whenever a self-check fails, at its tick, at its answer or at its second listing, a
      failed self-check is in the log before the node, unless it stops, does anything else. */
  lemma BadCheckIsRecorded(h: Hash, ws: seq<World>, steps: seq<Step>, r: nat, t: nat, pid: nat)
    requires Trace(h, ws, steps) && r < t < |ws| && Acts(ws, steps, r, pid)
    requires SpoiledAt(ws, steps, r, pid)
    ensures pid in ws[t].nodes
    ensures !Checking(ws[t].nodes[pid].phase) && !ws[t].nodes[pid].phase.Stopped? ==>
      LogsFailure(ws[t].nodes[pid].detector.log, |ws[r].nodes[pid].detector.log|)
  {
    SpoiledAtSpoils(h, ws, steps, r, pid);
    FailureIsOwned(h, ws, steps, r, t, pid);
  }
}
