/** Where things in a run come from: every version of a row was written by a step of its
    author, and every write of a vote follows an answer to a probe. */
module Provenance {
  import opened Basics
  import opened Members
  import opened ProbeRing
  import D = Detector
  import opened Membership
  import opened MembershipLaws
  import opened Conduct

  // ---- steps of one process ------------------------------------------------------------------

  lemma StepAt(h: Hash, ws: seq<World>, steps: seq<Step>, t: nat)
    requires Trace(h, ws, steps) && t < |steps|
    ensures Enabled(ws[t], steps[t]) && ws[t + 1] == Next(h, ws[t], steps[t])
  {
    assert Stepped(h, ws, steps, t);
  }

  /** At step `t` process `pid` receives an event. */
  ghost predicate Acts(ws: seq<World>, steps: seq<Step>, t: nat, pid: nat) {
    t < |steps| && t + 1 < |ws| && steps[t].Act? && steps[t].pid == pid && pid in ws[t].nodes
  }

  /** What the event makes of the world. */
  lemma ActAt(h: Hash, ws: seq<World>, steps: seq<Step>, t: nat) returns (e: Effect)
    requires Trace(h, ws, steps) && t < |steps| && steps[t].Act?
    ensures var pid := steps[t].pid;
      && Acts(ws, steps, t, pid) && ws[t + 1] == Moved(ws[t], pid, e)
      && Conducts(h, ws[t].nodes[pid], pid, |ws[t].writes|, steps[t].input, e)
      && Truthful(ws[t], ws[t].nodes[pid], steps[t].input)
  {
    StepAt(h, ws, steps, t);
    var pid := steps[t].pid;
    e := React(h, ws[t].nodes[pid], pid, |ws[t].writes|, steps[t].input);
    ReactConducts(h, ws[t].nodes[pid], pid, |ws[t].writes|, steps[t].input);
  }

  /** A step that is no event of `pid` leaves its node alone, or starts it. */
  lemma OtherStep(h: Hash, ws: seq<World>, steps: seq<Step>, t: nat, pid: nat)
    requires Trace(h, ws, steps) && t < |steps| && !(steps[t].Act? && steps[t].pid == pid)
    ensures pid in ws[t].nodes ==> pid in ws[t + 1].nodes && ws[t + 1].nodes[pid] == ws[t].nodes[pid]
    ensures pid in ws[t + 1].nodes && pid !in ws[t].nodes ==>
      steps[t].Start? && steps[t].pid == pid
      && ws[t + 1].nodes[pid] == Newcomer(ws[t], steps[t].id, steps[t].ttl, steps[t].limit, steps[t].gap, steps[t].clock)
  {
    StepAt(h, ws, steps, t);
  }

  // ---- configuration ----------------------------------------------------------------------------

  /** The identity and the settings of a process are those it was started with. */
  lemma {:induction false} ConfiguredOnce(h: Hash, ws: seq<World>, steps: seq<Step>, t: nat, pid: nat) returns (s: nat)
    requires Trace(h, ws, steps) && t < |ws| && pid in ws[t].nodes
    ensures s < t && steps[s].Start? && steps[s].pid == pid
    ensures var n := ws[t].nodes[pid];
      steps[s].id == n.id && steps[s].ttl == n.ttl && steps[s].limit == n.limit && steps[s].gap == n.gap
  {
    if steps[t - 1].Act? && steps[t - 1].pid == pid {
      var e := ActAt(h, ws, steps, t - 1);
      s := ConfiguredOnce(h, ws, steps, t - 1, pid);
    } else {
      OtherStep(h, ws, steps, t - 1, pid);
      if pid in ws[t - 1].nodes {
        s := ConfiguredOnce(h, ws, steps, t - 1, pid);
      } else {
        s := t - 1;
      }
    }
  }

  // ---- writes ---------------------------------------------------------------------------------------

  /** Every write was put in flight by exactly one step. */
  lemma {:induction false} WriteWasIssued(h: Hash, ws: seq<World>, steps: seq<Step>, i: nat, j: nat) returns (t: nat)
    requires Trace(h, ws, steps) && i < |ws| && j < |ws[i].writes|
    ensures t < i && |ws[t].writes| == j && (steps[t].Act? || ws[i].writes[j].cause == Creating)
    ensures ws[t + 1].writes == ws[t].writes + [ws[i].writes[j].(outcome := InFlight)]
  {
    if j < |ws[i - 1].writes| {
      t := WriteWasIssued(h, ws, steps, i - 1, j);
      TraceStepGrows(h, ws, steps, i - 1);
    } else {
      t := i - 1;
      StepAt(h, ws, steps, t);
      if steps[t].Act? {
        var e := ActAt(h, ws, steps, t);
      }
    }
  }

  /** Every version of a row came from a write. */
  lemma {:induction false} CommitWasWritten(h: Hash, ws: seq<World>, steps: seq<Step>, i: nat, id: MemberId, k: nat)
    returns (j: nat)
    requires Trace(h, ws, steps) && i < |ws| && id in ws[i].history && k < |ws[i].history[id]|
    ensures j < |ws[i].writes|
    ensures var wr := ws[i].writes[j]; ws[i].history[id][k] == Commit(wr.pid, wr.author, Stamped(wr.row), wr.cause)
  {
    TraceStepGrows(h, ws, steps, i - 1);
    if id in ws[i - 1].history && k < |ws[i - 1].history[id]| {
      j := CommitWasWritten(h, ws, steps, i - 1, id, k);
      assert ws[i].writes[j].(outcome := InFlight) == ws[i - 1].writes[j].(outcome := InFlight);
    } else {
      StepAt(h, ws, steps, i - 1);
      j := steps[i - 1].w;
    }
  }

  /** The write that committed as `c`, as it was put in flight. */
  function WriteOf(c: Commit): Write
    requires c.row.etag > 0
  {
    Write(c.pid, c.author, c.row.(etag := c.row.etag - 1), c.cause, InFlight)
  }

  /** Step `t` is the event in which the process that wrote `c`, acting for its own member, wrote it. */
  ghost predicate WroteAt(ws: seq<World>, steps: seq<Step>, t: nat, c: Commit) {
    && Acts(ws, steps, t, c.pid) && ws[t].nodes[c.pid].id == c.author && c.row.etag > 0
    && ws[t + 1].writes == ws[t].writes + [WriteOf(c)]
  }

  /** Every version of a row but the first was written by an event of its author that warranted it. */
  lemma CommitWasIssued(h: Hash, ws: seq<World>, steps: seq<Step>, i: nat, id: MemberId, k: nat) returns (t: nat)
    requires Trace(h, ws, steps) && i < |ws| && id in ws[i].history && 0 < k < |ws[i].history[id]|
    ensures t < i && WroteAt(ws, steps, t, ws[i].history[id][k])
    ensures var c := ws[i].history[id][k]; Warranted(h, ws[t].nodes[c.pid], steps[t].input, WriteOf(c))
    ensures Truthful(ws[t], ws[t].nodes[ws[i].history[id][k].pid], steps[t].input)
  {
    var c := ws[i].history[id][k];
    VersionNumber(h, ws, steps, i, id, k);
    var j := CommitWasWritten(h, ws, steps, i, id, k);
    t := WriteWasIssued(h, ws, steps, i, j);
    assert ws[i].writes[j].(outcome := InFlight) == WriteOf(c);
    var e := ActAt(h, ws, steps, t);
    assert ws[t + 1].writes[|ws[t].writes|] == WriteOf(c);
  }

  lemma VersionNumber(h: Hash, ws: seq<World>, steps: seq<Step>, i: nat, id: MemberId, k: nat)
    requires Trace(h, ws, steps) && i < |ws| && id in ws[i].history && k < |ws[i].history[id]|
    ensures ws[i].history[id][k].row.id == id && ws[i].history[id][k].row.etag == k + 1
    ensures k > 0 ==> ws[i].history[id][k].cause != Creating
  {
    TraceInv(h, ws, steps, i);
    if k > 0 {
      assert Link(h, ws[i].history[id], k);
    }
  }

  // ---- pursuits: from a probe answer to the vote -----------------------------------------------------

  /** Step `s` brings `pid` an answer to its current probe of `target`. */
  ghost predicate AnswerAt(ws: seq<World>, steps: seq<Step>, s: nat, pid: nat, target: MemberId, good: bool) {
    && Acts(ws, steps, s, pid) && Hears(ws[s].nodes[pid], steps[s].input)
    && steps[s].input.target == target && steps[s].input.good == good
  }

  ghost predicate PursuesUntil(ws: seq<World>, s: nat, t: nat, pid: nat, target: MemberId, renew: bool) {
    t < |ws| && forall u :: s < u <= t ==> pid in ws[u].nodes && Pursues(ws[u].nodes[pid].phase, target, renew)
  }

  /** Whoever casts or withdraws a vote was brought to it by an answer to a current probe. */
  lemma PursuitStep(h: Hash, ws: seq<World>, steps: seq<Step>, t: nat, pid: nat, target: MemberId, renew: bool)
    requires Trace(h, ws, steps) && t < |steps| && pid in ws[t + 1].nodes && Pursues(ws[t + 1].nodes[pid].phase, target, renew)
    ensures pid in ws[t].nodes
    ensures Pursues(ws[t].nodes[pid].phase, target, renew) || AnswerAt(ws, steps, t, pid, target, !renew)
  {
    if steps[t].Act? && steps[t].pid == pid {
      var e := ActAt(h, ws, steps, t);
    } else {
      OtherStep(h, ws, steps, t, pid);
    }
  }

  lemma {:induction false} PursuitBegan(
    h: Hash, ws: seq<World>, steps: seq<Step>, t: nat, pid: nat, target: MemberId, renew: bool) returns (s: nat)
    requires Trace(h, ws, steps) && t < |ws| && pid in ws[t].nodes && Pursues(ws[t].nodes[pid].phase, target, renew)
    ensures s < t && AnswerAt(ws, steps, s, pid, target, !renew) && PursuesUntil(ws, s, t, pid, target, renew)
  {
    PursuitStep(h, ws, steps, t - 1, pid, target, renew);
    if Pursues(ws[t - 1].nodes[pid].phase, target, renew) {
      s := PursuitBegan(h, ws, steps, t - 1, pid, target, renew);
    } else {
      s := t - 1;
    }
  }

  /** A withdrawal goes on until the node is back in its loop. */
  lemma {:induction false} WithdrawalGoesOn(
    h: Hash, ws: seq<World>, steps: seq<Step>, s: nat, t: nat, pid: nat, target: MemberId)
    requires Trace(h, ws, steps) && AnswerAt(ws, steps, s, pid, target, true) && s < t < |ws|
    requires forall u :: s < u <= t && pid in ws[u].nodes ==> ws[u].nodes[pid].phase != Running
    ensures pid in ws[t].nodes && Pursues(ws[t].nodes[pid].phase, target, false)
    decreases t
  {
    if s < t - 1 {
      WithdrawalGoesOn(h, ws, steps, s, t - 1, pid, target);
    }
    if steps[t - 1].Act? && steps[t - 1].pid == pid {
      var e := ActAt(h, ws, steps, t - 1);
    } else {
      OtherStep(h, ws, steps, t - 1, pid);
    }
  }

  // ---- the listing behind a vote in flight --------------------------------------------------------------

  /** At step `t` process `pid`, suspecting `target`, lists the table as `s`. */
  ghost predicate ListsAt(ws: seq<World>, steps: seq<Step>, t: nat, pid: nat, target: MemberId, renew: bool, s: Snapshot) {
    && Acts(ws, steps, t, pid) && ws[t].nodes[pid].phase == Suspecting(target, renew)
    && steps[t].input.Relist? && Shot(steps[t].input.listing) == Some(s) && Lists(ws[t].table, s.members)
  }

  /** Who waits for the answer to a vote waited before, or wrote it in this very step. */
  lemma AwaitedStep(h: Hash, ws: seq<World>, steps: seq<Step>, t: nat, pid: nat)
    requires Trace(h, ws, steps) && t < |steps| && pid in ws[t + 1].nodes && ws[t + 1].nodes[pid].phase.AwaitVote?
    ensures pid in ws[t].nodes && SameConfig(ws[t].nodes[pid], ws[t + 1].nodes[pid])
    ensures var n := ws[t + 1].nodes[pid]; var p := n.phase;
      || ws[t].nodes[pid].phase == p
      || (ListsAt(ws, steps, t, pid, p.row.id, p.renew, p.snapshot) && p.w == |ws[t].writes|
          && ws[t + 1].writes == ws[t].writes + [Write(pid, n.id, p.row, Voting(p.renew, p.snapshot, n.ttl), InFlight)])
  {
    if steps[t].Act? && steps[t].pid == pid {
      var e := ActAt(h, ws, steps, t);
    } else {
      OtherStep(h, ws, steps, t, pid);
    }
  }

  /** Who waits for the answer to a vote wrote it on a listing of the table. */
  lemma {:induction false} AwaitedVote(h: Hash, ws: seq<World>, steps: seq<Step>, t: nat, pid: nat) returns (r: nat)
    requires Trace(h, ws, steps) && t < |ws| && pid in ws[t].nodes && ws[t].nodes[pid].phase.AwaitVote?
    ensures r < t
    ensures var n := ws[t].nodes[pid]; var p := n.phase;
      && ListsAt(ws, steps, r, pid, p.row.id, p.renew, p.snapshot)
      && p.w == |ws[r].writes| < |ws[t].writes|
      && ws[t].writes[p.w].(outcome := InFlight) == Write(pid, n.id, p.row, Voting(p.renew, p.snapshot, n.ttl), InFlight)
  {
    AwaitedStep(h, ws, steps, t - 1, pid);
    if ws[t - 1].nodes[pid].phase == ws[t].nodes[pid].phase {
      TraceStepGrows(h, ws, steps, t - 1);
      r := AwaitedVote(h, ws, steps, t - 1, pid);
    } else {
      r := t - 1;
    }
  }
}
