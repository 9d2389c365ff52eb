/** What becomes of votes on members that are no longer neighbours: nothing. A change of
    the ring drops probes and counts but writes no vote; only a good answer withdraws one. */
module FormerNeighbours {
  import opened Basics
  import opened Members
  import opened ProbeRing
  import V = Votes
  import D = Detector
  import opened Membership
  import opened MembershipLaws
  import opened Conduct
  import opened Provenance

  // ---- who writes a withdrawal ----------------------------------------------------------------

  /** Step `t` puts a write in flight that takes back a vote on `target`. */
  ghost predicate WithdrawsAt(ws: seq<World>, t: nat, target: MemberId) {
    && t + 1 < |ws| && |ws[t + 1].writes| == |ws[t].writes| + 1
    && var wr := ws[t + 1].writes[|ws[t].writes|];
       wr.cause.Voting? && !wr.cause.renew && wr.row.id == target
  }

  /** The event is a listing that shows `target` active, with votes that a withdrawal would change. */
  ghost predicate ListsVotes(n: Node, input: Input, target: MemberId) {
    input.Relist? && Shot(input.listing).Some? && ShowsVotes(n, Shot(input.listing).value, target, false)
  }

  /** A good answer to a current probe of `target` was processed, and the process has been
      busy with it since, now waiting for a listing. */
  ghost predicate Withdrawing(ws: seq<World>, steps: seq<Step>, t: nat, pid: nat, target: MemberId) {
    && t < |ws| && pid in ws[t].nodes && ws[t].nodes[pid].phase.Suspecting?
    && exists s: nat :: s < t && AnswerAt(ws, steps, s, pid, target, true) && Busy(ws, s, t, pid)
  }

  ghost predicate Busy(ws: seq<World>, s: nat, t: nat, pid: nat) {
    t < |ws| && forall u :: s < u <= t && pid in ws[u].nodes ==> ws[u].nodes[pid].phase != Running
  }

  lemma SuspectIssues(h: Hash, n: Node, pid: nat, w: nat, input: Input, target: MemberId)
    requires n.phase == Suspecting(target, false) && ListsVotes(n, input, target)
    ensures var e := React(h, n, pid, w, input);
      e.issue.Some? && e.issue.value.cause.Voting? && !e.issue.value.cause.renew && e.issue.value.row.id == target
  {
    V.FindFinds(Shot(input.listing).value.members, target);
  }

  /** In every run a step of a process writes a withdrawal if and only if a good answer to
      a current probe of that member brought it there and the listing shows its row active
      with votes to change. A change of neighbours has no part in it. */
  lemma WithdrawnIffAnswered(h: Hash, ws: seq<World>, steps: seq<Step>, t: nat, pid: nat, target: MemberId)
    requires Trace(h, ws, steps) && t < |steps| && steps[t].Act? && steps[t].pid == pid
    ensures pid in ws[t].nodes
    ensures WithdrawsAt(ws, t, target) <==>
      Withdrawing(ws, steps, t, pid, target) && ListsVotes(ws[t].nodes[pid], steps[t].input, target)
  {
    var e := ActAt(h, ws, steps, t);
    var n, w, input := ws[t].nodes[pid], |ws[t].writes|, steps[t].input;
    if WithdrawsAt(ws, t, target) {
      var s := PursuitBegan(h, ws, steps, t, pid, target, false);
      assert Busy(ws, s, t, pid);
    }
    if Withdrawing(ws, steps, t, pid, target) && ListsVotes(n, input, target) {
      var s: nat :| s < t && AnswerAt(ws, steps, s, pid, target, true) && Busy(ws, s, t, pid);
      WithdrawalGoesOn(h, ws, steps, s, t, pid, target);
      StepAt(h, ws, steps, t);
      SuspectIssues(h, n, pid, w, input, target);
    }
  }

  /** A refresh of the row of `id`, not a vote. */
  predicate RefreshOf(wr: Write, id: MemberId) {
    wr.cause.Refreshing? && wr.row.id == id
  }

  lemma TickIssue(h: Hash, n: Node, pid: nat, w: nat, input: Input)
    requires (input.PollView? || input.ProbeTick?) && n.self.id == n.id
    ensures var e := React(h, n, pid, w, input); e.issue.Some? ==> RefreshOf(e.issue.value, n.id)
  {
    if input.ProbeTick? && input.listing.Fast? {
      V.FindFinds(input.listing.fast.members, n.id);
    }
  }

  /** Polling the view and checking oneself never write a vote, and touch no row but one's own. */
  lemma TicksWriteNoVote(h: Hash, ws: seq<World>, steps: seq<Step>, t: nat, pid: nat)
    requires Trace(h, ws, steps) && t < |steps| && steps[t].Act? && steps[t].pid == pid
    requires steps[t].input.PollView? || steps[t].input.ProbeTick?
    ensures pid in ws[t].nodes && ws[t + 1].table == ws[t].table
    ensures || ws[t + 1].writes == ws[t].writes
            || (|ws[t + 1].writes| == |ws[t].writes| + 1
                && RefreshOf(ws[t + 1].writes[|ws[t].writes|], ws[t].nodes[pid].id))
  {
    StepAt(h, ws, steps, t);
    TraceInv(h, ws, steps, t);
    assert NodeOk(ws[t], pid, ws[t].nodes[pid]);
    TickIssue(h, ws[t].nodes[pid], pid, |ws[t].writes|, steps[t].input);
  }
}
