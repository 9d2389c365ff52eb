/** Votes and deaths in every run, tied to the steps that caused them: no live vote is
    lost, every vote was cast by a ring neighbour on its detector's evidence, and every
    death was a departure or the verdict of all ring neighbours on a listing of the table. */
module VoteLaws {
  import opened Basics
  import opened Orders
  import opened Members
  import opened ProbeRing
  import V = Votes
  import D = Detector
  import opened Membership
  import opened MembershipLaws
  import opened Conduct
  import opened Provenance

  // ---- no live vote is lost -------------------------------------------------------------------

  /** The vote was unexpired when the step read the table, if it read it at all. */
  ghost predicate LiveAt(input: Input, expiry: Time) {
    Shot(ListingOf(input)).Some? ==> expiry > Shot(ListingOf(input)).value.now
  }

  /** From `before` to `after` every vote live at the writing step is kept, except that a
      node casting or withdrawing its vote may change its own entry. */
  ghost predicate KeepsLiveVotes(n: Node, input: Input, before: Member, after: Member) {
    forall voter :: voter in before.votes && LiveAt(input, before.votes[voter])
                    && !(n.phase.Suspecting? && voter == n.id)
      ==> voter in after.votes && after.votes[voter] == before.votes[voter]
  }

  lemma MoveKeepsVotes(h: Hash, n: Node, input: Input, wr: Write, base: Member, row: Member)
    requires Warranted(h, n, input, wr) && Move(h, base, row, wr.cause, n.id)
    ensures KeepsLiveVotes(n, input, base, row)
  {
  }

  /** Every version of every row was written by some step of its author, and keeps every
      vote of the version before it that was unexpired at the table time of the listing
      that step worked on, except the author's own entry when it casts or withdraws. */
  lemma NoLiveVoteIsLost(h: Hash, ws: seq<World>, steps: seq<Step>, i: nat, id: MemberId, k: nat) returns (t: nat)
    requires Trace(h, ws, steps) && i < |ws|
    requires id in ws[i].history && 0 < k < |ws[i].history[id]|
    ensures var chain := ws[i].history[id];
      && t < i && WroteAt(ws, steps, t, chain[k])
      && (Shot(ListingOf(steps[t].input)).Some? ==>
            Lists(ws[t].table, Shot(ListingOf(steps[t].input)).value.members))
      && KeepsLiveVotes(ws[t].nodes[chain[k].pid], steps[t].input, chain[k - 1].row, chain[k].row)
  {
    var chain := ws[i].history[id];
    TraceInv(h, ws, steps, i);
    assert Link(h, chain, k);
    t := CommitWasIssued(h, ws, steps, i, id, k);
    var pid := chain[k].pid;
    MoveKeepsVotes(h, ws[t].nodes[pid], steps[t].input, WriteOf(chain[k]), chain[k - 1].row, chain[k].row);
  }

  // ---- every vote is backed --------------------------------------------------------------------

  /** At step `t` process `pid`, a ring neighbour of `id` in the listing it read, casts its
      vote until `expiry`, and its detector's log holds the required probe failures. */
  ghost predicate CastAt(
    h: Hash, ws: seq<World>, steps: seq<Step>, t: nat, pid: nat, id: MemberId, voter: MemberId, expiry: Time)
  {
    && t < |steps| && t < |ws| && pid in ws[t].nodes && steps[t].Act? && Shot(ListingOf(steps[t].input)).Some?
    && var n, s := ws[t].nodes[pid], Shot(ListingOf(steps[t].input)).value;
       && ListsAt(ws, steps, t, pid, id, true, s)
       && n.id == voter && voter in Targets(h, ActiveIds(s.members), id)
       && expiry == s.now + n.ttl
       && D.Backed(n.detector.log, id, n.limit)
  }

  /** `c` is the commit of that vote. */
  ghost predicate Cast(h: Hash, ws: seq<World>, steps: seq<Step>, t: nat, id: MemberId, c: Commit, voter: MemberId, expiry: Time) {
    WroteAt(ws, steps, t, c) && c.author == voter && CastAt(h, ws, steps, t, c.pid, id, voter, expiry)
  }

  lemma TracePrepared(h: Hash, ws: seq<World>, steps: seq<Step>, t: nat, pid: nat)
    requires Trace(h, ws, steps) && t < |ws| && pid in ws[t].nodes
    ensures Prepared(ws[t].nodes[pid])
  {
    TraceInv(h, ws, steps, t);
  }

  /** A committed vote was cast by a step before. */
  lemma CommitWasCast(h: Hash, ws: seq<World>, steps: seq<Step>, i: nat, id: MemberId, k: nat) returns (t: nat)
    requires Trace(h, ws, steps) && i < |ws| && id in ws[i].history && 0 < k < |ws[i].history[id]|
    requires var c := ws[i].history[id][k]; c.cause.Voting? && c.cause.renew
    ensures var c := ws[i].history[id][k];
      t < i && Cast(h, ws, steps, t, id, c, c.author, c.cause.snapshot.now + c.cause.ttl)
  {
    var c := ws[i].history[id][k];
    t := CommitWasIssued(h, ws, steps, i, id, k);
    VersionNumber(h, ws, steps, i, id, k);
    TracePrepared(h, ws, steps, t, c.pid);
  }

  ghost predicate VoteStands(
    h: Hash, ws: seq<World>, steps: seq<Step>, i: nat, id: MemberId, k: nat, voter: MemberId, j: nat, t: nat)
    requires i < |ws| && id in ws[i].history && k < |ws[i].history[id]| && voter in ws[i].history[id][k].row.votes
  {
    && t < i && j <= k
    && Cast(h, ws, steps, t, id, ws[i].history[id][j], voter, ws[i].history[id][k].row.votes[voter])
  }

  /** Every vote found in any version of any row was cast by a step of a process running as
      that voter: it had listed the table, was a ring neighbour of the member in that
      listing, and its own detector had the evidence its own limit asks for. */
  lemma {:induction false} EveryVoteIsBacked(
    h: Hash, ws: seq<World>, steps: seq<Step>, i: nat, id: MemberId, k: nat, voter: MemberId) returns (j: nat, t: nat)
    requires Trace(h, ws, steps) && i < |ws|
    requires id in ws[i].history && k < |ws[i].history[id]| && voter in ws[i].history[id][k].row.votes
    ensures VoteStands(h, ws, steps, i, id, k, voter, j, t)
  {
    TraceInv(h, ws, steps, i);
    var chain := ws[i].history[id];
    assert k > 0;
    var c := chain[k];
    assert Link(h, chain, k);
    if c.cause.Voting? && c.cause.renew && c.author == voter {
      j := k;
      t := CommitWasCast(h, ws, steps, i, id, k);
    } else {
      j, t := EveryVoteIsBacked(h, ws, steps, i, id, k - 1, voter);
    }
  }

  // ---- deaths -------------------------------------------------------------------------------------

  /** What the judge went by: the listing `read` of the table at step `r`, or that listing
      with the judge's own vote, which is the version before, filled in. */
  ghost predicate JudgedOn(
    ws: seq<World>, steps: seq<Step>, r: nat, id: MemberId, before: Commit, judge: Commit, read: Snapshot, s: Snapshot)
  {
    && ListsAt(ws, steps, r, judge.pid, id, true, read)
    && (s == read
        || (s == WithRow(read, before.row) && before.pid == judge.pid && before.author == judge.author
            && before.cause.Voting? && before.cause.renew && before.cause.snapshot == read))
  }

  ghost predicate Convicts(
    h: Hash, ws: seq<World>, steps: seq<Step>, i: nat, id: MemberId, k: nat, voter: MemberId, now: Time)
    requires i < |ws| && id in ws[i].history && k < |ws[i].history[id]|
  {
    && voter in ws[i].history[id][k].row.votes && ws[i].history[id][k].row.votes[voter] > now
    && exists j, t :: VoteStands(h, ws, steps, i, id, k, voter, j, t)
  }

  /** The verdict of `s` on version `k` of the row: `n` active members, exactly
      `Threshold(n)` neighbours, and an unexpired, backed vote from each of them. */
  ghost predicate Verdict(h: Hash, ws: seq<World>, steps: seq<Step>, i: nat, id: MemberId, k: nat, s: Snapshot)
    requires i < |ws| && id in ws[i].history && k < |ws[i].history[id]|
  {
    var ids := ActiveIds(s.members);
    var jury := Targets(h, ids, id);
    && id in ids && |ids| >= 2
    && Distinct(jury) && |jury| == Threshold(|ids|) && id !in jury
    && forall voter :: voter in jury ==> Convicts(h, ws, steps, i, id, k, voter, s.now)
  }

  lemma JuryVerdict(h: Hash, ws: seq<World>, steps: seq<Step>, i: nat, id: MemberId, k: nat)
    requires Trace(h, ws, steps) && i < |ws| && id in ws[i].history && 0 < k < |ws[i].history[id]|
    requires ws[i].history[id][k].cause.Judging?
    ensures Verdict(h, ws, steps, i, id, k - 1, ws[i].history[id][k].cause.snapshot)
  {
    TraceInv(h, ws, steps, i);
    var s := ws[i].history[id][k].cause.snapshot;
    var ids := ActiveIds(s.members);
    assert Link(h, ws[i].history[id], k);
    ActiveIdsHold(s.members);
    NeighbourCount(h, ids, id);
    NeighboursAreMutual(h, ids, id, id);
    forall voter | voter in Targets(h, ids, id) ensures Convicts(h, ws, steps, i, id, k - 1, voter, s.now) {
      var j, t := EveryVoteIsBacked(h, ws, steps, i, id, k - 1, voter);
    }
  }

  /** A confirmed vote is a version of its row. */
  lemma ConfirmedVote(h: Hash, ws: seq<World>, steps: seq<Step>, t: nat, pid: nat, input: Input)
    requires Trace(h, ws, steps) && t < |ws| && pid in ws[t].nodes && ws[t].nodes[pid].phase.AwaitVote?
    requires input.Answer? && input.reply == Ok && Truthful(ws[t], ws[t].nodes[pid], input)
    ensures var n := ws[t].nodes[pid]; var row := n.phase.row;
      && row.id in ws[t].history && row.etag < |ws[t].history[row.id]|
      && ws[t].history[row.id][row.etag]
         == Commit(pid, n.id, Stamped(row), Voting(n.phase.renew, n.phase.snapshot, n.ttl))
  {
    var r := AwaitedVote(h, ws, steps, t, pid);
    TraceWriteOk(h, ws, steps, t, ws[t].nodes[pid].phase.w);
  }

  lemma TraceWriteOk(h: Hash, ws: seq<World>, steps: seq<Step>, t: nat, j: nat)
    requires Trace(h, ws, steps) && t < |ws| && j < |ws[t].writes|
    ensures WriteOk(h, ws[t], ws[t].writes[j])
  {
    TraceInv(h, ws, steps, t);
  }

  /** The confirmed vote of a judge is the version its verdict replaces. */
  lemma OwnVoteIsBefore(h: Hash, ws: seq<World>, steps: seq<Step>, i: nat, id: MemberId, k: nat, t: nat)
    requires Trace(h, ws, steps) && t < i < |ws| && id in ws[i].history && 0 < k < |ws[i].history[id]|
    requires WroteAt(ws, steps, t, ws[i].history[id][k])
    requires ws[t].nodes[ws[i].history[id][k].pid].phase.AwaitVote?
    requires steps[t].input.Answer? && steps[t].input.reply == Ok
    requires var c := ws[i].history[id][k];
      WriteOf(c).row == Stamped(ws[t].nodes[c.pid].phase.row).(status := Dead)
    requires Truthful(ws[t], ws[t].nodes[ws[i].history[id][k].pid], steps[t].input)
    ensures var chain := ws[i].history[id]; var c := chain[k]; var n := ws[t].nodes[c.pid];
      chain[k - 1] == Commit(c.pid, c.author, Stamped(n.phase.row), Voting(n.phase.renew, n.phase.snapshot, n.ttl))
  {
    var chain := ws[i].history[id];
    var c := chain[k];
    ConfirmedVote(h, ws, steps, t, c.pid, steps[t].input);
    VersionNumber(h, ws, steps, i, id, k);
    TraceGrows(h, ws, steps, t, i);
    assert ws[t].history[id] <= chain;
  }

  lemma JudgeHadListed(h: Hash, ws: seq<World>, steps: seq<Step>, i: nat, id: MemberId, k: nat) returns (t: nat, r: nat, read: Snapshot)
    requires Trace(h, ws, steps) && i < |ws| && id in ws[i].history && 0 < k < |ws[i].history[id]|
    requires ws[i].history[id][k].cause.Judging?
    ensures var chain := ws[i].history[id];
      && r <= t < i && WroteAt(ws, steps, t, chain[k])
      && JudgedOn(ws, steps, r, id, chain[k - 1], chain[k], read, chain[k].cause.snapshot)
  {
    var chain := ws[i].history[id];
    var c := chain[k];
    t := CommitWasIssued(h, ws, steps, i, id, k);
    TraceInv(h, ws, steps, i);
    assert c.row.id == id;
    var n := ws[t].nodes[c.pid];
    if steps[t].input.Relist? {
      r, read := t, c.cause.snapshot;
    } else {
      OwnVoteIsBefore(h, ws, steps, i, id, k, t);
      r := AwaitedVote(h, ws, steps, t, c.pid);
      read := n.phase.snapshot;
    }
  }

  ghost predicate Condemned(h: Hash, ws: seq<World>, steps: seq<Step>, i: nat, id: MemberId, k: nat, r: nat, read: Snapshot)
    requires i < |ws| && id in ws[i].history && 0 < k < |ws[i].history[id]|
  {
    var chain := ws[i].history[id];
    && chain[k].cause.Judging?
    && JudgedOn(ws, steps, r, id, chain[k - 1], chain[k], read, chain[k].cause.snapshot)
    && Verdict(h, ws, steps, i, id, k - 1, chain[k].cause.snapshot)
  }

  /** Every death in every run: the row was active before, and it was written either by
      the departing member's own process, or by a process that had listed the table and
      found, in the very version the write replaces, an unexpired vote of every ring
      neighbour of the member in that listing, each cast on probe evidence. */
  lemma EveryDeathIsJustified(h: Hash, ws: seq<World>, steps: seq<Step>, i: nat, id: MemberId, k: nat) returns (t: nat)
    requires Trace(h, ws, steps) && i < |ws|
    requires id in ws[i].history && k < |ws[i].history[id]| && ws[i].history[id][k].row.status == Dead
    ensures 0 < k && t < i && WroteAt(ws, steps, t, ws[i].history[id][k])
    ensures ws[i].history[id][k - 1].row.status == Active
    ensures var chain := ws[i].history[id];
      || (ws[t].nodes[chain[k].pid].id == id && steps[t].input.Leave?)
      || (exists r: nat, read :: r <= t && Condemned(h, ws, steps, i, id, k, r, read))
  {
    TraceInv(h, ws, steps, i);
    var chain := ws[i].history[id];
    assert chain[0].row.status == Joining;
    ChainIsOrderly(h, id, chain, k);
    assert Link(h, chain, k);
    if chain[k].cause.Judging? {
      var r, read;
      t, r, read := JudgeHadListed(h, ws, steps, i, id, k);
      JuryVerdict(h, ws, steps, i, id, k);
      assert Condemned(h, ws, steps, i, id, k, r, read);
    } else {
      t := CommitWasIssued(h, ws, steps, i, id, k);
    }
  }
}
