/** What holds of the membership table in every run: rows move from joining to active
    to dead and never back, dead is permanent, and a member is run by one process. */
module MembershipLaws {
  import opened Basics
  import opened Members
  import opened ProbeRing
  import V = Votes
  import D = Detector
  import opened Membership

  // ---- a node accuses only on evidence ----------------------------------------------

  /** The member a node is about to vote against, if any. */
  function Accused(phase: Phase): Option<MemberId> {
    match phase
    case Suspecting(target, true) => Some(target)
    case AwaitVote(_, row, true, _) => Some(row.id)
    case AwaitDeath(_, target) => Some(target)
    case _ => None
  }

  /** The detector agrees with its log, and whoever is accused was found failing. */
  ghost predicate Prepared(n: Node) {
    && D.Inv(n.detector)
    && (Accused(n.phase).Some? ==> D.Backed(n.detector.log, Accused(n.phase).value, n.limit))
  }

  lemma DetectorPrepared(n: Node, detector: D.State, phase: Phase)
    requires D.Inv(detector)
    requires Accused(phase).Some? ==> D.Backed(detector.log, Accused(phase).value, n.limit)
    ensures Prepared(n.(detector := detector, phase := phase))
  {
  }

  lemma CheckDonePrepared(h: Hash, n: Node, ok: bool)
    requires Prepared(n)
    ensures Prepared(CheckDone(h, n, ok).node)
  {
    D.TickKeepsInv(n.detector, ok, Targets(h, n.peers, n.id));
    DetectorPrepared(n, D.Ticked(n.detector, ok, Targets(h, n.peers, n.id)), Running);
  }

  lemma CheckRelistedPrepared(h: Hash, n: Node, ok: bool, listing: Listing)
    requires Prepared(n)
    ensures Prepared(CheckRelisted(h, n, ok, listing).node)
  {
    if Shot(listing).None? {
      CheckDonePrepared(h, n, false);
      return;
    }
    var s := Shot(listing).value;
    var k := V.Find(s.members, n.id);
    if k < 0 || s.members[k].status == Dead {
      ComposedPrepared(n, n.(phase := Stopped(true)));
    } else {
      var seen := n.(self := s.members[k], peers := ActiveIds(s.members));
      ComposedPrepared(n, seen);
      CheckDonePrepared(h, seen, ok && listing.Fast?);
    }
  }

  lemma PollPrepared(h: Hash, n: Node, listing: Listing)
    requires Prepared(n)
    ensures Prepared(Poll(h, n, listing).node)
  {
    var e := Poll(h, n, listing);
    if e.node.phase == Running {
      D.PollKeepsInv(n.detector, Targets(h, e.node.peers, n.id));
      DetectorPrepared(e.node, D.Polled(n.detector, Targets(h, e.node.peers, n.id)), Running);
    } else {
      ComposedPrepared(n, e.node);
    }
  }

  /** What the detector owes for the phase its decision leads to. */
  lemma DecisionIsBacked(s: D.State, s': D.State, target: MemberId, token: nat, good: bool, limit: nat, phase: Phase)
    requires D.Inv(s) && s' == D.Handled(s, target, token, good)
    requires phase == Pursuit(D.Decision(s, target, token, good, limit), target)
    ensures D.Inv(s') && (Accused(phase).Some? ==> D.Backed(s'.log, Accused(phase).value, limit))
  {
    D.HandleKeepsInv(s, target, token, good);
    if phase == Suspecting(target, true) {
      D.CastIsBacked(s, target, token, good, limit);
    }
  }

  lemma ProbedPrepared(n: Node, target: MemberId, token: nat, good: bool)
    requires Prepared(n)
    ensures Prepared(Probed(n, target, token, good).node)
  {
    var s' := D.Handled(n.detector, target, token, good);
    var phase := Pursuit(D.Decision(n.detector, target, token, good, n.limit), target);
    DecisionIsBacked(n.detector, s', target, token, good, n.limit, phase);
    DetectorPrepared(n, s', phase);
  }

  /** The detector is not touched, and nobody new is accused. */
  predicate Composed(n: Node, n': Node) {
    && n'.detector == n.detector && n'.limit == n.limit
    && (Accused(n'.phase).None? || Accused(n'.phase) == Accused(n.phase))
  }

  lemma ComposedPrepared(n: Node, n': Node)
    requires Prepared(n) && Composed(n, n')
    ensures Prepared(n')
  {
  }

  lemma JudgeComposed(h: Hash, n: Node, pid: nat, w: nat, row: Member, renew: bool, s: Snapshot)
    requires n.phase == Suspecting(row.id, renew)
    ensures Composed(n, Judge(h, n, pid, w, row, renew, s).node)
  {
  }

  lemma SuspectComposed(h: Hash, n: Node, pid: nat, w: nat, target: MemberId, renew: bool, listing: Listing)
    requires n.phase == Suspecting(target, renew)
    ensures Composed(n, Suspect(h, n, pid, w, target, renew, listing).node)
  {
    var e := Suspect(h, n, pid, w, target, renew, listing);
    if e != Goes(n, Running) {
      var s := Shot(listing).value;
      V.FindFinds(s.members, target);
      var seen := s.members[V.Find(s.members, target)];
      if V.Same(seen.votes, V.Revised(seen.votes, n.id, renew, s.now, n.ttl)) {
        JudgeComposed(h, n, pid, w, seen, renew, s);
      }
    }
  }

  lemma AnsweredComposed(h: Hash, n: Node, pid: nat, w: nat, reply: Reply, late: bool)
    requires !(n.phase.AwaitCheck? && reply != Reply.Conflict)
    ensures Composed(n, Answered(h, n, pid, w, reply, late).node)
  {
  }

  lemma AnsweredPrepared(h: Hash, n: Node, pid: nat, w: nat, reply: Reply, late: bool)
    requires Prepared(n)
    ensures Prepared(Answered(h, n, pid, w, reply, late).node)
  {
    if n.phase.AwaitCheck? && reply != Reply.Conflict {
      var n' := if reply == Ok then n.(self := Stamped(n.phase.row)) else n;
      ComposedPrepared(n, n');
      CheckDonePrepared(h, n', reply == Ok && n.phase.ok && !late);
    } else {
      AnsweredComposed(h, n, pid, w, reply, late);
      ComposedPrepared(n, Answered(h, n, pid, w, reply, late).node);
    }
  }

  lemma RelistedComposed(h: Hash, n: Node, pid: nat, w: nat, listing: Listing, clock: Time)
    requires !n.phase.RelistCheck?
    ensures Composed(n, Relisted(h, n, pid, w, listing, clock).node)
  {
    if n.phase.Suspecting? {
      var e := Suspect(h, n, pid, w, n.phase.target, n.phase.renew, listing);
      SuspectComposed(h, n, pid, w, n.phase.target, n.phase.renew, listing);
      assert Relisted(h, n, pid, w, listing, clock) == e;
    } else {
      OtherRelistedComposed(h, n, pid, w, listing, clock);
    }
  }

  lemma OtherRelistedComposed(h: Hash, n: Node, pid: nat, w: nat, listing: Listing, clock: Time)
    requires !n.phase.RelistCheck? && !n.phase.Suspecting?
    ensures Composed(n, Relisted(h, n, pid, w, listing, clock).node)
  {
    ListedComposed(n, pid, w, listing, clock);
  }

  lemma ListedComposed(n: Node, pid: nat, w: nat, listing: Listing, clock: Time)
    ensures Composed(n, JoinListed(n, pid, w, listing, clock).node) && Composed(n, BeatRelisted(n, listing).node)
  {
  }

  lemma RelistedPrepared(h: Hash, n: Node, pid: nat, w: nat, listing: Listing, clock: Time)
    requires Prepared(n)
    ensures Prepared(Relisted(h, n, pid, w, listing, clock).node)
  {
    if n.phase.RelistCheck? {
      CheckRelistedPrepared(h, n, n.phase.ok, listing);
    } else {
      RelistedComposed(h, n, pid, w, listing, clock);
      ComposedPrepared(n, Relisted(h, n, pid, w, listing, clock).node);
    }
  }

  lemma LoopedComposed(h: Hash, n: Node, pid: nat, w: nat, input: Input)
    requires n.phase.Running? && !input.PollView? && !input.ProbeReply?
    ensures Composed(n, Looped(h, n, pid, w, input).node)
  {
  }

  lemma LoopedPrepared(h: Hash, n: Node, pid: nat, w: nat, input: Input)
    requires Prepared(n) && n.phase.Running?
    ensures Prepared(Looped(h, n, pid, w, input).node)
  {
    if input.PollView? {
      PollPrepared(h, n, input.listing);
    } else if input.ProbeReply? {
      ProbedPrepared(n, input.target, input.token, input.good);
    } else {
      LoopedComposed(h, n, pid, w, input);
      ComposedPrepared(n, Looped(h, n, pid, w, input).node);
    }
  }

  lemma ReactPrepared(h: Hash, n: Node, pid: nat, w: nat, input: Input)
    requires Prepared(n)
    ensures Prepared(React(h, n, pid, w, input).node)
  {
    if input.Answer? {
      AnsweredPrepared(h, n, pid, w, input.reply, input.late);
    } else if input.Relist? {
      RelistedPrepared(h, n, pid, w, input.listing, input.clock);
    } else if n.phase.Running? {
      LoopedPrepared(h, n, pid, w, input);
    }
  }

  ghost predicate AllPrepared(w: World) {
    forall pid :: pid in w.nodes ==> Prepared(w.nodes[pid])
  }

  lemma StepKeepsPrepared(h: Hash, w: World, step: Step)
    requires AllPrepared(w) && Enabled(w, step)
    ensures AllPrepared(Next(h, w, step))
  {
    if step.Act? {
      ReactPrepared(h, w.nodes[step.pid], step.pid, |w.writes|, step.input);
    }
  }

  // ---- runs --------------------------------------------------------------------------------

  /** `ws` are the worlds a run of `steps` passes through, from the empty table. */
  ghost predicate Trace(h: Hash, ws: seq<World>, steps: seq<Step>) {
    && |ws| == |steps| + 1
    && ws[0] == EMPTY
    && forall i :: 0 <= i < |steps| ==> Stepped(h, ws, steps, i)
  }

  ghost predicate Stepped(h: Hash, ws: seq<World>, steps: seq<Step>, i: nat)
    requires |ws| == |steps| + 1 && i < |steps|
  {
    Enabled(ws[i], steps[i]) && ws[i + 1] == Next(h, ws[i], steps[i])
  }

  lemma EmptyIsOk(h: Hash)
    ensures Inv(h, EMPTY) && AllPrepared(EMPTY)
  {
  }

  lemma NextIsOk(h: Hash, w: World, step: Step, w': World)
    requires Enabled(w, step) && w' == Next(h, w, step) && Inv(h, w) && AllPrepared(w)
    ensures Inv(h, w') && AllPrepared(w') && Grows(w, w')
  {
    StepKeepsInv(h, w, step);
    StepKeepsPrepared(h, w, step);
  }

  lemma SteppedIsOk(h: Hash, ws: seq<World>, steps: seq<Step>, i: nat)
    requires Trace(h, ws, steps) && i < |steps|
    requires Inv(h, ws[i]) && AllPrepared(ws[i])
    ensures Inv(h, ws[i + 1]) && AllPrepared(ws[i + 1]) && Grows(ws[i], ws[i + 1])
  {
    assert Stepped(h, ws, steps, i);
    NextIsOk(h, ws[i], steps[i], ws[i + 1]);
  }

  lemma {:induction false} TraceInv(h: Hash, ws: seq<World>, steps: seq<Step>, i: nat)
    requires Trace(h, ws, steps) && i < |ws|
    ensures Inv(h, ws[i]) && AllPrepared(ws[i])
  {
    if i == 0 {
      EmptyIsOk(h);
    } else {
      TraceInv(h, ws, steps, i - 1);
      SteppedIsOk(h, ws, steps, i - 1);
    }
  }

  lemma GrowsChain(a: World, b: World, c: World)
    requires Grows(a, b) && Grows(b, c)
    ensures Grows(a, c)
  {
  }

  lemma GrowsItself(a: World)
    ensures Grows(a, a)
  {
  }

  lemma TraceStepGrows(h: Hash, ws: seq<World>, steps: seq<Step>, i: nat)
    requires Trace(h, ws, steps) && i < |steps|
    ensures Grows(ws[i], ws[i + 1])
  {
    TraceInv(h, ws, steps, i);
    SteppedIsOk(h, ws, steps, i);
  }

  lemma {:induction false} TraceGrows(h: Hash, ws: seq<World>, steps: seq<Step>, i: nat, j: nat)
    requires Trace(h, ws, steps) && i <= j < |ws|
    ensures Grows(ws[i], ws[j])
    decreases j
  {
    if i == j {
      GrowsItself(ws[i]);
    } else {
      TraceGrows(h, ws, steps, i, j - 1);
      TraceStepGrows(h, ws, steps, j - 1);
      GrowsChain(ws[i], ws[j - 1], ws[j]);
    }
  }

  // ---- statuses only advance -----------------------------------------------------------------

  /** How one version of a row follows another: a joining row is only ever activated,
      and a dead one was active before. */
  ghost predicate Orderly(before: Commit, after: Commit) {
    && (before.row.status == Joining ==> after.cause == Activating && after.row.status == Active)
    && (after.row.status == Dead ==> before.row.status == Active)
    && before.row.status != Dead
  }

  lemma ChainIsOrderly(h: Hash, id: MemberId, chain: seq<Commit>, k: nat)
    requires ChainOk(h, id, chain) && 0 < k < |chain|
    ensures Orderly(chain[k - 1], chain[k])
  {
    assert Link(h, chain, k);
  }

  /** In every run, under every interleaving, with writes that land late or whose
      acknowledgement was lost: a row never disappears; it is created joining, becomes
      active before anything else, and dead only from active; a dead row never changes. */
  lemma StatusOnlyAdvances(h: Hash, ws: seq<World>, steps: seq<Step>, i: nat, j: nat, id: MemberId)
    requires Trace(h, ws, steps) && i <= j < |ws| && id in ws[i].table
    ensures id in ws[j].table
    ensures Rank(ws[i].table[id].status) <= Rank(ws[j].table[id].status)
    ensures ws[i].table[id].etag <= ws[j].table[id].etag
    ensures ws[i].table[id].status == Dead ==> ws[j].table[id] == ws[i].table[id]
    ensures id in ws[j].history && |ws[j].history[id]| > 0 && ws[j].history[id][0].row.status == Joining
    ensures ws[j].table[id] == ws[j].history[id][|ws[j].history[id]| - 1].row
    ensures forall k :: 0 < k < |ws[j].history[id]| ==> Orderly(ws[j].history[id][k - 1], ws[j].history[id][k])
  {
    TraceInv(h, ws, steps, i);
    TraceInv(h, ws, steps, j);
    TraceGrows(h, ws, steps, i, j);
    var before, after := ws[i].history[id], ws[j].history[id];
    assert before <= after;
    ChainAdvances(h, id, after, |before| - 1, |after| - 1);
    if ws[i].table[id].status == Dead {
      DeadRowStays(h, ws[i], ws[j], id);
    }
    forall k | 0 < k < |after| ensures Orderly(after[k - 1], after[k]) {
      ChainIsOrderly(h, id, after, k);
    }
  }

  /** A node that reports itself declared dead is dead in the table, for good. */
  lemma DeclaredDeadIsTrue(h: Hash, ws: seq<World>, steps: seq<Step>, i: nat, j: nat, pid: nat)
    requires Trace(h, ws, steps) && i <= j < |ws|
    requires pid in ws[i].nodes && ws[i].nodes[pid].phase == Stopped(true)
    ensures var id := ws[i].nodes[pid].id; id in ws[j].table && ws[j].table[id].status == Dead
  {
    TraceInv(h, ws, steps, i);
    assert NodeOk(ws[i], pid, ws[i].nodes[pid]);
    StatusOnlyAdvances(h, ws, steps, i, j, ws[i].nodes[pid].id);
  }

  /** At most one process ever runs as a given member. */
  lemma OneProcessPerMember(h: Hash, ws: seq<World>, steps: seq<Step>, i: nat, p: nat, q: nat)
    requires Trace(h, ws, steps) && i < |ws|
    requires p in ws[i].nodes && HasJoined(ws[i].nodes[p].phase)
    requires q in ws[i].nodes && HasJoined(ws[i].nodes[q].phase)
    requires ws[i].nodes[p].id == ws[i].nodes[q].id
    ensures p == q
  {
    TraceInv(h, ws, steps, i);
    assert NodeOk(ws[i], p, ws[i].nodes[p]) && NodeOk(ws[i], q, ws[i].nodes[q]);
  }
}
