/** What one event can make of a node, whatever the event: its configuration stays, its
    writes are its own, and its phase, its log and its writes change only as listed here. */
module Conduct {
  import opened Basics
  import opened Members
  import opened ProbeRing
  import V = Votes
  import D = Detector
  import opened Membership

  predicate SameConfig(n: Node, n': Node) {
    n'.id == n.id && n'.ttl == n.ttl && n'.limit == n.limit && n'.gap == n.gap
  }

  /** The node remembers the time of its latest probe tick. */
  predicate TickNoted(n: Node, input: Input, n': Node) {
    n'.lastProbe == if n.phase == Running && input.ProbeTick? then input.at else n.lastProbe
  }

  /** The write, if any, is in flight and signed by the process and its member. */
  predicate Signed(e: Effect, pid: nat, id: MemberId) {
    e.issue.Some? ==> e.issue.value.pid == pid && e.issue.value.author == id && e.issue.value.outcome == InFlight
  }

  // ---- the log ---------------------------------------------------------------------------------------

  predicate Hears(n: Node, input: Input) {
    n.phase == Running && input.ProbeReply? && D.Current(n.detector, input.target, input.token)
  }

  /** Whether the event ends a self-check, and whether that self-check is good. */
  predicate EndsCheck(n: Node, input: Input, good: bool) {
    || (n.phase.AwaitCheck? && input.Answer? && input.reply != Reply.Conflict
        && good == (n.phase.ok && input.reply == Ok && !input.late))
    || (n.phase.RelistCheck? && input.Relist? && good == (n.phase.ok && input.listing.Fast?))
  }

  /** The log grows by at most one event: the answer heard, or the self-check that ended. */
  predicate LogMoved(n: Node, input: Input, log: seq<D.Event>) {
    if Hears(n, input) then log == n.detector.log + [D.Reply(input.target, input.token, input.good)]
    else
      || log == n.detector.log
      || (|log| == |n.detector.log| + 1 && log[..|log| - 1] == n.detector.log && log[|log| - 1].Poll?)
      || (|log| == |n.detector.log| + 1 && log[..|log| - 1] == n.detector.log
          && log[|log| - 1].Check? && EndsCheck(n, input, log[|log| - 1].ok))
  }

  /** A poll or a self-check in the log carries the ring neighbours of that moment. */
  ghost predicate NeighboursLogged(h: Hash, n: Node, n': Node) {
    var k := |n.detector.log|;
    |n'.detector.log| == k + 1 && !n'.detector.log[k].Reply? ==>
      n'.detector.log[k].targets == Targets(h, n'.peers, n'.id)
  }

  // ---- phases ------------------------------------------------------------------------------------------

  /** The node is busy casting (`renew`) or withdrawing its vote on `target`. */
  predicate Pursues(phase: Phase, target: MemberId, renew: bool) {
    || phase == Suspecting(target, renew)
    || (phase.AwaitVote? && phase.row.id == target && phase.renew == renew)
    || (phase.AwaitDeath? && phase.target == target && renew)
  }

  /** The vote that the node now waits for was written in this event, on its listing. */
  predicate VoteSent(n: Node, pid: nat, w: nat, input: Input, e: Effect)
    requires e.node.phase.AwaitVote?
  {
    var p := e.node.phase;
    && n.phase == Suspecting(p.row.id, p.renew) && input.Relist? && Shot(input.listing) == Some(p.snapshot)
    && p.w == w && e.issue == Some(Write(pid, n.id, p.row, Voting(p.renew, p.snapshot, n.ttl), InFlight))
  }

  /** How the node came to be in its new phase. */
  predicate PhaseMoved(n: Node, pid: nat, w: nat, input: Input, e: Effect) {
    match e.node.phase
    case Suspecting(target, renew) =>
      Pursues(n.phase, target, renew) || (Hears(n, input) && input.target == target && input.good == !renew)
    case AwaitVote(_, _, _, _) => e == Effect(n, None) || VoteSent(n, pid, w, input, e)
    case AwaitDeath(_, target) => Pursues(n.phase, target, true)
    case AwaitCheck(_, _, ok) =>
      || e.node.phase == n.phase
      || (n.phase == Running && input.ProbeTick? && ok == (OnSchedule(n, input.at) && input.listing.Fast?))
    case RelistCheck(ok) =>
      || e.node.phase == n.phase
      || (n.phase.AwaitCheck? && input.Answer? && input.reply == Reply.Conflict && ok == (n.phase.ok && !input.late))
    case _ => true
  }

  /** Where the node can go from its old phase. */
  predicate Leaves(n: Node, input: Input, n': Node) {
    match n.phase
    case Suspecting(target, renew) => Pursues(n'.phase, target, renew) || n'.phase == Running
    case AwaitVote(_, row, renew, _) => Pursues(n'.phase, row.id, renew) || n'.phase == Running
    case AwaitDeath(_, target) => Pursues(n'.phase, target, true) || n'.phase == Running
    case AwaitCheck(_, _, ok) =>
      if !input.Answer? then n' == n
      else if input.reply == Reply.Conflict then n'.phase == RelistCheck(ok && !input.late)
      else LogsEnd(n, input, n')
    case RelistCheck(ok) => if !input.Relist? then n' == n else n'.phase.Stopped? || LogsEnd(n, input, n')
    case Stopped(_) => n' == n
    case Running =>
      && (Hears(n, input) && input.good ==> n'.phase == Suspecting(input.target, false))
      && (input.ProbeTick? && n'.phase.AwaitCheck? ==> n'.phase.ok == (OnSchedule(n, input.at) && input.listing.Fast?))
      && (input.ProbeTick? ==> n'.phase.AwaitCheck? || n'.phase.Stopped?)
    case _ => true
  }

  /** The self-check is over and its result is in the log. */
  predicate LogsEnd(n: Node, input: Input, n': Node) {
    var k := |n.detector.log|;
    && |n'.detector.log| == k + 1 && n'.detector.log[..k] == n.detector.log
    && n'.detector.log[k].Check? && EndsCheck(n, input, n'.detector.log[k].ok)
  }

  // ---- writes -------------------------------------------------------------------------------------------

  /** What the event that puts `wr` in flight must have been. */
  ghost predicate Warranted(h: Hash, n: Node, input: Input, wr: Write) {
    match wr.cause
    case Voting(renew, s, ttl) =>
      && input.Relist? && Shot(input.listing) == Some(s) && n.phase == Suspecting(wr.row.id, renew) && ttl == n.ttl
      && (renew ==> n.id in Targets(h, ActiveIds(s.members), wr.row.id))
      && ShowsVotes(n, s, wr.row.id, renew)
    case Judging(s) =>
      || (input.Relist? && Shot(input.listing) == Some(s) && n.phase == Suspecting(wr.row.id, true))
      || (input.Answer? && input.reply == Ok && n.phase.AwaitVote? && n.phase.renew
          && s == WithRow(n.phase.snapshot, Stamped(n.phase.row)) && wr.row == Stamped(n.phase.row).(status := Dead))
    case Refreshing(cutoff) =>
      && n.phase == Running && (input.Heartbeat? || input.ProbeTick?)
      && (cutoff.Some? ==> Shot(ListingOf(input)).Some? && Shot(ListingOf(input)).value.now == cutoff.value)
    case Departing => input == Leave(false) && n.phase == Running
    case Activating => input.Relist? && n.phase == ListToJoin
    case Creating => false
  }

  /** The listing shows `target` active, with votes that the node's vote or withdrawal would change. */
  ghost predicate ShowsVotes(n: Node, s: Snapshot, target: MemberId, renew: bool) {
    var k := V.Find(s.members, target);
    && k >= 0 && s.members[k].status == Active
    && !V.Same(s.members[k].votes, V.Revised(s.members[k].votes, n.id, renew, s.now, n.ttl))
  }

  ghost predicate Conducts(h: Hash, n: Node, pid: nat, w: nat, input: Input, e: Effect) {
    && SameConfig(n, e.node) && TickNoted(n, input, e.node) && Signed(e, pid, n.id)
    && LogMoved(n, input, e.node.detector.log) && NeighboursLogged(h, n, e.node)
    && PhaseMoved(n, pid, w, input, e) && Leaves(n, input, e.node)
    && (e.issue.Some? ==> Warranted(h, n, input, e.issue.value))
  }

  // ---- event by event ---------------------------------------------------------------------------------------

  lemma IdleConducts(h: Hash, n: Node, pid: nat, w: nat, input: Input)
    requires !Hears(n, input) && !(n.phase == Running && input.ProbeTick?)
    requires !(n.phase.AwaitCheck? && input.Answer?) && !(n.phase.RelistCheck? && input.Relist?)
    ensures Conducts(h, n, pid, w, input, Effect(n, None))
  {
  }

  lemma JoinListedConducts(h: Hash, n: Node, pid: nat, w: nat, input: Input)
    requires n.phase == ListToJoin && input.Relist?
    ensures Conducts(h, n, pid, w, input, JoinListed(n, pid, w, input.listing, input.clock))
  {
  }

  lemma BeatRelistedConducts(h: Hash, n: Node, pid: nat, w: nat, input: Input)
    requires n.phase == RelistBeat && input.Relist?
    ensures Conducts(h, n, pid, w, input, BeatRelisted(n, input.listing))
  {
  }

  lemma CheckDoneLogs(h: Hash, n: Node, ok: bool)
    ensures var n' := CheckDone(h, n, ok).node; var k := |n.detector.log|;
      && SameConfig(n, n') && n'.lastProbe == n.lastProbe && n'.phase == Running && |n'.detector.log| == k + 1 && n'.detector.log[..k] == n.detector.log
      && n'.detector.log[k].Check? && n'.detector.log[k].ok == ok && n'.detector.log[k].targets == Targets(h, n'.peers, n'.id)
  {
  }

  lemma CheckRelistedConducts(h: Hash, n: Node, pid: nat, w: nat, input: Input)
    requires n.phase.RelistCheck? && input.Relist?
    ensures Conducts(h, n, pid, w, input, CheckRelisted(h, n, n.phase.ok, input.listing))
  {
    match Shot(input.listing) {
      case None => CheckDoneLogs(h, n, false);
      case Some(s) =>
        var k := V.Find(s.members, n.id);
        if k >= 0 {
          CheckDoneLogs(h, n.(self := s.members[k], peers := ActiveIds(s.members)), n.phase.ok && input.listing.Fast?);
        }
    }
  }

  lemma JudgeConducts(h: Hash, n: Node, pid: nat, w: nat, input: Input, row: Member, s: Snapshot)
    requires n.phase.Suspecting? && n.phase.target == row.id && input.Relist? && Shot(input.listing) == Some(s)
    ensures Conducts(h, n, pid, w, input, Judge(h, n, pid, w, row, n.phase.renew, s))
  {
  }

  lemma VoteConducts(h: Hash, n: Node, pid: nat, w: nat, input: Input, row: Member, s: Snapshot)
    requires n.phase.Suspecting? && n.phase.target == row.id && input.Relist? && Shot(input.listing) == Some(s)
    requires n.phase.renew ==> n.id in Targets(h, ActiveIds(s.members), row.id)
    requires ShowsVotes(n, s, row.id, n.phase.renew)
    ensures var renew := n.phase.renew;
      Conducts(h, n, pid, w, input, Effect(n.(phase := AwaitVote(w, row, renew, s)),
                                           Some(Write(pid, n.id, row, Voting(renew, s, n.ttl), InFlight))))
  {
  }

  lemma BackConducts(h: Hash, n: Node, pid: nat, w: nat, input: Input)
    requires n.phase.Suspecting? && input.Relist?
    ensures Conducts(h, n, pid, w, input, Goes(n, Running))
  {
  }

  lemma SuspectConducts(h: Hash, n: Node, pid: nat, w: nat, input: Input, e: Effect)
    requires n.phase.Suspecting? && input.Relist?
    requires e == Suspect(h, n, pid, w, n.phase.target, n.phase.renew, input.listing)
    ensures Conducts(h, n, pid, w, input, e)
  {
    var target, renew := n.phase.target, n.phase.renew;
    BackConducts(h, n, pid, w, input);
    if e != Goes(n, Running) {
      var s := Shot(input.listing).value;
      V.FindFinds(s.members, target);
      var seen := s.members[V.Find(s.members, target)];
      var votes := V.Revised(seen.votes, n.id, renew, s.now, n.ttl);
      if V.Same(seen.votes, votes) {
        assert e == Judge(h, n, pid, w, seen, renew, s);
        JudgeConducts(h, n, pid, w, input, seen, s);
      } else {
        VoteConducts(h, n, pid, w, input, seen.(votes := votes), s);
      }
    }
  }

  lemma BeatConducts(h: Hash, n: Node, pid: nat, w: nat, input: Input)
    requires n.phase == Running && input.Heartbeat?
    ensures Conducts(h, n, pid, w, input, Beat(n, pid, w, input.listing, input.clock))
  {
  }

  lemma PollConducts(h: Hash, n: Node, pid: nat, w: nat, input: Input)
    requires n.phase == Running && input.PollView?
    ensures Conducts(h, n, pid, w, input, Poll(h, n, input.listing))
  {
  }

  lemma SelfCheckConducts(h: Hash, n: Node, pid: nat, w: nat, input: Input)
    requires n.phase == Running && input.ProbeTick?
    ensures Conducts(h, n, pid, w, input,
      SelfCheck(n.(lastProbe := input.at), pid, w, OnSchedule(n, input.at), input.listing, input.clock))
  {
  }

  lemma ProbedConducts(h: Hash, n: Node, pid: nat, w: nat, input: Input)
    requires n.phase == Running && input.ProbeReply?
    ensures Conducts(h, n, pid, w, input, Probed(n, input.target, input.token, input.good))
  {
  }

  lemma DepartConducts(h: Hash, n: Node, pid: nat, w: nat, input: Input)
    requires n.phase == Running && input.Leave?
    ensures Conducts(h, n, pid, w, input, Depart(n, pid, w, input.killed))
  {
  }

  lemma CheckAnsweredConducts(h: Hash, n: Node, pid: nat, w: nat, input: Input)
    requires n.phase.AwaitCheck? && input.Answer?
    ensures Conducts(h, n, pid, w, input, Answered(h, n, pid, w, input.reply, input.late))
  {
    match input.reply {
      case Ok => CheckDoneLogs(h, n.(self := Stamped(n.phase.row)), n.phase.ok && !input.late);
      case Conflict =>
      case Error => CheckDoneLogs(h, n, false);
    }
  }

  lemma VoteAnsweredConducts(h: Hash, n: Node, pid: nat, w: nat, input: Input)
    requires n.phase.AwaitVote? && input.Answer?
    ensures Conducts(h, n, pid, w, input, Answered(h, n, pid, w, input.reply, input.late))
  {
  }

  lemma OtherAnsweredConducts(h: Hash, n: Node, pid: nat, w: nat, input: Input)
    requires !n.phase.AwaitVote? && !n.phase.AwaitCheck? && input.Answer?
    ensures Conducts(h, n, pid, w, input, Answered(h, n, pid, w, input.reply, input.late))
  {
  }

  lemma AnsweredConducts(h: Hash, n: Node, pid: nat, w: nat, input: Input)
    requires input.Answer?
    ensures Conducts(h, n, pid, w, input, React(h, n, pid, w, input))
  {
    if n.phase.AwaitVote? {
      VoteAnsweredConducts(h, n, pid, w, input);
    } else if n.phase.AwaitCheck? {
      CheckAnsweredConducts(h, n, pid, w, input);
    } else {
      OtherAnsweredConducts(h, n, pid, w, input);
    }
  }

  lemma RelistConducts(h: Hash, n: Node, pid: nat, w: nat, input: Input)
    requires input.Relist?
    ensures Conducts(h, n, pid, w, input, React(h, n, pid, w, input))
  {
    match n.phase {
      case ListToJoin => JoinListedConducts(h, n, pid, w, input);
      case RelistBeat => BeatRelistedConducts(h, n, pid, w, input);
      case RelistCheck(_) => CheckRelistedConducts(h, n, pid, w, input);
      case Suspecting(_, _) => SuspectConducts(h, n, pid, w, input, React(h, n, pid, w, input));
      case _ => IdleConducts(h, n, pid, w, input);
    }
  }

  /** Every event of every node conducts itself. */
  lemma ReactConducts(h: Hash, n: Node, pid: nat, w: nat, input: Input)
    ensures Conducts(h, n, pid, w, input, React(h, n, pid, w, input))
  {
    if input.Answer? {
      AnsweredConducts(h, n, pid, w, input);
    } else if input.Relist? {
      RelistConducts(h, n, pid, w, input);
    } else if n.phase != Running {
      IdleConducts(h, n, pid, w, input);
    } else {
      match input {
        case Heartbeat(_, _) => BeatConducts(h, n, pid, w, input);
        case PollView(_) => PollConducts(h, n, pid, w, input);
        case ProbeTick(_, _, _) => SelfCheckConducts(h, n, pid, w, input);
        case ProbeReply(_, _, _) => ProbedConducts(h, n, pid, w, input);
        case Leave(_) => DepartConducts(h, n, pid, w, input);
      }
    }
  }
}
