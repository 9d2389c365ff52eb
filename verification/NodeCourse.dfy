/** Where every event leads a node: when it stops, where an answer takes it, whom it takes for
    its peers, and when it begins to accuse or to withdraw. */
module NodeCourse {
  import opened Basics
  import opened Members
  import opened ProbeRing
  import V = Votes
  import D = Detector
  import L = DetectorLaws
  import opened Membership
  import opened MembershipLaws
  import opened Provenance
  import opened Obligations

  // ---- stopping -------------------------------------------------------------------------------------

  /** The event makes the node look for its own row in a listing. */
  predicate Looks(n: Node, input: Input) {
    || (n.phase == Running && (input.Heartbeat? || input.PollView?) && Shot(input.listing).Some?)
    || (n.phase == Running && input.ProbeTick? && input.listing.Fast?)
    || ((n.phase == RelistBeat || n.phase.RelistCheck?) && input.Relist? && Shot(input.listing).Some?)
  }

  /** The listing shows the node's own row, and how. */
  ghost predicate ShowsSelf(n: Node, input: Input, m: Member) {
    Shot(ListingOf(input)).Some? && Shows(Shot(ListingOf(input)).value, n.id, m)
  }

  lemma BeatStops(n: Node, pid: nat, w: nat, listing: Listing, clock: Time, m: Member)
    requires Shot(listing).Some? && DistinctIds(Shot(listing).value.members) && Shows(Shot(listing).value, n.id, m)
    ensures Beat(n, pid, w, listing, clock).node.phase == Stopped(true) <==> m.status == Dead
  {
    FindShows(Shot(listing).value, n.id, m);
  }

  lemma PollStops(h: Hash, n: Node, listing: Listing, m: Member)
    requires Shot(listing).Some? && DistinctIds(Shot(listing).value.members) && Shows(Shot(listing).value, n.id, m)
    ensures Poll(h, n, listing).node.phase == if m.status == Dead then Stopped(true) else Running
    ensures BeatRelisted(n, listing).node.phase == if m.status == Dead then Stopped(true) else Running
  {
    FindShows(Shot(listing).value, n.id, m);
  }

  lemma CheckStops(h: Hash, n: Node, pid: nat, w: nat, ok: bool, listing: Listing, clock: Time, m: Member)
    requires Shot(listing).Some? && DistinctIds(Shot(listing).value.members) && Shows(Shot(listing).value, n.id, m)
    ensures listing.Fast? ==>
      (SelfCheck(n, pid, w, ok, listing, clock).node.phase == Stopped(true) <==> m.status == Dead)
    ensures CheckRelisted(h, n, ok, listing).node.phase == if m.status == Dead then Stopped(true) else Running
  {
    FindShows(Shot(listing).value, n.id, m);
  }

  lemma LookStops(h: Hash, n: Node, pid: nat, w: nat, input: Input, m: Member)
    requires Sound(n, input) && Looks(n, input) && ShowsSelf(n, input, m)
    ensures React(h, n, pid, w, input).node.phase == Stopped(true) <==> m.status == Dead
  {
    if input.Relist? {
      RelistLookStops(h, n, pid, w, input, m);
    } else {
      match input {
        case Heartbeat(l, clock) => BeatStops(n, pid, w, l, clock, m);
        case PollView(l) => PollStops(h, n, l, m);
        case ProbeTick(at, l, clock) => CheckStops(h, n.(lastProbe := at), pid, w, OnSchedule(n, at), l, clock, m);
      }
    }
  }

  lemma RelistLookStops(h: Hash, n: Node, pid: nat, w: nat, input: Input, m: Member)
    requires Sound(n, input) && Looks(n, input) && ShowsSelf(n, input, m) && input.Relist?
    ensures React(h, n, pid, w, input).node.phase == Stopped(true) <==> m.status == Dead
  {
    if n.phase == RelistBeat {
      PollStops(h, n, input.listing, m);
    } else {
      CheckStops(h, n, pid, w, n.phase.ok, input.listing, input.clock, m);
    }
  }

  lemma AnswerGoesOn(h: Hash, n: Node, pid: nat, w: nat, reply: Reply, late: bool)
    requires n.phase != Stopped(true)
    ensures Answered(h, n, pid, w, reply, late).node.phase != Stopped(true)
  {
  }

  lemma RelistGoesOn(h: Hash, n: Node, pid: nat, w: nat, input: Input)
    requires input.Relist? && n.phase != Stopped(true) && !Looks(n, input)
    ensures Relisted(h, n, pid, w, input.listing, input.clock).node.phase != Stopped(true)
  {
  }

  lemma LoopGoesOn(h: Hash, n: Node, pid: nat, w: nat, input: Input)
    requires n.phase == Running && !Looks(n, input)
    ensures Looped(h, n, pid, w, input).node.phase != Stopped(true)
  {
  }

  lemma GoesOn(h: Hash, n: Node, pid: nat, w: nat, input: Input)
    requires n.phase != Stopped(true) && !Looks(n, input)
    ensures React(h, n, pid, w, input).node.phase != Stopped(true)
  {
    if input.Answer? {
      AnswerGoesOn(h, n, pid, w, input.reply, input.late);
    } else if input.Relist? {
      RelistGoesOn(h, n, pid, w, input);
    } else if n.phase == Running {
      LoopGoesOn(h, n, pid, w, input);
    }
  }

  lemma OwnRowShown(h: Hash, ws: seq<World>, steps: seq<Step>, t: nat, pid: nat) returns (m: Member)
    requires Trace(h, ws, steps) && Acts(ws, steps, t, pid) && Looks(ws[t].nodes[pid], steps[t].input)
    ensures ShowsSelf(ws[t].nodes[pid], steps[t].input, m)
  {
    StepAt(h, ws, steps, t);
    TraceInv(h, ws, steps, t);
    var n, input := ws[t].nodes[pid], steps[t].input;
    assert NodeOk(ws[t], pid, n);
    ShownSelf(h, ws[t], pid, n, input);
    var s := Shot(ListingOf(input)).value;
    m := s.members[V.Find(s.members, n.id)];
  }

  /** In every run a node stops as declared dead if and only if it looks for its row in a
      listing, at a heartbeat, a view poll or a self-check, and finds it dead. */
  lemma StopsIff(h: Hash, ws: seq<World>, steps: seq<Step>, t: nat, pid: nat)
    requires Trace(h, ws, steps) && Acts(ws, steps, t, pid) && ws[t].nodes[pid].phase != Stopped(true)
    ensures pid in ws[t + 1].nodes
    ensures var n, input := ws[t].nodes[pid], steps[t].input;
      ws[t + 1].nodes[pid].phase == Stopped(true) <==>
        Looks(n, input) && exists m :: ShowsSelf(n, input, m) && m.status == Dead
  {
    var n, input := ws[t].nodes[pid], steps[t].input;
    SoundAt(h, ws, steps, t, pid);
    var e := EffectAt(h, ws, steps, t, pid);
    if Looks(n, input) {
      var m := OwnRowShown(h, ws, steps, t, pid);
      LookStops(h, n, pid, |ws[t].writes|, input, m);
      forall x | ShowsSelf(n, input, x) ensures x == m { }
    } else {
      GoesOn(h, n, pid, |ws[t].writes|, input);
    }
  }

  // ---- answers ------------------------------------------------------------------------------------------

  /** Where an answer takes the node; a verdict may follow a confirmed vote. */
  ghost predicate AnswerLeads(n: Node, reply: Reply, late: bool, n': Node) {
    match n.phase
    case AwaitCreate(_) => n'.phase == if reply == Ok then ListToJoin else Failed
    case AwaitActivate(_, row, _) =>
      n'.phase == (if reply == Ok then Running else Failed) && (reply == Ok ==> n'.self == row.(etag := row.etag + 1))
    case AwaitBeat(_, row) =>
      && n'.phase == (if reply == Reply.Conflict then RelistBeat else Running)
      && n'.self == if reply == Ok then row.(etag := row.etag + 1) else n.self
    case AwaitCheck(_, row, ok) =>
      && n'.phase == (if reply == Reply.Conflict then RelistCheck(ok && !late) else Running)
      && n'.self == if reply == Ok then row.(etag := row.etag + 1) else n.self
    case AwaitVote(_, row, renew, _) =>
      && (reply == Reply.Conflict ==> n'.phase == Suspecting(row.id, renew))
      && (reply == Error ==> n'.phase == Running)
      && (reply == Ok ==> n'.phase == Running || (n'.phase.AwaitDeath? && n'.phase.target == row.id))
    case AwaitDeath(_, target) => n'.phase == if reply == Reply.Conflict then Suspecting(target, true) else Running
    case AwaitLeave(_) => n'.phase == Stopped(false)
    case _ => n' == n
  }

  lemma AnswerLeadsOn(h: Hash, n: Node, pid: nat, w: nat, reply: Reply, late: bool)
    ensures AnswerLeads(n, reply, late, Answered(h, n, pid, w, reply, late).node)
  {
  }

  /** In every run an answer takes the node where the outcome says: on when the write was
      confirmed, to another listing when it was refused, back to its loop when it is unknown. */
  lemma AnswersLead(h: Hash, ws: seq<World>, steps: seq<Step>, t: nat, pid: nat)
    requires Trace(h, ws, steps) && Acts(ws, steps, t, pid) && steps[t].input.Answer?
    ensures pid in ws[t + 1].nodes
    ensures AnswerLeads(ws[t].nodes[pid], steps[t].input.reply, steps[t].input.late, ws[t + 1].nodes[pid])
  {
    var e := EffectAt(h, ws, steps, t, pid);
    AnswerLeadsOn(h, ws[t].nodes[pid], pid, |ws[t].writes|, steps[t].input.reply, steps[t].input.late);
  }

  // ---- peers ---------------------------------------------------------------------------------------------

  /** The event makes the node take a listing for its view of the cluster. */
  predicate TakesView(n: Node, input: Input) {
    || (n.phase == Running && input.PollView? && Shot(input.listing).Some?)
    || (n.phase == Running && input.ProbeTick? && input.listing.Fast?)
    || (n.phase.RelistCheck? && input.Relist? && Shot(input.listing).Some?)
  }

  lemma ViewTaken(h: Hash, n: Node, pid: nat, w: nat, input: Input)
    requires TakesView(n, input) && React(h, n, pid, w, input).node.phase != Stopped(true)
    ensures React(h, n, pid, w, input).node.peers == ActiveIds(Shot(ListingOf(input)).value.members)
  {
  }

  lemma AnswerKeepsPeers(h: Hash, n: Node, pid: nat, w: nat, reply: Reply, late: bool)
    requires !n.phase.AwaitActivate?
    ensures Answered(h, n, pid, w, reply, late).node.peers == n.peers
  {
  }

  lemma EventKeepsPeers(h: Hash, n: Node, pid: nat, w: nat, input: Input)
    requires !input.Answer? && !TakesView(n, input)
    ensures React(h, n, pid, w, input).node.peers == n.peers
  {
  }

  /** In every run a node that goes on takes exactly the active members of a listing for its
      peers when it polls the view or checks itself in time, and keeps them otherwise. */
  lemma PeersAre(h: Hash, ws: seq<World>, steps: seq<Step>, t: nat, pid: nat)
    requires Trace(h, ws, steps) && Acts(ws, steps, t, pid) && !ws[t].nodes[pid].phase.AwaitActivate?
    ensures pid in ws[t + 1].nodes
    ensures ws[t + 1].nodes[pid].phase != Stopped(true) ==>
      ws[t + 1].nodes[pid].peers == if TakesView(ws[t].nodes[pid], steps[t].input)
                                    then ActiveIds(Shot(ListingOf(steps[t].input)).value.members) else ws[t].nodes[pid].peers
  {
    var n, input := ws[t].nodes[pid], steps[t].input;
    var e := EffectAt(h, ws, steps, t, pid);
    if e.node.phase != Stopped(true) {
      if TakesView(n, input) {
        ViewTaken(h, n, pid, |ws[t].writes|, input);
      } else if input.Answer? {
        AnswerKeepsPeers(h, n, pid, |ws[t].writes|, input.reply, input.late);
      } else {
        EventKeepsPeers(h, n, pid, |ws[t].writes|, input);
      }
    }
  }

  lemma JoinedPeers(n: Node, row: Member, members: seq<Member>, id: MemberId)
    requires row.id == n.id && row.status == Active && DistinctIds(members) && exists m :: m in members && m.id == n.id
    ensures id in Joined(n, row, members).peers <==> id == n.id || exists m :: m in members && m.id == id && m.status == Active
  {
    var k := V.Find(members, n.id);
    V.FindFinds(members, n.id);
    var updated := members[k := Stamped(row)];
    ActiveIdsHold(updated);
    if m :| m in members && m.id == id && m.status == Active && id != n.id {
      var i :| 0 <= i < |members| && members[i] == m;
      assert updated[i] == m;
    }
    if id == n.id {
      assert updated[k] == Stamped(row);
    }
    if m :| m in updated && m.id == id && m.status == Active && id != n.id {
      assert m in members;
    }
  }

  /** A process that has joined starts with the active members of its listing and itself. */
  lemma FirstPeers(h: Hash, ws: seq<World>, steps: seq<Step>, t: nat, pid: nat, id: MemberId)
    requires Trace(h, ws, steps) && Acts(ws, steps, t, pid)
    requires ws[t].nodes[pid].phase.AwaitActivate? && steps[t].input.Answer? && steps[t].input.reply == Ok
    ensures pid in ws[t + 1].nodes && ws[t + 1].nodes[pid].phase == Running
    ensures var n := ws[t].nodes[pid];
      id in ws[t + 1].nodes[pid].peers <==>
        id == n.id || exists m :: m in n.phase.members && m.id == id && m.status == Active
  {
    var n := ws[t].nodes[pid];
    SoundAt(h, ws, steps, t, pid);
    var e := EffectAt(h, ws, steps, t, pid);
    JoinedPeers(n, n.phase.row, n.phase.members, id);
  }

  // ---- the detector ---------------------------------------------------------------------------------------

  /** What the event is to the node's detector; `n'` is the node after it. */
  function Felt(h: Hash, n: Node, input: Input, n': Node): Option<D.Input> {
    if n.phase.AwaitCheck? && input.Answer? && input.reply != Reply.Conflict
    then Some(D.Tick(n.phase.ok && input.reply == Ok && !input.late, Targets(h, n'.peers, n'.id)))
    else if n.phase.RelistCheck? && input.Relist? && n'.phase == Running
    then Some(D.Tick(n.phase.ok && input.listing.Fast?, Targets(h, n'.peers, n'.id)))
    else if n.phase == Running && input.PollView? && n'.phase == Running
    then Some(D.View(Targets(h, n'.peers, n'.id)))
    else if n.phase == Running && input.ProbeReply?
    then Some(D.Answer(input.target, input.token, input.good))
    else None
  }

  ghost predicate Feels(h: Hash, n: Node, input: Input, n': Node) {
    n'.detector == match Felt(h, n, input, n') case None => n.detector case Some(i) => D.After(n.detector, i)
  }

  lemma AnswerFeels(h: Hash, n: Node, pid: nat, w: nat, input: Input)
    requires input.Answer?
    ensures Feels(h, n, input, Answered(h, n, pid, w, input.reply, input.late).node)
  {
  }

  lemma RelistFeels(h: Hash, n: Node, pid: nat, w: nat, input: Input)
    requires input.Relist?
    ensures Feels(h, n, input, Relisted(h, n, pid, w, input.listing, input.clock).node)
  {
  }

  lemma LoopFeels(h: Hash, n: Node, pid: nat, w: nat, input: Input)
    requires n.phase == Running && !input.Answer? && !input.Relist?
    ensures Feels(h, n, input, Looped(h, n, pid, w, input).node)
  {
  }

  lemma ReactFeels(h: Hash, n: Node, pid: nat, w: nat, input: Input)
    ensures Feels(h, n, input, React(h, n, pid, w, input).node)
  {
    if input.Answer? {
      AnswerFeels(h, n, pid, w, input);
    } else if input.Relist? {
      RelistFeels(h, n, pid, w, input);
    } else if n.phase == Running {
      LoopFeels(h, n, pid, w, input);
    }
  }

  lemma AfterIsExact(s: D.State, i: D.Input)
    requires D.Inv(s) && L.Exact(s)
    ensures L.Exact(D.After(s, i))
  {
    match i {
      case Tick(ok, targets) => L.TickIsExact(s, ok, targets);
      case View(targets) => L.PollIsExact(s, targets);
      case Answer(target, token, good) => L.HandleIsExact(s, target, token, good);
    }
  }

  lemma FeelsIsExact(h: Hash, n: Node, input: Input, n': Node)
    requires D.Inv(n.detector) && L.Exact(n.detector) && Feels(h, n, input, n')
    ensures L.Exact(n'.detector)
  {
    if Felt(h, n, input, n').Some? {
      AfterIsExact(n.detector, Felt(h, n, input, n').value);
    }
  }

  lemma PreparedAt(h: Hash, ws: seq<World>, steps: seq<Step>, t: nat, pid: nat)
    requires Trace(h, ws, steps) && t < |ws| && pid in ws[t].nodes
    ensures D.Inv(ws[t].nodes[pid].detector)
  {
    TraceInv(h, ws, steps, t);
  }

  /** In every run a node's detector holds exactly what its log says. */
  lemma {:induction false} DetectorIsExact(h: Hash, ws: seq<World>, steps: seq<Step>, t: nat, pid: nat)
    requires Trace(h, ws, steps) && t < |ws| && pid in ws[t].nodes
    ensures L.Exact(ws[t].nodes[pid].detector)
  {
    var s := t - 1;
    if steps[s].Act? && steps[s].pid == pid {
      var e := ActAt(h, ws, steps, s);
      e := EffectAt(h, ws, steps, s, pid);
      DetectorIsExact(h, ws, steps, s, pid);
      PreparedAt(h, ws, steps, s, pid);
      ReactFeels(h, ws[s].nodes[pid], pid, |ws[s].writes|, steps[s].input);
      FeelsIsExact(h, ws[s].nodes[pid], steps[s].input, e.node);
    } else {
      OtherStep(h, ws, steps, s, pid);
      if pid in ws[s].nodes {
        DetectorIsExact(h, ws, steps, s, pid);
      } else {
        L.FreshIsExact();
      }
    }
  }

  lemma ProbedLeads(n: Node, target: MemberId, token: nat, good: bool)
    requires D.Inv(n.detector) && L.Exact(n.detector)
    ensures var log, phase := n.detector.log, Probed(n, target, token, good).node.phase;
      phase == if good && L.Outstanding(log, target, token) then Suspecting(target, false)
               else if !good && L.Outstanding(log, target, token) && D.Recovered(log) && |L.Counted(log, target)| + 1 >= n.limit
               then Suspecting(target, true) else Running
  {
    L.ExactDecision(n.detector, target, token, good, n.limit);
  }

  /** In every run an answer to a probe makes the node accuse its target if and only if it is
      a failed one to the probe awaited, the node is in health by its log, and with it as many
      failed answers count as the limit asks for; it makes the node withdraw its vote if and only
      if it is a good one to the probe awaited; otherwise the node goes on. */
  lemma PursuesIff(h: Hash, ws: seq<World>, steps: seq<Step>, t: nat, pid: nat)
    requires Trace(h, ws, steps) && Acts(ws, steps, t, pid)
    requires ws[t].nodes[pid].phase == Running && steps[t].input.ProbeReply?
    ensures pid in ws[t + 1].nodes
    ensures var n, input := ws[t].nodes[pid], steps[t].input; var log := n.detector.log;
      ws[t + 1].nodes[pid].phase ==
        if input.good && L.Outstanding(log, input.target, input.token) then Suspecting(input.target, false)
        else if !input.good && L.Outstanding(log, input.target, input.token) && D.Recovered(log)
                && |L.Counted(log, input.target)| + 1 >= n.limit
        then Suspecting(input.target, true) else Running
  {
    var n, input := ws[t].nodes[pid], steps[t].input;
    var e := EffectAt(h, ws, steps, t, pid);
    PreparedAt(h, ws, steps, t, pid);
    DetectorIsExact(h, ws, steps, t, pid);
    ProbedLeads(n, input.target, input.token, input.good);
  }
}
