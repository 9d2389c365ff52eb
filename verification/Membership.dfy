/** The membership protocol: any number of nodes sharing one compare-and-swap table.

    A step is one interaction with the table or one event of a node's loop, so
    every interleaving of joins, heartbeats, self-checks, votes, judgements and
    departures is a sequence of steps. Issuing a write, its arrival at the
    table and the writer's answer are three separate steps. An answer may be an
    error at any time: the write is then still in flight and may land later, or
    has landed already, or never lands. */
module Membership {
  import opened Basics
  import opened Members
  import opened ProbeRing
  import V = Votes
  import D = Detector

  // ---- state --------------------------------------------------------------------

  /** Why a row is written. `cutoff` is the table time at which expired votes were dropped. */
  datatype Cause =
    | Creating
    | Activating
    | Refreshing(cutoff: Option<Time>)
    | Voting(renew: bool, snapshot: Snapshot, ttl: nat)
    | Judging(snapshot: Snapshot)
    | Departing

  datatype Outcome = InFlight | Committed | Refused

  /** `pid` is the writing process, `author` the member it acts for. */
  datatype Write = Write(pid: nat, author: MemberId, row: Member, cause: Cause, outcome: Outcome)

  datatype Commit = Commit(pid: nat, author: MemberId, row: Member, cause: Cause)

  datatype Phase =
    | AwaitCreate(w: nat)
    | ListToJoin
    | AwaitActivate(w: nat, row: Member, members: seq<Member>)
    | Running
    | AwaitBeat(w: nat, row: Member)
    | RelistBeat
    | AwaitCheck(w: nat, row: Member, ok: bool)
    | RelistCheck(ok: bool)
    | Suspecting(target: MemberId, renew: bool)
    | AwaitVote(w: nat, row: Member, renew: bool, snapshot: Snapshot)
    | AwaitDeath(w: nat, target: MemberId)
    | AwaitLeave(w: nat)
    | Stopped(declaredDead: bool)
    | Failed

  /** `gap` is the longest time allowed between two probe ticks, `lastProbe` the latest of them. */
  datatype Node = Node(
    id: MemberId, ttl: nat, limit: nat, gap: nat,
    lastProbe: Time,
    phase: Phase,
    self: Member,
    peers: seq<MemberId>,
    detector: D.State)

  /** `history` keeps, per row, every version that was ever current. */
  datatype World = World(
    table: Table,
    history: map<MemberId, seq<Commit>>,
    writes: seq<Write>,
    nodes: map<nat, Node>)

  const EMPTY := World(map[], map[], [], map[])

  // ---- inputs of a node ------------------------------------------------------------

  /** `Slow` is a listing that arrived outside the allowed table latency. */
  datatype Listing = ListError | Slow(slow: Snapshot) | Fast(fast: Snapshot)

  datatype Reply = Ok | Conflict | Error

  datatype Input =
    | Relist(listing: Listing, clock: Time)
    | Heartbeat(listing: Listing, clock: Time)
    | PollView(listing: Listing)
    | ProbeTick(at: Time, listing: Listing, clock: Time)
    | ProbeReply(target: MemberId, token: nat, good: bool)
    | Answer(reply: Reply, late: bool)
    | Leave(killed: bool)

  datatype Effect = Effect(node: Node, issue: Option<Write>)

  function Goes(n: Node, phase: Phase): Effect {
    Effect(n.(phase := phase), None)
  }

  function Shot(listing: Listing): Option<Snapshot> {
    match listing
    case ListError => None
    case Slow(s) => Some(s)
    case Fast(s) => Some(s)
  }

  // ---- what a node does ---------------------------------------------------------------

  /** `join`, after the creating write was acknowledged. */
  function JoinListed(n: Node, pid: nat, w: nat, listing: Listing, clock: Time): Effect {
    match Shot(listing)
    case None => Goes(n, Failed)
    case Some(s) =>
      var k := V.Find(s.members, n.id);
      if k < 0 || s.members[k].status != Joining then Goes(n, Failed)
      else
        var row := s.members[k].(status := Active, aliveAt := clock);
        Effect(n.(phase := AwaitActivate(w, row, s.members)),
               Some(Write(pid, n.id, row, Activating, InFlight)))
  }

  function Joined(n: Node, row: Member, members: seq<Member>): Node {
    var self := Stamped(row);
    var k := V.Find(members, n.id);
    var updated := if k < 0 then members else members[k := self];
    n.(phase := Running, self := self, peers := ActiveIds(updated))
  }

  /** `heartbeat`, up to its write. */
  function Beat(n: Node, pid: nat, w: nat, listing: Listing, clock: Time): Effect {
    match Shot(listing)
    case None => Goes(n, Running)
    case Some(s) =>
      var k := V.Find(s.members, n.id);
      if k < 0 || s.members[k].status == Dead then Goes(n, Stopped(true))
      else
        var self := s.members[k];
        var row := self.(aliveAt := clock, votes := V.Unexpired(self.votes, s.now));
        Effect(n.(self := self, phase := AwaitBeat(w, row)),
               Some(Write(pid, n.id, row, Refreshing(Some(s.now)), InFlight)))
  }

  function BeatRelisted(n: Node, listing: Listing): Effect {
    match Shot(listing)
    case None => Goes(n, Running)
    case Some(s) =>
      var k := V.Find(s.members, n.id);
      if k < 0 || s.members[k].status == Dead then Goes(n, Stopped(true))
      else Goes(n.(self := s.members[k]), Running)
  }

  function Poll(h: Hash, n: Node, listing: Listing): Effect {
    match Shot(listing)
    case None => Goes(n.(detector := D.Polled(n.detector, Targets(h, n.peers, n.id))), Running)
    case Some(s) =>
      var k := V.Find(s.members, n.id);
      if k >= 0 && s.members[k].status == Dead then Goes(n, Stopped(true))
      else
        var peers := ActiveIds(s.members);
        Goes(n.(peers := peers, detector := D.Polled(n.detector, Targets(h, peers, n.id))), Running)
  }

  /** `checkProbeInterval`: the first tick, or one that follows the last soon enough. */
  predicate OnSchedule(n: Node, at: Time) {
    n.lastProbe == ZERO_TIME || 0 < at - n.lastProbe <= n.gap
  }

  /** `selfCheck`, up to its write: a slow or failed listing still refreshes the
      row, from the copy the node already holds. */
  function SelfCheck(n: Node, pid: nat, w: nat, onSchedule: bool, listing: Listing, clock: Time): Effect {
    match listing
    case ListError => CheckWrite(n, pid, w, n.self, None, false, clock)
    case Slow(s) => CheckWrite(n, pid, w, n.self, Some(s.now), false, clock)
    case Fast(s) =>
      var k := V.Find(s.members, n.id);
      if k < 0 || s.members[k].status == Dead then Goes(n, Stopped(true))
      else CheckWrite(n.(peers := ActiveIds(s.members)), pid, w, s.members[k], Some(s.now), onSchedule, clock)
  }

  function CheckWrite(n: Node, pid: nat, w: nat, self: Member, cutoff: Option<Time>, ok: bool, clock: Time): Effect {
    var votes := match cutoff case None => self.votes case Some(now) => V.Unexpired(self.votes, now);
    var row := self.(aliveAt := clock, votes := votes);
    Effect(n.(self := self, phase := AwaitCheck(w, row, ok)),
           Some(Write(pid, n.id, row, Refreshing(cutoff), InFlight)))
  }

  function CheckDone(h: Hash, n: Node, ok: bool): Effect {
    Goes(n.(detector := D.Ticked(n.detector, ok, Targets(h, n.peers, n.id))), Running)
  }

  function CheckRelisted(h: Hash, n: Node, ok: bool, listing: Listing): Effect {
    match Shot(listing)
    case None => CheckDone(h, n, false)
    case Some(s) =>
      var k := V.Find(s.members, n.id);
      if k < 0 || s.members[k].status == Dead then Goes(n, Stopped(true))
      else CheckDone(h, n.(self := s.members[k], peers := ActiveIds(s.members)), ok && listing.Fast?)
  }

  function Pursuit(action: D.Action, target: MemberId): Phase {
    match action
    case Nothing => Running
    case Withdraw => Suspecting(target, false)
    case Cast => Suspecting(target, true)
  }

  function Probed(n: Node, target: MemberId, token: nat, good: bool): Effect {
    Goes(n.(detector := D.Handled(n.detector, target, token, good)),
         Pursuit(D.Decision(n.detector, target, token, good, n.limit), target))
  }

  /** One round of the retry loop of `updateSuspectVote`, up to its first write. */
  ghost function Suspect(h: Hash, n: Node, pid: nat, w: nat, target: MemberId, renew: bool, listing: Listing): Effect {
    match Shot(listing)
    case None => Goes(n, Running)
    case Some(s) =>
      var k := V.Find(s.members, target);
      if k < 0 || s.members[k].status != Active then Goes(n, Running)
      else if renew && n.id !in Targets(h, ActiveIds(s.members), target) then Goes(n, Running)
      else
        var seen := s.members[k];
        var votes := V.Revised(seen.votes, n.id, renew, s.now, n.ttl);
        if V.Same(seen.votes, votes) then Judge(h, n, pid, w, seen, renew, s)
        else
          var row := seen.(votes := votes);
          Effect(n.(phase := AwaitVote(w, row, renew, s)),
                 Some(Write(pid, n.id, row, Voting(renew, s, n.ttl), InFlight)))
  }

  /** The second half of the round: `row` is the target's row as the judge knows it. */
  ghost function Judge(h: Hash, n: Node, pid: nat, w: nat, row: Member, renew: bool, s: Snapshot): Effect {
    if !renew || !V.Condemned(h, s, row.id) then Goes(n, Running)
    else Effect(n.(phase := AwaitDeath(w, row.id)),
                Some(Write(pid, n.id, row.(status := Dead), Judging(s), InFlight)))
  }

  function WithRow(s: Snapshot, row: Member): Snapshot {
    var k := V.Find(s.members, row.id);
    if k < 0 then s else s.(members := s.members[k := row])
  }

  function Depart(n: Node, pid: nat, w: nat, killed: bool): Effect {
    if killed then Goes(n, Stopped(false))
    else Effect(n.(phase := AwaitLeave(w)),
                Some(Write(pid, n.id, n.self.(status := Dead), Departing, InFlight)))
  }

  ghost function Answered(h: Hash, n: Node, pid: nat, w: nat, reply: Reply, late: bool): Effect {
    match n.phase
    case AwaitCreate(_) => Goes(n, if reply == Ok then ListToJoin else Failed)
    case AwaitActivate(_, row, members) =>
      if reply == Ok then Effect(Joined(n, row, members), None) else Goes(n, Failed)
    case AwaitBeat(_, row) => (
      match reply
      case Ok => Goes(n.(self := Stamped(row)), Running)
      case Conflict => Goes(n, RelistBeat)
      case Error => Goes(n, Running))
    case AwaitCheck(_, row, ok) => (
      match reply
      case Ok => CheckDone(h, n.(self := Stamped(row)), ok && !late)
      case Conflict => Goes(n, RelistCheck(ok && !late))
      case Error => CheckDone(h, n, false))
    case AwaitVote(_, row, renew, s) => (
      match reply
      case Ok => Judge(h, n, pid, w, Stamped(row), renew, WithRow(s, Stamped(row)))
      case Conflict => Goes(n, Suspecting(row.id, renew))
      case Error => Goes(n, Running))
    case AwaitDeath(_, target) => Goes(n, if reply == Reply.Conflict then Suspecting(target, true) else Running)
    case AwaitLeave(_) => Goes(n, Stopped(false))
    case _ => Effect(n, None)
  }

  /** A listing in the middle of an operation. */
  ghost function Relisted(h: Hash, n: Node, pid: nat, w: nat, listing: Listing, clock: Time): Effect {
    match n.phase
    case ListToJoin => JoinListed(n, pid, w, listing, clock)
    case RelistBeat => BeatRelisted(n, listing)
    case RelistCheck(ok) => CheckRelisted(h, n, ok, listing)
    case Suspecting(target, renew) => Suspect(h, n, pid, w, target, renew, listing)
    case _ => Effect(n, None)
  }

  /** One round of the event loop. */
  function Looped(h: Hash, n: Node, pid: nat, w: nat, input: Input): Effect {
    match input
    case Heartbeat(l, clock) => Beat(n, pid, w, l, clock)
    case PollView(l) => Poll(h, n, l)
    case ProbeTick(at, l, clock) => SelfCheck(n.(lastProbe := at), pid, w, OnSchedule(n, at), l, clock)
    case ProbeReply(target, token, good) => Probed(n, target, token, good)
    case Leave(killed) => Depart(n, pid, w, killed)
    case _ => Effect(n, None)
  }

  /** One event of one node; an event the current phase does not wait for is ignored. */
  ghost function React(h: Hash, n: Node, pid: nat, w: nat, input: Input): Effect {
    if input.Answer? then Answered(h, n, pid, w, input.reply, input.late)
    else if input.Relist? then Relisted(h, n, pid, w, input.listing, input.clock)
    else if n.phase.Running? then Looped(h, n, pid, w, input)
    else Effect(n, None)
  }

  // ---- steps of the world ----------------------------------------------------------------

  datatype Step =
    | Start(pid: nat, id: MemberId, ttl: nat, limit: nat, gap: nat, clock: Time)
    | Act(pid: nat, input: Input)
    | Land(w: nat)

  function ListingOf(input: Input): Listing {
    match input
    case Relist(l, _) => l
    case Heartbeat(l, _) => l
    case PollView(l) => l
    case ProbeTick(_, l, _) => l
    case _ => ListError
  }

  /** The write whose answer the phase waits for. */
  function Awaited(phase: Phase): Option<nat> {
    match phase
    case AwaitCreate(w) => Some(w)
    case AwaitActivate(w, _, _) => Some(w)
    case AwaitBeat(w, _) => Some(w)
    case AwaitCheck(w, _, _) => Some(w)
    case AwaitVote(w, _, _, _) => Some(w)
    case AwaitDeath(w, _) => Some(w)
    case AwaitLeave(w) => Some(w)
    case _ => None
  }

  ghost predicate Truthful(w: World, n: Node, input: Input) {
    && (Shot(ListingOf(input)).Some? ==> Lists(w.table, Shot(ListingOf(input)).value.members))
    && (input.Answer? && Awaited(n.phase).Some? ==>
          var i := Awaited(n.phase).value;
          && i < |w.writes|
          && (input.reply == Ok ==> w.writes[i].outcome == Committed)
          && (input.reply == Reply.Conflict ==> w.writes[i].outcome == Refused))
  }

  ghost predicate Enabled(w: World, step: Step) {
    match step
    case Start(pid, _, _, _, _, _) => pid !in w.nodes
    case Act(pid, input) => pid in w.nodes && Truthful(w, w.nodes[pid], input)
    case Land(i) => i < |w.writes| && w.writes[i].outcome == InFlight
  }

  function Newcomer(w: World, id: MemberId, ttl: nat, limit: nat, gap: nat, clock: Time): Node {
    Node(id, ttl, limit, gap, ZERO_TIME, AwaitCreate(|w.writes|), Member(id, Joining, clock, map[], 0), [], D.Fresh())
  }

  function Enter(w: World, pid: nat, id: MemberId, ttl: nat, limit: nat, gap: nat, clock: Time): World {
    var n := Newcomer(w, id, ttl, limit, gap, clock);
    w.(nodes := w.nodes[pid := n], writes := w.writes + [Write(pid, id, n.self, Creating, InFlight)])
  }

  function Moved(w: World, pid: nat, e: Effect): World {
    w.(nodes := w.nodes[pid := e.node],
       writes := match e.issue case None => w.writes case Some(wr) => w.writes + [wr])
  }

  function Chain(w: World, id: MemberId): seq<Commit> {
    if id in w.history then w.history[id] else []
  }

  /** The table's compare-and-swap, as `MemberTable.WriteMember` performs it. */
  function Landed(w: World, i: nat): World
    requires i < |w.writes|
  {
    var wr := w.writes[i];
    if Accepts(w.table, wr.row) then
      w.(table := w.table[wr.row.id := Stamped(wr.row)],
         history := w.history[wr.row.id :=
           Chain(w, wr.row.id) + [Commit(wr.pid, wr.author, Stamped(wr.row), wr.cause)]],
         writes := w.writes[i := wr.(outcome := Committed)])
    else w.(writes := w.writes[i := wr.(outcome := Refused)])
  }

  ghost function Next(h: Hash, w: World, step: Step): World
    requires Enabled(w, step)
  {
    match step
    case Start(pid, id, ttl, limit, gap, clock) => Enter(w, pid, id, ttl, limit, gap, clock)
    case Act(pid, input) => Moved(w, pid, React(h, w.nodes[pid], pid, |w.writes|, input))
    case Land(i) => Landed(w, i)
  }

  // ---- the invariant -----------------------------------------------------------------------

  /** The only ways in which one version of a row may follow another. */
  ghost predicate Move(h: Hash, base: Member, row: Member, cause: Cause, author: MemberId) {
    && base.id == row.id
    && match cause
       case Creating => false
       case Activating =>
         author == row.id && base.status == Joining && row.status == Active && row.votes == base.votes
       case Refreshing(cutoff) =>
         && author == row.id && base.status == Active && row.status == Active
         && row.votes == (match cutoff case None => base.votes case Some(now) => V.Unexpired(base.votes, now))
       case Voting(renew, s, ttl) =>
         && base.status == Active && row.status == Active && row.aliveAt == base.aliveAt
         && row.votes == V.Revised(base.votes, author, renew, s.now, ttl)
       case Judging(s) =>
         && base.status == Active && row.status == Dead && row.aliveAt == base.aliveAt && row.votes == base.votes
         && Condemning(h, s, base)
       case Departing =>
         author == row.id && base.status == Active && row.status == Dead && row.votes == base.votes
  }

  /** The snapshot `s` condemns `row`: it lists the member as active among others,
      and each of its neighbours there holds an unexpired vote in `row`. */
  ghost predicate Condemning(h: Hash, s: Snapshot, row: Member) {
    && DistinctIds(s.members) && |ActiveIds(s.members)| >= 2 && row.id in ActiveIds(s.members)
    && V.Unanimous(h, ActiveIds(s.members), row, s.now)
  }

  ghost predicate Link(h: Hash, chain: seq<Commit>, k: nat)
    requires 0 < k < |chain|
  {
    Move(h, chain[k - 1].row, chain[k].row, chain[k].cause, chain[k].author)
  }

  ghost predicate ChainOk(h: Hash, id: MemberId, chain: seq<Commit>) {
    && |chain| > 0
    && chain[0].cause == Creating && chain[0].author == id
    && chain[0].row.status == Joining && chain[0].row.votes == map[]
    && (forall k :: 0 <= k < |chain| ==> chain[k].row.id == id && chain[k].row.etag == k + 1)
    && (forall k :: 0 < k < |chain| ==> Link(h, chain, k))
  }

  ghost predicate TableOk(h: Hash, w: World) {
    && w.table.Keys == w.history.Keys
    && forall id :: id in w.history ==>
      ChainOk(h, id, w.history[id]) && w.table[id] == w.history[id][|w.history[id]| - 1].row
  }

  /** `m` is an exact copy of some version of its row. */
  ghost predicate Copy(w: World, m: Member) {
    && m.id in w.history && 0 < m.etag <= |w.history[m.id]|
    && w.history[m.id][m.etag - 1].row == m
  }

  /** `row` was derived, legally, from the version whose ETag it names. */
  ghost predicate Derived(h: Hash, w: World, row: Member, cause: Cause, author: MemberId) {
    if row.etag == 0 then cause == Creating && author == row.id && row.status == Joining && row.votes == map[]
    else
      && row.id in w.history && row.etag <= |w.history[row.id]|
      && Move(h, w.history[row.id][row.etag - 1].row, row, cause, author)
  }

  ghost predicate WriteOk(h: Hash, w: World, wr: Write) {
    && Derived(h, w, wr.row, wr.cause, wr.author)
    && (wr.outcome == Committed ==>
          && wr.row.id in w.history && wr.row.etag < |w.history[wr.row.id]|
          && w.history[wr.row.id][wr.row.etag] == Commit(wr.pid, wr.author, Stamped(wr.row), wr.cause))
  }

  /** The process created the row of the member it runs. */
  ghost predicate Created(w: World, pid: nat, id: MemberId) {
    id in w.history && |w.history[id]| > 0 && w.history[id][0].pid == pid
  }

  ghost predicate Sent(w: World, i: nat, pid: nat, row: Member) {
    i < |w.writes| && w.writes[i].pid == pid && w.writes[i].row == row
  }

  ghost predicate PhaseOk(w: World, pid: nat, n: Node) {
    match n.phase
    case AwaitCreate(i) => i < |w.writes| && w.writes[i].pid == pid && w.writes[i].row == n.self && n.self.etag == 0
    case ListToJoin => true
    case AwaitActivate(i, row, members) =>
      && Sent(w, i, pid, row) && row.id == n.id && row.status == Active
      && DistinctIds(members) && exists m :: m in members && m.id == n.id
    case AwaitBeat(i, row) => Sent(w, i, pid, row) && row.id == n.id && row.status == Active
    case AwaitCheck(i, row, _) => Sent(w, i, pid, row) && row.id == n.id && row.status == Active
    case AwaitVote(i, row, renew, s) =>
      && Sent(w, i, pid, row) && row.status == Active && DistinctIds(s.members)
      && (exists m :: m in s.members && m.id == row.id && m.status == Active)
    case Stopped(declaredDead) => declaredDead ==> n.id in w.table && w.table[n.id].status == Dead
    case _ => true
  }

  predicate HasJoined(phase: Phase) {
    !phase.AwaitCreate? && !phase.ListToJoin? && !phase.AwaitActivate? && !phase.Failed?
  }

  ghost predicate NodeOk(w: World, pid: nat, n: Node) {
    && n.self.id == n.id
    && (!n.phase.AwaitCreate? && !n.phase.Failed? ==> Created(w, pid, n.id))
    && (HasJoined(n.phase) ==> Copy(w, n.self) && n.self.status == Active)
    && PhaseOk(w, pid, n)
  }

  ghost predicate Inv(h: Hash, w: World) {
    && TableOk(h, w)
    && (forall i :: 0 <= i < |w.writes| ==> WriteOk(h, w, w.writes[i]))
    && (forall pid :: pid in w.nodes ==> NodeOk(w, pid, w.nodes[pid]))
  }

  // ---- versions only accumulate ------------------------------------------------------------

  ghost predicate Grows(w: World, w': World) {
    && (forall id :: id in w.history ==> id in w'.history && w.history[id] <= w'.history[id])
    && |w.writes| <= |w'.writes|
    && (forall i :: 0 <= i < |w.writes| ==> w'.writes[i].(outcome := InFlight) == w.writes[i].(outcome := InFlight))
  }

  function Rank(status: Status): nat {
    match status case Joining => 0 case Active => 1 case Dead => 2
  }

  lemma {:induction false} ChainAdvances(h: Hash, id: MemberId, chain: seq<Commit>, a: nat, b: nat)
    requires ChainOk(h, id, chain) && a <= b < |chain|
    ensures Rank(chain[a].row.status) <= Rank(chain[b].row.status)
    decreases b
  {
    if a < b {
      ChainAdvances(h, id, chain, a, b - 1);
      assert Link(h, chain, b);
    }
  }

  /** A dead version has no successor. */
  lemma DeadIsLast(h: Hash, id: MemberId, chain: seq<Commit>, k: nat)
    requires ChainOk(h, id, chain) && k < |chain| && chain[k].row.status == Dead
    ensures k == |chain| - 1
  {
    assert k + 1 < |chain| ==> Link(h, chain, k + 1);
  }

  lemma DeadRowStays(h: Hash, w: World, w': World, id: MemberId)
    requires TableOk(h, w) && TableOk(h, w') && Grows(w, w')
    requires id in w.table && w.table[id].status == Dead
    ensures id in w'.table && w'.table[id] == w.table[id]
  {
    DeadIsLast(h, id, w'.history[id], |w.history[id]| - 1);
  }

  lemma PhaseOkGrows(h: Hash, w: World, w': World, pid: nat, n: Node)
    requires TableOk(h, w) && TableOk(h, w') && Grows(w, w') && PhaseOk(w, pid, n)
    ensures PhaseOk(w', pid, n)
  {
    if n.phase == Stopped(true) {
      DeadRowStays(h, w, w', n.id);
    } else if Awaited(n.phase).Some? && Awaited(n.phase).value < |w.writes| {
      var i := Awaited(n.phase).value;
      assert w'.writes[i].(outcome := InFlight) == w.writes[i].(outcome := InFlight);
    }
  }

  lemma CopyGrows(w: World, w': World, m: Member)
    requires Grows(w, w') && Copy(w, m)
    ensures Copy(w', m)
  {
  }

  lemma NodeOkGrows(h: Hash, w: World, w': World, pid: nat, n: Node)
    requires TableOk(h, w) && TableOk(h, w') && Grows(w, w') && NodeOk(w, pid, n)
    ensures NodeOk(w', pid, n)
  {
    PhaseOkGrows(h, w, w', pid, n);
    if HasJoined(n.phase) {
      CopyGrows(w, w', n.self);
    }
  }

  lemma DerivedGrows(h: Hash, w: World, w': World, row: Member, cause: Cause, author: MemberId)
    requires Grows(w, w') && Derived(h, w, row, cause, author)
    ensures Derived(h, w', row, cause, author)
  {
    if row.etag > 0 {
      assert w'.history[row.id][row.etag - 1] == w.history[row.id][row.etag - 1];
    }
  }

  // ---- a write lands -------------------------------------------------------------------------

  lemma LandExtendsChain(h: Hash, w: World, i: nat)
    requires TableOk(h, w) && i < |w.writes| && WriteOk(h, w, w.writes[i]) && Accepts(w.table, w.writes[i].row)
    ensures var w' := Landed(w, i); var id := w.writes[i].row.id;
      ChainOk(h, id, w'.history[id]) && |w'.history[id]| == w.writes[i].row.etag + 1
  {
    var wr := w.writes[i];
    var id := wr.row.id;
    var w' := Landed(w, i);
    var chain := Chain(w, id);
    var chain' := w'.history[id];
    assert chain' == chain + [Commit(wr.pid, wr.author, Stamped(wr.row), wr.cause)];
    if id in w.table {
      assert wr.row.etag == |chain|;
      forall k | 0 < k < |chain'| ensures Link(h, chain', k) {
        if k < |chain| {
          assert Link(h, chain, k);
        }
      }
    }
  }

  lemma LandGrows(w: World, i: nat)
    requires i < |w.writes|
    ensures Grows(w, Landed(w, i))
  {
  }

  lemma TableExtends(h: Hash, w: World, w': World, id: MemberId, chain: seq<Commit>)
    requires TableOk(h, w) && ChainOk(h, id, chain)
    requires w'.history == w.history[id := chain] && w'.table == w.table[id := chain[|chain| - 1].row]
    ensures TableOk(h, w')
  {
    forall other | other in w'.history && other != id
      ensures ChainOk(h, other, w'.history[other]) && w'.table[other] == w'.history[other][|w'.history[other]| - 1].row
    {
      assert w'.history[other] == w.history[other] && w'.table[other] == w.table[other];
    }
  }

  lemma LandKeepsTable(h: Hash, w: World, i: nat)
    requires TableOk(h, w) && i < |w.writes| && WriteOk(h, w, w.writes[i])
    ensures TableOk(h, Landed(w, i))
  {
    var w', wr := Landed(w, i), w.writes[i];
    if Accepts(w.table, wr.row) {
      LandExtendsChain(h, w, i);
      TableExtends(h, w, w', wr.row.id, w'.history[wr.row.id]);
    }
  }

  lemma LandKeepsWrite(h: Hash, w: World, i: nat, j: nat)
    requires TableOk(h, w) && i < |w.writes| && w.writes[i].outcome == InFlight && WriteOk(h, w, w.writes[i])
    requires j < |w.writes| && WriteOk(h, w, w.writes[j])
    ensures WriteOk(h, Landed(w, i), Landed(w, i).writes[j])
  {
    var w' := Landed(w, i);
    LandGrows(w, i);
    DerivedGrows(h, w, w', w.writes[j].row, w.writes[j].cause, w.writes[j].author);
    if i == j && Accepts(w.table, w.writes[i].row) {
      LandExtendsChain(h, w, i);
    }
  }

  lemma LandKeepsInv(h: Hash, w: World, i: nat)
    requires Inv(h, w) && i < |w.writes| && w.writes[i].outcome == InFlight
    ensures Inv(h, Landed(w, i)) && Grows(w, Landed(w, i))
  {
    var w' := Landed(w, i);
    LandGrows(w, i);
    LandKeepsTable(h, w, i);
    forall j | 0 <= j < |w'.writes| ensures WriteOk(h, w', w'.writes[j]) {
      LandKeepsWrite(h, w, i, j);
    }
    forall pid | pid in w'.nodes ensures NodeOk(w', pid, w'.nodes[pid]) {
      NodeOkGrows(h, w, w', pid, w.nodes[pid]);
    }
  }

  // ---- a node acts ---------------------------------------------------------------------------

  ghost predicate EffectOk(h: Hash, w: World, pid: nat, e: Effect) {
    var w' := Moved(w, pid, e);
    NodeOk(w', pid, e.node) && (e.issue.Some? ==> WriteOk(h, w', e.issue.value))
  }

  lemma MoveKeepsInv(h: Hash, w: World, pid: nat, e: Effect)
    requires Inv(h, w) && EffectOk(h, w, pid, e)
    ensures Inv(h, Moved(w, pid, e)) && Grows(w, Moved(w, pid, e))
  {
    var w' := Moved(w, pid, e);
    assert Grows(w, w') && TableOk(h, w');
    forall j | 0 <= j < |w'.writes| ensures WriteOk(h, w', w'.writes[j]) {
      if j < |w.writes| {
        assert WriteOk(h, w, w.writes[j]);
        DerivedGrows(h, w, w', w.writes[j].row, w.writes[j].cause, w.writes[j].author);
      }
    }
    forall p | p in w'.nodes ensures NodeOk(w', p, w'.nodes[p]) {
      if p != pid {
        NodeOkGrows(h, w, w', p, w.nodes[p]);
      }
    }
  }

  /** A listing shows each row as it is: the copy a node takes is a current version. */
  lemma ListedCopy(h: Hash, w: World, s: Snapshot, id: MemberId)
    requires TableOk(h, w) && Lists(w.table, s.members)
    ensures DistinctIds(s.members)
    ensures V.Find(s.members, id) >= 0 <==> id in w.table
    ensures id in w.table ==>
      s.members[V.Find(s.members, id)] == w.table[id] && Copy(w, w.table[id]) && w.table[id].id == id
  {
    assert Keyed(w.table);
    V.FindListed(w.table, s.members, id);
    ListedIdsDiffer(w.table, s.members);
  }

  /** What a step of node `n` may rely on. */
  ghost predicate Ready(h: Hash, w: World, pid: nat, n: Node, input: Input) {
    TableOk(h, w) && NodeOk(w, pid, n) && Truthful(w, n, input)
  }

  /** What the listing of an input says about one row. */
  lemma Shown(h: Hash, w: World, pid: nat, n: Node, input: Input, id: MemberId)
    requires Ready(h, w, pid, n, input) && Shot(ListingOf(input)).Some?
    ensures var s := Shot(ListingOf(input)).value; var k := V.Find(s.members, id);
      && DistinctIds(s.members)
      && (k >= 0 <==> id in w.table)
      && (k >= 0 ==> s.members[k] == w.table[id] && Copy(w, s.members[k]) && s.members[k].id == id)
  {
    ListedCopy(h, w, Shot(ListingOf(input)).value, id);
  }

  // The few shapes an effect can take, each justified once.

  /** A member past joining, holding a copy of an active version of its row. */
  ghost predicate Seated(w: World, pid: nat, n: Node) {
    n.self.id == n.id && Created(w, pid, n.id) && Copy(w, n.self) && n.self.status == Active
  }

  /** What a listing says about the row of a member past joining: active or dead. */
  lemma ShownSelf(h: Hash, w: World, pid: nat, n: Node, input: Input)
    requires Ready(h, w, pid, n, input) && Seated(w, pid, n) && Shot(ListingOf(input)).Some?
    ensures var s := Shot(ListingOf(input)).value; var k := V.Find(s.members, n.id);
      && k >= 0 && n.id in w.table && s.members[k] == w.table[n.id]
      && s.members[k].id == n.id && Copy(w, s.members[k]) && s.members[k].status != Joining
  {
    Shown(h, w, pid, n, input, n.id);
    var chain := w.history[n.id];
    ChainAdvances(h, n.id, chain, n.self.etag - 1, |chain| - 1);
  }

  lemma RestOk(h: Hash, w: World, pid: nat, n: Node, phase: Phase)
    requires Seated(w, pid, n)
    requires phase.Running? || phase.RelistBeat? || phase.RelistCheck? || phase.Suspecting? || phase == Stopped(false)
    ensures EffectOk(h, w, pid, Goes(n, phase))
  {
  }

  lemma FallOk(h: Hash, w: World, pid: nat, n: Node)
    requires Seated(w, pid, n) && n.id in w.table && w.table[n.id].status == Dead
    ensures EffectOk(h, w, pid, Goes(n, Stopped(true)))
  {
  }

  lemma FailOk(h: Hash, w: World, pid: nat, n: Node)
    requires n.self.id == n.id
    ensures EffectOk(h, w, pid, Goes(n, Failed))
  {
  }

  /** Refreshing one's own row from any copy of it is a legal derivation. */
  lemma RefreshOk(h: Hash, w: World, pid: nat, n: Node, row: Member, cutoff: Option<Time>, phase: Phase)
    requires Seated(w, pid, n)
    requires phase == AwaitBeat(|w.writes|, row) || (phase.AwaitCheck? && phase == AwaitCheck(|w.writes|, row, phase.ok))
    requires row == n.self.(aliveAt := row.aliveAt, votes := row.votes)
    requires row.votes == match cutoff case None => n.self.votes case Some(now) => V.Unexpired(n.self.votes, now)
    ensures EffectOk(h, w, pid, Effect(n.(phase := phase), Some(Write(pid, n.id, row, Refreshing(cutoff), InFlight))))
  {
    assert Move(h, n.self, row, Refreshing(cutoff), n.id);
  }

  lemma ActivateOk(h: Hash, w: World, pid: nat, n: Node, seen: Member, clock: Time, members: seq<Member>)
    requires n.self.id == n.id && Created(w, pid, n.id) && Copy(w, seen) && seen.id == n.id && seen.status == Joining
    requires seen in members && DistinctIds(members)
    ensures var row := seen.(status := Active, aliveAt := clock);
      EffectOk(h, w, pid, Effect(n.(phase := AwaitActivate(|w.writes|, row, members)),
                                 Some(Write(pid, n.id, row, Activating, InFlight))))
  {
    assert Move(h, seen, seen.(status := Active, aliveAt := clock), Activating, n.id);
  }

  lemma JoinListedOk(h: Hash, w: World, pid: nat, n: Node, input: Input)
    requires Ready(h, w, pid, n, input) && n.phase.ListToJoin? && input.Relist?
    ensures EffectOk(h, w, pid, JoinListed(n, pid, |w.writes|, input.listing, input.clock))
  {
    FailOk(h, w, pid, n);
    if Shot(input.listing).Some? {
      Shown(h, w, pid, n, input, n.id);
      var s := Shot(input.listing).value;
      var k := V.Find(s.members, n.id);
      if k >= 0 && s.members[k].status == Joining {
        assert s.members[k] in s.members;
        ActivateOk(h, w, pid, n, s.members[k], input.clock, s.members);
      }
    }
  }

  lemma BeatOk(h: Hash, w: World, pid: nat, n: Node, input: Input)
    requires Ready(h, w, pid, n, input) && n.phase.Running? && input.Heartbeat?
    ensures EffectOk(h, w, pid, Beat(n, pid, |w.writes|, input.listing, input.clock))
  {
    if Shot(input.listing).None? {
      RestOk(h, w, pid, n, Running);
      return;
    }
    ShownSelf(h, w, pid, n, input);
    var s := Shot(input.listing).value;
    var k := V.Find(s.members, n.id);
    if s.members[k].status == Dead {
      FallOk(h, w, pid, n);
    } else {
      var self := s.members[k];
      var row := self.(aliveAt := input.clock, votes := V.Unexpired(self.votes, s.now));
      RefreshOk(h, w, pid, n.(self := self), row, Some(s.now), AwaitBeat(|w.writes|, row));
    }
  }

  lemma BeatRelistedOk(h: Hash, w: World, pid: nat, n: Node, input: Input)
    requires Ready(h, w, pid, n, input) && n.phase.RelistBeat? && input.Relist?
    ensures EffectOk(h, w, pid, BeatRelisted(n, input.listing))
  {
    RestOk(h, w, pid, n, Running);
    if Shot(input.listing).Some? {
      ShownSelf(h, w, pid, n, input);
      var s := Shot(input.listing).value;
      var k := V.Find(s.members, n.id);
      if s.members[k].status == Dead {
        FallOk(h, w, pid, n);
      } else {
        RestOk(h, w, pid, n.(self := s.members[k]), Running);
      }
    }
  }

  lemma PollOk(h: Hash, w: World, pid: nat, n: Node, input: Input)
    requires Ready(h, w, pid, n, input) && n.phase.Running? && input.PollView?
    ensures EffectOk(h, w, pid, Poll(h, n, input.listing))
  {
    var e := Poll(h, n, input.listing);
    if Shot(input.listing).Some? {
      ShownSelf(h, w, pid, n, input);
    }
    if e.node.phase == Running {
      RestOk(h, w, pid, e.node, Running);
    } else {
      FallOk(h, w, pid, n);
    }
  }

  lemma CheckWriteOk(h: Hash, w: World, pid: nat, n: Node, self: Member, cutoff: Option<Time>, ok: bool, clock: Time)
    requires Seated(w, pid, n.(self := self))
    ensures EffectOk(h, w, pid, CheckWrite(n, pid, |w.writes|, self, cutoff, ok, clock))
  {
    var e := CheckWrite(n, pid, |w.writes|, self, cutoff, ok, clock);
    RefreshOk(h, w, pid, n.(self := self), e.issue.value.row, cutoff, e.node.phase);
  }

  lemma SelfCheckOk(h: Hash, w: World, pid: nat, n: Node, input: Input, onSchedule: bool)
    requires Ready(h, w, pid, n, input) && n.phase.Running? && input.ProbeTick?
    ensures EffectOk(h, w, pid, SelfCheck(n, pid, |w.writes|, onSchedule, input.listing, input.clock))
  {
    match input.listing
    case ListError => CheckWriteOk(h, w, pid, n, n.self, None, false, input.clock);
    case Slow(s) => CheckWriteOk(h, w, pid, n, n.self, Some(s.now), false, input.clock);
    case Fast(s) =>
      ShownSelf(h, w, pid, n, input);
      var k := V.Find(s.members, n.id);
      if s.members[k].status == Dead {
        FallOk(h, w, pid, n);
      } else {
        CheckWriteOk(h, w, pid, n.(peers := ActiveIds(s.members)), s.members[k], Some(s.now), onSchedule, input.clock);
      }
  }

  lemma CheckDoneOk(h: Hash, w: World, pid: nat, n: Node, ok: bool)
    requires Seated(w, pid, n)
    ensures EffectOk(h, w, pid, CheckDone(h, n, ok))
  {
    RestOk(h, w, pid, CheckDone(h, n, ok).node, Running);
  }

  lemma CheckRelistedOk(h: Hash, w: World, pid: nat, n: Node, input: Input)
    requires Ready(h, w, pid, n, input) && n.phase.RelistCheck? && input.Relist?
    ensures EffectOk(h, w, pid, CheckRelisted(h, n, n.phase.ok, input.listing))
  {
    if Shot(input.listing).None? {
      CheckDoneOk(h, w, pid, n, false);
      return;
    }
    ShownSelf(h, w, pid, n, input);
    var s := Shot(input.listing).value;
    var k := V.Find(s.members, n.id);
    if s.members[k].status == Dead {
      FallOk(h, w, pid, n);
    } else {
      CheckDoneOk(h, w, pid, n.(self := s.members[k], peers := ActiveIds(s.members)), n.phase.ok && input.listing.Fast?);
    }
  }

  /** Judging on a row that is a version of its member. */
  lemma JudgeOk(h: Hash, w: World, pid: nat, n: Node, row: Member, renew: bool, s: Snapshot)
    requires Seated(w, pid, n)
    requires Copy(w, row) && row.status == Active
    requires DistinctIds(s.members) && row in s.members
    ensures EffectOk(h, w, pid, Judge(h, n, pid, |w.writes|, row, renew, s))
  {
    if !renew || !V.Condemned(h, s, row.id) {
      RestOk(h, w, pid, n, Running);
    } else {
      CondemnedRow(h, s, row);
      assert Move(h, row, row.(status := Dead), Judging(s), n.id);
    }
  }

  lemma CondemnedRow(h: Hash, s: Snapshot, row: Member)
    requires V.Condemned(h, s, row.id) && DistinctIds(s.members) && row in s.members
    ensures Condemning(h, s, row)
  {
    var voted :| voted in s.members && voted.id == row.id && voted.status == Active
                 && V.Unanimous(h, ActiveIds(s.members), voted, s.now);
    assert voted == row;
    ActiveIdsHold(s.members);
  }

  lemma VoteOk(h: Hash, w: World, pid: nat, n: Node, seen: Member, renew: bool, s: Snapshot)
    requires Seated(w, pid, n)
    requires Copy(w, seen) && seen.status == Active && seen in s.members && DistinctIds(s.members)
    ensures var row := seen.(votes := V.Revised(seen.votes, n.id, renew, s.now, n.ttl));
      EffectOk(h, w, pid, Effect(n.(phase := AwaitVote(|w.writes|, row, renew, s)),
        Some(Write(pid, n.id, row, Voting(renew, s, n.ttl), InFlight))))
  {
    var row := seen.(votes := V.Revised(seen.votes, n.id, renew, s.now, n.ttl));
    assert Move(h, seen, row, Voting(renew, s, n.ttl), n.id);
  }

  lemma SuspectOk(h: Hash, w: World, pid: nat, n: Node, input: Input)
    requires Ready(h, w, pid, n, input) && n.phase.Suspecting? && input.Relist?
    ensures EffectOk(h, w, pid, Suspect(h, n, pid, |w.writes|, n.phase.target, n.phase.renew, input.listing))
  {
    var target, renew := n.phase.target, n.phase.renew;
    var e := Suspect(h, n, pid, |w.writes|, target, renew, input.listing);
    if e == Goes(n, Running) {
      RestOk(h, w, pid, n, Running);
      return;
    }
    var s := Shot(input.listing).value;
    Shown(h, w, pid, n, input, target);
    var k := V.Find(s.members, target);
    var seen := s.members[k];
    assert seen in s.members;
    if V.Same(seen.votes, V.Revised(seen.votes, n.id, renew, s.now, n.ttl)) {
      JudgeOk(h, w, pid, n, seen, renew, s);
    } else {
      VoteOk(h, w, pid, n, seen, renew, s);
    }
  }

  /** After a committed vote the judge's snapshot carries the stamped row. */
  lemma WithRowOk(s: Snapshot, row: Member)
    requires DistinctIds(s.members) && exists m :: m in s.members && m.id == row.id
    ensures DistinctIds(WithRow(s, row).members) && row in WithRow(s, row).members
  {
    V.FindFinds(s.members, row.id);
    var k := V.Find(s.members, row.id);
    assert WithRow(s, row).members[k] == row;
  }

  /** An acknowledged write is a version of its row. */
  lemma AckIsCopy(h: Hash, w: World, n: Node, input: Input)
    requires input.Answer? && input.reply == Ok && Awaited(n.phase).Some? && Truthful(w, n, input)
    requires WriteOk(h, w, w.writes[Awaited(n.phase).value])
    ensures Copy(w, Stamped(w.writes[Awaited(n.phase).value].row))
  {
  }

  lemma JoinedOk(h: Hash, w: World, pid: nat, n: Node, row: Member, members: seq<Member>)
    requires Created(w, pid, n.id) && row.id == n.id && row.status == Active && Copy(w, Stamped(row))
    ensures EffectOk(h, w, pid, Effect(Joined(n, row, members), None))
  {
    var n' := Joined(n, row, members);
    RestOk(h, w, pid, n', Running);
    assert Goes(n', Running) == Effect(n', None);
  }

  ghost predicate AnswerReady(h: Hash, w: World, pid: nat, n: Node, input: Input) {
    && Ready(h, w, pid, n, input) && input.Answer?
    && Awaited(n.phase).Some? && WriteOk(h, w, w.writes[Awaited(n.phase).value])
  }

  lemma JoinAnsweredOk(h: Hash, w: World, pid: nat, n: Node, input: Input)
    requires AnswerReady(h, w, pid, n, input) && (n.phase.AwaitCreate? || n.phase.AwaitActivate?)
    ensures EffectOk(h, w, pid, Answered(h, n, pid, |w.writes|, input.reply, input.late))
  {
    FailOk(h, w, pid, n);
    if input.reply == Ok {
      AckIsCopy(h, w, n, input);
      if n.phase.AwaitActivate? {
        JoinedOk(h, w, pid, n, n.phase.row, n.phase.members);
      }
    }
  }

  lemma RefreshAnsweredOk(h: Hash, w: World, pid: nat, n: Node, input: Input)
    requires AnswerReady(h, w, pid, n, input) && (n.phase.AwaitBeat? || n.phase.AwaitCheck?)
    ensures EffectOk(h, w, pid, Answered(h, n, pid, |w.writes|, input.reply, input.late))
  {
    var stored := n.(self := Stamped(n.phase.row));
    if input.reply == Ok {
      AckIsCopy(h, w, n, input);
    }
    if n.phase.AwaitBeat? {
      match input.reply {
        case Ok => RestOk(h, w, pid, stored, Running);
        case Conflict => RestOk(h, w, pid, n, RelistBeat);
        case Error => RestOk(h, w, pid, n, Running);
      }
    } else {
      match input.reply {
        case Ok => CheckDoneOk(h, w, pid, stored, n.phase.ok && !input.late);
        case Conflict => RestOk(h, w, pid, n, RelistCheck(n.phase.ok && !input.late));
        case Error => CheckDoneOk(h, w, pid, n, false);
      }
    }
  }

  lemma VoteAnsweredOk(h: Hash, w: World, pid: nat, n: Node, input: Input)
    requires AnswerReady(h, w, pid, n, input) && n.phase.AwaitVote?
    ensures EffectOk(h, w, pid, Answered(h, n, pid, |w.writes|, input.reply, input.late))
  {
    var row, renew, s := n.phase.row, n.phase.renew, n.phase.snapshot;
    match input.reply {
      case Ok =>
        AckIsCopy(h, w, n, input);
        WithRowOk(s, Stamped(row));
        JudgeOk(h, w, pid, n, Stamped(row), renew, WithRow(s, Stamped(row)));
      case Conflict => RestOk(h, w, pid, n, Suspecting(row.id, renew));
      case Error => RestOk(h, w, pid, n, Running);
    }
  }

  lemma LastAnsweredOk(h: Hash, w: World, pid: nat, n: Node, input: Input)
    requires AnswerReady(h, w, pid, n, input) && (n.phase.AwaitDeath? || n.phase.AwaitLeave?)
    ensures EffectOk(h, w, pid, Answered(h, n, pid, |w.writes|, input.reply, input.late))
  {
    var e := Answered(h, n, pid, |w.writes|, input.reply, input.late);
    RestOk(h, w, pid, n, e.node.phase);
  }

  lemma IdleOk(h: Hash, w: World, pid: nat, n: Node)
    requires NodeOk(w, pid, n)
    ensures EffectOk(h, w, pid, Effect(n, None))
  {
  }

  lemma AnsweredOk(h: Hash, w: World, pid: nat, n: Node, input: Input)
    requires Ready(h, w, pid, n, input) && input.Answer?
    requires Awaited(n.phase).Some? ==> WriteOk(h, w, w.writes[Awaited(n.phase).value])
    ensures EffectOk(h, w, pid, Answered(h, n, pid, |w.writes|, input.reply, input.late))
  {
    if Awaited(n.phase).None? {
      IdleOk(h, w, pid, n);
    } else if n.phase.AwaitCreate? || n.phase.AwaitActivate? {
      JoinAnsweredOk(h, w, pid, n, input);
    } else if n.phase.AwaitBeat? || n.phase.AwaitCheck? {
      RefreshAnsweredOk(h, w, pid, n, input);
    } else if n.phase.AwaitVote? {
      VoteAnsweredOk(h, w, pid, n, input);
    } else {
      LastAnsweredOk(h, w, pid, n, input);
    }
  }

  lemma DepartOk(h: Hash, w: World, pid: nat, n: Node, killed: bool)
    requires Seated(w, pid, n)
    ensures EffectOk(h, w, pid, Depart(n, pid, |w.writes|, killed))
  {
    RestOk(h, w, pid, n, Stopped(false));
    assert Move(h, n.self, n.self.(status := Dead), Departing, n.id);
  }

  lemma ProbedOk(h: Hash, w: World, pid: nat, n: Node, input: Input)
    requires Seated(w, pid, n) && input.ProbeReply?
    ensures EffectOk(h, w, pid, Probed(n, input.target, input.token, input.good))
  {
    var e := Probed(n, input.target, input.token, input.good);
    RestOk(h, w, pid, e.node, e.node.phase);
  }

  lemma RefreshRelistOk(h: Hash, w: World, pid: nat, n: Node, input: Input, e: Effect)
    requires Ready(h, w, pid, n, input) && input.Relist? && !n.phase.ListToJoin? && !n.phase.Suspecting?
    requires e == Relisted(h, n, pid, |w.writes|, input.listing, input.clock)
    ensures EffectOk(h, w, pid, e)
  {
    if n.phase.RelistCheck? {
      CheckRelistedOk(h, w, pid, n, input);
      assert e == CheckRelisted(h, n, n.phase.ok, input.listing);
    } else if n.phase.RelistBeat? {
      BeatRelistedOk(h, w, pid, n, input);
      assert e == BeatRelisted(n, input.listing);
    } else {
      IdleOk(h, w, pid, n);
    }
  }

  lemma RelistOk(h: Hash, w: World, pid: nat, n: Node, input: Input, e: Effect)
    requires Ready(h, w, pid, n, input) && input.Relist?
    requires e == Relisted(h, n, pid, |w.writes|, input.listing, input.clock)
    ensures EffectOk(h, w, pid, e)
  {
    if n.phase.ListToJoin? {
      JoinListedOk(h, w, pid, n, input);
    } else if n.phase.Suspecting? {
      SuspectOk(h, w, pid, n, input);
    } else {
      RefreshRelistOk(h, w, pid, n, input, e);
    }
  }

  lemma LoopedOk(h: Hash, w: World, pid: nat, n: Node, input: Input)
    requires Ready(h, w, pid, n, input) && n.phase.Running?
    ensures EffectOk(h, w, pid, Looped(h, n, pid, |w.writes|, input))
  {
    match input {
      case Heartbeat(_, _) => BeatOk(h, w, pid, n, input);
      case PollView(_) => PollOk(h, w, pid, n, input);
      case ProbeTick(at, _, _) => SelfCheckOk(h, w, pid, n.(lastProbe := at), input, OnSchedule(n, at));
      case ProbeReply(_, _, _) => ProbedOk(h, w, pid, n, input);
      case Leave(killed) => DepartOk(h, w, pid, n, killed);
      case _ => IdleOk(h, w, pid, n);
    }
  }

  lemma ReactOk(h: Hash, w: World, pid: nat, n: Node, input: Input)
    requires Ready(h, w, pid, n, input)
    requires input.Answer? && Awaited(n.phase).Some? ==> WriteOk(h, w, w.writes[Awaited(n.phase).value])
    ensures EffectOk(h, w, pid, React(h, n, pid, |w.writes|, input))
  {
    if input.Answer? {
      AnsweredOk(h, w, pid, n, input);
    } else if input.Relist? {
      RelistOk(h, w, pid, n, input, React(h, n, pid, |w.writes|, input));
    } else if n.phase.Running? {
      LoopedOk(h, w, pid, n, input);
    } else {
      IdleOk(h, w, pid, n);
    }
  }

  lemma StartKeepsInv(h: Hash, w: World, pid: nat, id: MemberId, ttl: nat, limit: nat, gap: nat, clock: Time)
    requires Inv(h, w) && pid !in w.nodes
    ensures Inv(h, Enter(w, pid, id, ttl, limit, gap, clock)) && Grows(w, Enter(w, pid, id, ttl, limit, gap, clock))
  {
    var n := Newcomer(w, id, ttl, limit, gap, clock);
    MoveKeepsInv(h, w, pid, Effect(n, Some(Write(pid, id, n.self, Creating, InFlight))));
  }

  lemma StepKeepsInv(h: Hash, w: World, step: Step)
    requires Inv(h, w) && Enabled(w, step)
    ensures Inv(h, Next(h, w, step)) && Grows(w, Next(h, w, step))
  {
    match step
    case Start(pid, id, ttl, limit, gap, clock) => StartKeepsInv(h, w, pid, id, ttl, limit, gap, clock);
    case Act(pid, input) =>
      ReactOk(h, w, pid, w.nodes[pid], input);
      MoveKeepsInv(h, w, pid, React(h, w.nodes[pid], pid, |w.writes|, input));
    case Land(i) => LandKeepsInv(h, w, i);
  }
}
