/** A run in which a vote outlives the neighbourhood it was cast in. */
module NeighbourRun {
  import opened Basics
  import opened Orders
  import opened Members
  import opened ProbeRing
  import V = Votes
  import D = Detector
  import opened Membership
  import opened MembershipLaws

  // ---- pieces of a run -----------------------------------------------------------------------------

  /** Every table can be listed. */
  lemma {:induction false} Listing(t: Table) returns (s: seq<Member>)
    requires Keyed(t)
    ensures Lists(t, s)
    decreases |t|
  {
    if t == map[] {
      s := [];
    } else {
      var id :| id in t;
      var rest := Listing(t - {id});
      s := rest + [t[id]];
      assert forall m :: m in rest ==> m.id != id;
    }
  }

  ghost function Last(ws: seq<World>): World
    requires ws != []
  {
    ws[|ws| - 1]
  }

  lemma Extend(h: Hash, ws: seq<World>, steps: seq<Step>, step: Step) returns (ws': seq<World>, steps': seq<Step>)
    requires Trace(h, ws, steps) && Enabled(Last(ws), step)
    ensures ws' == ws + [Next(h, Last(ws), step)] && steps' == steps + [step] && Trace(h, ws', steps')
  {
    ws', steps' := ws + [Next(h, Last(ws), step)], steps + [step];
    forall i | 0 <= i < |steps'| ensures Stepped(h, ws', steps', i) {
      if i < |steps| {
        assert Stepped(h, ws, steps, i);
      }
    }
  }

  lemma ExtendThrice(h: Hash, ws: seq<World>, steps: seq<Step>, a: Step, b: Step, c: Step)
    returns (ws': seq<World>, steps': seq<Step>)
    requires Trace(h, ws, steps) && Enabled(Last(ws), a)
    requires Enabled(Next(h, Last(ws), a), b) && Enabled(Next(h, Next(h, Last(ws), a), b), c)
    ensures Trace(h, ws', steps') && steps' == steps + [a, b, c]
    ensures |ws'| == |ws| + 3 && ws <= ws' && Last(ws') == Next(h, Next(h, Next(h, Last(ws), a), b), c)
  {
    ws', steps' := Extend(h, ws, steps, a);
    ws', steps' := Extend(h, ws', steps', b);
    ws', steps' := Extend(h, ws', steps', c);
  }

  /** The others are left as they are. */
  ghost predicate Spares(w: World, w': World, pid: nat) {
    && w'.nodes.Keys == w.nodes.Keys + {pid}
    && forall p :: p in w.nodes && p != pid ==> w'.nodes[p] == w.nodes[p]
  }

  function NewRow(id: MemberId): Member {
    Member(id, Active, 0, map[], 2)
  }

  /** A process has created its row. */
  ghost predicate Entered(w: World, w': World, pid: nat, id: MemberId, ttl: nat, limit: nat, gap: nat) {
    && w'.table == w.table[id := Member(id, Joining, 0, map[], 1)] && pid in w'.nodes && Spares(w, w', pid)
    && w'.nodes[pid] == Node(id, ttl, limit, gap, ZERO_TIME, ListToJoin, Member(id, Joining, 0, map[], 0), [], D.Fresh())
  }

  lemma Enters(h: Hash, ws: seq<World>, steps: seq<Step>, pid: nat, id: MemberId, ttl: nat, limit: nat, gap: nat)
    returns (ws': seq<World>, steps': seq<Step>)
    requires Trace(h, ws, steps) && pid !in Last(ws).nodes && id !in Last(ws).table
    ensures Trace(h, ws', steps') && Entered(Last(ws), Last(ws'), pid, id, ttl, limit, gap)
  {
    var j := |Last(ws).writes|;
    ws', steps' := Extend(h, ws, steps, Start(pid, id, ttl, limit, gap, 0));
    ws', steps' := Extend(h, ws', steps', Land(j));
    ws', steps' := Extend(h, ws', steps', Act(pid, Answer(Ok, false)));
  }

  ghost predicate JoinedAs(w: World, w': World, pid: nat, id: MemberId, ttl: nat, limit: nat, gap: nat) {
    && w'.table == w.table[id := NewRow(id)] && pid in w'.nodes && Spares(w, w', pid)
    && var n := w'.nodes[pid];
       && n.id == id && n.ttl == ttl && n.limit == limit && n.phase == Running && n.detector == D.Fresh()
       && n.gap == gap && n.lastProbe == ZERO_TIME
  }

  /** What an acknowledged write leaves behind. */
  ghost predicate Wrote(h: Hash, w: World, w': World, pid: nat, e: Effect) {
    && e.issue.Some? && w'.table == w.table[e.issue.value.row.id := Stamped(e.issue.value.row)]
    && Spares(w, w', pid) && pid in w'.nodes
    && w'.nodes[pid] == Answered(h, e.node, pid, |w.writes| + 1, Ok, false).node
  }

  /** A process acts, its write lands at once and is acknowledged. */
  lemma Writes(h: Hash, ws: seq<World>, steps: seq<Step>, pid: nat, input: Input, e: Effect)
    returns (ws': seq<World>, steps': seq<Step>)
    requires Trace(h, ws, steps) && Enabled(Last(ws), Act(pid, input))
    requires e == React(h, Last(ws).nodes[pid], pid, |Last(ws).writes|, input)
    requires e.issue.Some? && e.issue.value.outcome == InFlight && Accepts(Last(ws).table, e.issue.value.row)
    requires Awaited(e.node.phase) == Some(|Last(ws).writes|)
    requires Answered(h, e.node, pid, |Last(ws).writes| + 1, Ok, false).issue.None?
    ensures Trace(h, ws', steps') && Wrote(h, Last(ws), Last(ws'), pid, e)
    ensures |ws'| == |ws| + 3 && ws <= ws' && steps <= steps'
    ensures steps' == steps + [Act(pid, input), Land(|Last(ws).writes|), Act(pid, Answer(Ok, false))]
  {
    var j := |Last(ws).writes|;
    ActLandAnswer(h, Last(ws), pid, input, e);
    ws', steps' := ExtendThrice(h, ws, steps, Act(pid, input), Land(j), Act(pid, Answer(Ok, false)));
  }

  /** The three worlds a process passes through when its write lands at once. */
  lemma ActLandAnswer(h: Hash, w: World, pid: nat, input: Input, e: Effect)
    requires Enabled(w, Act(pid, input)) && e == React(h, w.nodes[pid], pid, |w.writes|, input)
    requires e.issue.Some? && e.issue.value.outcome == InFlight && Accepts(w.table, e.issue.value.row)
    requires Awaited(e.node.phase) == Some(|w.writes|)
    requires Answered(h, e.node, pid, |w.writes| + 1, Ok, false).issue.None?
    ensures var w1 := Next(h, w, Act(pid, input));
      && Enabled(w1, Land(|w.writes|))
      && var w2 := Next(h, w1, Land(|w.writes|));
         && Enabled(w2, Act(pid, Answer(Ok, false)))
         && Wrote(h, w, Next(h, w2, Act(pid, Answer(Ok, false))), pid, e)
  {
    var j := |w.writes|;
    var w1 := Moved(w, pid, e);
    assert w1.writes[j] == e.issue.value && w1.nodes[pid] == e.node && |w1.writes| == j + 1;
    var w2 := Landed(w1, j);
    assert w2.writes[j].outcome == Committed && w2.nodes == w1.nodes && |w2.writes| == j + 1;
  }

  /** The listing step of a joining process. */
  lemma JoinLists(h: Hash, w: World, pid: nat, n: Node, rows: seq<Member>)
    requires Keyed(w.table) && Lists(w.table, rows) && n.phase == ListToJoin
    requires n.id in w.table && w.table[n.id] == Member(n.id, Joining, 0, map[], 1)
    ensures React(h, n, pid, |w.writes|, Relist(Fast(Snapshot(rows, 0)), 0)) == Activation(n, pid, |w.writes|, rows)
  {
    V.FindListed(w.table, rows, n.id);
  }

  /** The write by which a joining process becomes active. */
  function Activation(n: Node, pid: nat, w: nat, rows: seq<Member>): Effect {
    var row := Member(n.id, Active, 0, map[], 1);
    Effect(n.(phase := AwaitActivate(w, row, rows)), Some(Write(pid, n.id, row, Activating, InFlight)))
  }

  /** Once it is confirmed the process has joined. */
  lemma ActivationJoins(
    h: Hash, w0: World, w: World, w': World, pid: nat, id: MemberId, ttl: nat, limit: nat, gap: nat, rows: seq<Member>)
    requires Entered(w0, w, pid, id, ttl, limit, gap)
    requires Wrote(h, w, w', pid, Activation(w.nodes[pid], pid, |w.writes|, rows))
    ensures JoinedAs(w0, w', pid, id, ttl, limit, gap)
  {
    assert w.table[id := NewRow(id)] == w0.table[id := NewRow(id)];
  }

  lemma ReachedIsKeyed(h: Hash, ws: seq<World>, steps: seq<Step>)
    requires Trace(h, ws, steps)
    ensures Keyed(Last(ws).table)
  {
    TraceInv(h, ws, steps, |ws| - 1);
  }

  /** Any process can join as a member that has no row yet. */
  lemma Joins(h: Hash, ws: seq<World>, steps: seq<Step>, pid: nat, id: MemberId, ttl: nat, limit: nat, gap: nat)
    returns (ws': seq<World>, steps': seq<Step>)
    requires Trace(h, ws, steps) && pid !in Last(ws).nodes && id !in Last(ws).table
    ensures Trace(h, ws', steps') && JoinedAs(Last(ws), Last(ws'), pid, id, ttl, limit, gap) && Keyed(Last(ws').table)
  {
    ReachedIsKeyed(h, ws, steps);
    ws', steps' := Enters(h, ws, steps, pid, id, ttl, limit, gap);
    var w := Last(ws');
    var n := w.nodes[pid];
    var rows := Listing(w.table);
    JoinLists(h, w, pid, n, rows);
    ws', steps' := Writes(h, ws', steps', pid, Relist(Fast(Snapshot(rows, 0)), 0), Activation(n, pid, |w.writes|, rows));
    ActivationJoins(h, Last(ws), w, Last(ws'), pid, id, ttl, limit, gap, rows);
    ReachedIsKeyed(h, ws', steps');
  }

  /** A self-check that goes well, on a row without votes. */
  lemma Checks(h: Hash, ws: seq<World>, steps: seq<Step>, pid: nat, rows: seq<Member>, now: Time, at: Time)
    returns (ws': seq<World>, steps': seq<Step>)
    requires Trace(h, ws, steps) && Keyed(Last(ws).table) && Lists(Last(ws).table, rows) && pid in Last(ws).nodes
    requires Last(ws).nodes[pid].phase == Running && Last(ws).nodes[pid].id in Last(ws).table
    requires OnSchedule(Last(ws).nodes[pid], at)
    requires var self := Last(ws).table[Last(ws).nodes[pid].id]; self.status == Active && self.votes == map[]
    ensures Trace(h, ws', steps') && ws <= ws' && Spares(Last(ws), Last(ws'), pid)
    ensures |ws'| == |ws| + 3 && |steps'| == |steps| + 3 && steps <= steps' && pid in Last(ws').nodes
    ensures steps'[|steps|] == Act(pid, ProbeTick(at, Fast(Snapshot(rows, now)), 0))
    ensures steps'[|steps| + 2] == Act(pid, Answer(Ok, false))
    ensures var n, w, w' := Last(ws).nodes[pid], Last(ws), Last(ws');
      && w'.table == w.table[n.id := Renewed(w.table[n.id])]
      && w'.nodes[pid] == HasChecked(h, n, w.table[n.id], rows, at)
  {
    var w, n := Last(ws), Last(ws).nodes[pid];
    CheckEffect(h, w, n, pid, rows, now, at);
    ws', steps' := Writes(h, ws, steps, pid, ProbeTick(at, Fast(Snapshot(rows, now)), 0),
                          Check(n, pid, |w.writes|, w.table[n.id], rows, now, at));
  }

  /** The row of a member after its refresh. */
  function Renewed(row: Member): Member {
    Stamped(row.(aliveAt := 0))
  }

  /** The write of a self-check on schedule, on a listing that came in time. */
  function Check(n: Node, pid: nat, w: nat, self: Member, rows: seq<Member>, now: Time, at: Time): Effect {
    var row := self.(aliveAt := 0);
    Effect(n.(lastProbe := at, peers := ActiveIds(rows), self := self, phase := AwaitCheck(w, row, true)),
           Some(Write(pid, n.id, row, Refreshing(Some(now)), InFlight)))
  }

  function HasChecked(h: Hash, n: Node, self: Member, rows: seq<Member>, at: Time): Node {
    var peers := ActiveIds(rows);
    n.(lastProbe := at, peers := peers, self := Renewed(self), phase := Running,
       detector := D.Ticked(n.detector, true, Targets(h, peers, n.id)))
  }

  /** Everything the self-check needs to go through. */
  lemma CheckEffect(h: Hash, w: World, n: Node, pid: nat, rows: seq<Member>, now: Time, at: Time)
    requires Keyed(w.table) && Lists(w.table, rows) && n.phase == Running && n.id in w.table && OnSchedule(n, at)
    requires w.table[n.id].status == Active && w.table[n.id].votes == map[]
    ensures var self := w.table[n.id]; var e := Check(n, pid, |w.writes|, self, rows, now, at);
      && React(h, n, pid, |w.writes|, ProbeTick(at, Fast(Snapshot(rows, now)), 0)) == e
      && Accepts(w.table, e.issue.value.row) && e.issue.value.row.id == n.id
      && Answered(h, e.node, pid, |w.writes| + 1, Ok, false) == Effect(HasChecked(h, n, self, rows, at), None)
  {
    var self := w.table[n.id];
    V.FindListed(w.table, rows, n.id);
    assert V.Unexpired(self.votes, now) == map[];
    assert self.(aliveAt := 0) == self.(aliveAt := 0, votes := V.Unexpired(self.votes, now));
  }

  // ---- a ring in order of identity ---------------------------------------------------------------------

  /** A hash under which all points collide. */
  function Zero(parts: seq<string>): uint64 { 0 }

  const A := MemberId("a", "1")
  const B := MemberId("b", "1")
  const C := MemberId("c", "1")
  const E := MemberId("e", "1")

  lemma ZeroRing(ids: seq<MemberId>)
    requires Sorted(IdLess, ids)
    ensures RingOf(Zero, ids) == PointsOf(Zero, ids)
  {
    ProbeOrder();
    TotalConnects(ProbeLess, PointsOf(Zero, ids));
    SortSorts(ProbeLess, PointsOf(Zero, ids));
    assert Sorted(ProbeLess, PointsOf(Zero, ids));
    SortedIsUnique(ProbeLess, PointsOf(Zero, ids), RingOf(Zero, ids));
  }

  lemma Alphabet()
    ensures IdLess(A, B) && IdLess(A, C) && IdLess(A, E) && IdLess(B, C) && IdLess(B, E) && IdLess(C, E)
    ensures !IdLess(B, A) && !IdLess(C, A) && !IdLess(E, A) && !IdLess(C, B) && !IdLess(E, B) && !IdLess(E, C)
  {
    assert StringLess("a", "b") && StringLess("a", "c") && StringLess("a", "e");
    assert StringLess("b", "c") && StringLess("b", "e") && StringLess("c", "e");
  }

  lemma RingOfThree()
    ensures Sorted(IdLess, [A, C, E]) && Distinct([A, C, E])
    ensures C in Targets(Zero, [A, C, E], A) && A in Targets(Zero, [A, C, E], C) && E in Targets(Zero, [A, C, E], C)
  {
    Alphabet();
    ZeroRing([A, C, E]);
    var ring := RingOf(Zero, [A, C, E]);
    assert ring[0].id == A && ring[1].id == C && ring[2].id == E && |ring| == 3;
    assert Position(ring, A) == 0;
    assert ring[1..][0].id == C && Position(ring[1..], C) == 0 && Position(ring, C) == 1;
  }

  lemma RingOfFour()
    ensures Sorted(IdLess, [A, B, C, E]) && Distinct([A, B, C, E])
    ensures C !in Targets(Zero, [A, B, C, E], A)
  {
    Alphabet();
    ZeroRing([A, B, C, E]);
    var ring := RingOf(Zero, [A, B, C, E]);
    assert ring[0].id == A && ring[1].id == B && ring[3].id == E && |ring| == 4;
    assert Position(ring, A) == 0;
  }

  /** The active identities of a listing, once their order is known. */
  lemma ActiveAre(members: seq<Member>, ids: seq<MemberId>)
    requires DistinctIds(members) && Sorted(IdLess, ids) && Distinct(ids)
    requires forall id :: id in ids <==> exists m :: m in members && m.status == Active && m.id == id
    ensures ActiveIds(members) == ids
  {
    IdOrder();
    TotalConnects(IdLess, ids);
    ActiveIdsHold(members);
    SortSorts(IdLess, ActiveRows(members));
    var found := ActiveIds(members);
    DistinctCounts(ids);
    DistinctCounts(found);
    forall id ensures multiset(ids)[id] == multiset(found)[id] {
      assert id in ids <==> id in multiset(ids);
      assert id in found <==> id in multiset(found);
    }
    SortedIsUnique(IdLess, ids, found);
  }

  // ---- the run -----------------------------------------------------------------------------------------

  /** A node of `A` with a vote lifetime of ten, a limit of one failure and a gap of one,
      that took its latest tick at `last`. */
  predicate IsA(n: Node, last: Time) {
    n.id == A && n.ttl == 10 && n.limit == 1 && n.gap == 1 && n.lastProbe == last
  }

  /** Process 0 runs as `A`, idle. */
  predicate Runs(w: World, detector: D.State, last: Time) {
    0 in w.nodes && IsA(w.nodes[0], last) && w.nodes[0].phase == Running && w.nodes[0].detector == detector
  }

  lemma ThreeJoin() returns (ws: seq<World>, steps: seq<Step>)
    ensures Trace(Zero, ws, steps) && Runs(Last(ws), D.Fresh(), 0) && 3 !in Last(ws).nodes
    ensures Last(ws).table == map[A := NewRow(A), C := NewRow(C), E := NewRow(E)]
  {
    ws, steps := [EMPTY], [];
    ws, steps := Joins(Zero, ws, steps, 0, A, 10, 1, 1);
    ws, steps := Joins(Zero, ws, steps, 1, C, 10, 1, 1);
    ws, steps := Joins(Zero, ws, steps, 2, E, 10, 1, 1);
  }

  ghost predicate HoldsRows(t: Table, ids: seq<MemberId>) {
    && (forall id :: id in t <==> id in ids)
    && forall id :: id in t ==> t[id].id == id && t[id].status == Active
  }

  lemma RowReplaced(t: Table, t': Table, ids: seq<MemberId>, row: Member)
    requires HoldsRows(t, ids) && row.id in ids && row.status == Active && t' == t[row.id := row]
    ensures HoldsRows(t', ids)
  {
  }

  lemma ListedIds(t: Table, rows: seq<Member>, ids: seq<MemberId>)
    requires HoldsRows(t, ids) && Lists(t, rows) && Sorted(IdLess, ids) && Distinct(ids)
    ensures ActiveIds(rows) == ids
  {
    ListedIdsDiffer(t, rows);
    forall id ensures id in ids <==> exists m :: m in rows && m.status == Active && m.id == id {
      if id in ids {
        assert t[id] in rows;
      }
    }
    ActiveAre(rows, ids);
  }

  /** `A` has probed its neighbour `C`. */
  lemma Probes() returns (ws: seq<World>, steps: seq<Step>)
    ensures Trace(Zero, ws, steps) && 3 !in Last(ws).nodes && 0 in Last(ws).nodes
    ensures var n := Last(ws).nodes[0];
      && Runs(Last(ws), n.detector, 1) && n.peers == [A, C, E]
      && C in n.detector.tasks && n.detector.health == D.Healthy
    ensures HoldsRows(Last(ws).table, [A, C, E]) && Last(ws).table[C] == NewRow(C) && Last(ws).table[A].votes == map[]
  {
    ws, steps := ThreeJoin();
    var t := Last(ws).table;
    var rows := Listing(t);
    RingOfThree();
    JoinedRows(t);
    ListedIds(t, rows, [A, C, E]);
    FirstTick(Targets(Zero, [A, C, E], A), C);
    ws, steps := Checks(Zero, ws, steps, 0, rows, 0, 1);
    RowReplaced(t, Last(ws).table, [A, C, E], Renewed(NewRow(A)));
  }

  lemma JoinedRows(t: Table)
    requires t == map[A := NewRow(A), C := NewRow(C), E := NewRow(E)]
    ensures Keyed(t) && HoldsRows(t, [A, C, E]) && t[A] == NewRow(A) && t[C] == NewRow(C)
  {
  }

  /** The first self-check launches a probe of every neighbour. */
  lemma FirstTick(targets: seq<MemberId>, target: MemberId)
    requires target in targets
    ensures var s := D.Ticked(D.Fresh(), true, targets); target in s.tasks && s.health == D.Healthy
  {
    D.LaunchKeepsOld(D.Reconciled(D.Fresh(), targets), targets);
  }

  /** The vote of `A` on `C`, on a listing of the three. */
  lemma VoteEffect(w: World, n: Node, rows: seq<Member>)
    requires HoldsRows(w.table, [A, C, E]) && Lists(w.table, rows) && w.table[C] == NewRow(C)
    requires n.id == A && n.ttl == 10 && n.phase == Suspecting(C, true)
    ensures React(Zero, n, 0, |w.writes|, Relist(Fast(Snapshot(rows, 0)), 0)) == Ballot(w, n, rows)
  {
    CIsListed(w, rows);
    FirstVote();
    SuspectVotes(Zero, n, 0, |w.writes|, C, Snapshot(rows, 0), NewRow(C), map[A := 10]);
  }

  lemma FirstVote()
    ensures V.Revised(map[], A, true, 0, 10) == map[A := 10] && !V.Same(map[], map[A := 10])
  {
  }

  /** The listing of the three shows `C` as a neighbour of `A`. */
  lemma CIsListed(w: World, rows: seq<Member>)
    requires HoldsRows(w.table, [A, C, E]) && Lists(w.table, rows) && w.table[C] == NewRow(C)
    ensures V.Find(rows, C) >= 0 && rows[V.Find(rows, C)] == NewRow(C) && A in Targets(Zero, ActiveIds(rows), C)
  {
    RingOfThree();
    ListedIds(w.table, rows, [A, C, E]);
    V.FindListed(w.table, rows, C);
  }

  /** A node that suspects a neighbour whose row lacks its vote votes. */
  lemma SuspectVotes(
    h: Hash, n: Node, pid: nat, w: nat, target: MemberId, s: Snapshot, seen: Member, votes: Votes)
    requires var k := V.Find(s.members, target); k >= 0 && s.members[k] == seen && seen.status == Active
    requires n.id in Targets(h, ActiveIds(s.members), target)
    requires votes == V.Revised(seen.votes, n.id, true, s.now, n.ttl) && !V.Same(seen.votes, votes)
    ensures var row := seen.(votes := votes);
      Suspect(h, n, pid, w, target, true, Fast(s))
      == Effect(n.(phase := AwaitVote(w, row, true, s)), Some(Write(pid, n.id, row, Voting(true, s, n.ttl), InFlight)))
  {
  }

  /** One vote of two is not enough. */
  lemma VoteIsNotVerdict(w: World, rows: seq<Member>)
    requires HoldsRows(w.table, [A, C, E]) && Lists(w.table, rows) && w.table[C] == NewRow(C)
    ensures var row := Stamped(NewRow(C).(votes := map[A := 10])); !V.Condemned(Zero, WithRow(Snapshot(rows, 0), row), C)
  {
    var row := Stamped(NewRow(C).(votes := map[A := 10]));
    var s := WithRow(Snapshot(rows, 0), row);
    ListedIdsDiffer(w.table, rows);
    V.FindListed(w.table, rows, C);
    assert w.table[C] in rows;
    WithRowOk(Snapshot(rows, 0), row);
    forall id ensures id in [A, C, E] <==> exists m :: m in s.members && m.status == Active && m.id == id {
      StillListed(w.table, rows, row, id);
    }
    RingOfThree();
    ActiveAre(s.members, [A, C, E]);
    forall m | m in s.members && m.id == C ensures m == row {
      assert row in s.members;
    }
  }

  /** The vote is confirmed, and the node goes back to its loop. */
  lemma VoteAck(w: World, n: Node, rows: seq<Member>)
    requires HoldsRows(w.table, [A, C, E]) && Lists(w.table, rows) && w.table[C] == NewRow(C)
    ensures var row := NewRow(C).(votes := map[A := 10]);
      var waiting := n.(phase := AwaitVote(|w.writes|, row, true, Snapshot(rows, 0)));
      Answered(Zero, waiting, 0, |w.writes| + 1, Ok, false) == Goes(waiting, Running)
  {
    VoteIsNotVerdict(w, rows);
  }

  lemma StillListed(t: Table, rows: seq<Member>, row: Member, id: MemberId)
    requires HoldsRows(t, [A, C, E]) && Lists(t, rows) && row.id == C && row.status == Active
    ensures id in [A, C, E] <==>
      exists m :: m in WithRow(Snapshot(rows, 0), row).members && m.status == Active && m.id == id
  {
    var s := WithRow(Snapshot(rows, 0), row);
    V.FindListed(t, rows, C);
    var k := V.Find(rows, C);
    assert s.members[k] == row;
    if id in [A, C, E] && id != C {
      assert t[id] in rows;
      var j :| 0 <= j < |rows| && rows[j] == t[id];
      assert s.members[j] == t[id];
    }
    if m :| m in s.members && m.status == Active && m.id == id {
      assert m == row || m in rows;
    }
  }

  /** With a limit of one, a failed probe makes a healthy node suspect. */
  lemma FailureAccuses(n: Node)
    requires n.phase == Running && n.limit == 1 && C in n.detector.tasks && n.detector.health == D.Healthy
    ensures var n' := Probed(n, C, n.detector.tasks[C], false).node;
      n' == n.(detector := n'.detector, phase := Suspecting(C, true))
  {
  }

  /** A probe of `C` fails. */
  lemma Suspects() returns (ws: seq<World>, steps: seq<Step>)
    ensures Trace(Zero, ws, steps) && 3 !in Last(ws).nodes && 0 in Last(ws).nodes
    ensures var n := Last(ws).nodes[0];
      IsA(n, 1) && n.phase == Suspecting(C, true) && n.peers == [A, C, E]
    ensures HoldsRows(Last(ws).table, [A, C, E]) && Last(ws).table[C] == NewRow(C) && Last(ws).table[A].votes == map[]
  {
    ws, steps := Probes();
    var w := Last(ws);
    var n := w.nodes[0];
    FailureAccuses(n);
    ws, steps := Extend(Zero, ws, steps, Act(0, ProbeReply(C, n.detector.tasks[C], false)));
    assert Last(ws).table == w.table && Last(ws).nodes.Keys == w.nodes.Keys;
  }

  /** The vote that `A` casts on a listing of the three. */
  function Ballot(w: World, n: Node, rows: seq<Member>): Effect {
    var s, row := Snapshot(rows, 0), NewRow(C).(votes := map[A := 10]);
    Effect(n.(phase := AwaitVote(|w.writes|, row, true, s)), Some(Write(0, A, row, Voting(true, s, 10), InFlight)))
  }

  /** Everything the vote needs to go through. */
  lemma BallotCounts(w: World, n: Node, rows: seq<Member>)
    requires HoldsRows(w.table, [A, C, E]) && Lists(w.table, rows) && w.table[C] == NewRow(C)
    requires n.id == A && n.ttl == 10 && n.phase == Suspecting(C, true)
    ensures React(Zero, n, 0, |w.writes|, Relist(Fast(Snapshot(rows, 0)), 0)) == Ballot(w, n, rows)
    ensures Accepts(w.table, Ballot(w, n, rows).issue.value.row)
    ensures Awaited(Ballot(w, n, rows).node.phase) == Some(|w.writes|)
    ensures Answered(Zero, Ballot(w, n, rows).node, 0, |w.writes| + 1, Ok, false) == Goes(Ballot(w, n, rows).node, Running)
    ensures Ballot(w, n, rows).issue.value.outcome == InFlight
  {
    VoteEffect(w, n, rows);
    VoteAck(w, n, rows);
  }

  /** `A` votes, and its vote is confirmed. */
  lemma Votes() returns (ws: seq<World>, steps: seq<Step>)
    ensures Trace(Zero, ws, steps) && 3 !in Last(ws).nodes && 0 in Last(ws).nodes
    ensures Runs(Last(ws), Last(ws).nodes[0].detector, 1) && Last(ws).nodes[0].peers == [A, C, E]
    ensures HoldsRows(Last(ws).table, [A, C, E]) && Last(ws).table[A].votes == map[]
    ensures Last(ws).table[C].votes == map[A := 10]
  {
    ws, steps := Suspects();
    var w, n := Last(ws), Last(ws).nodes[0];
    var rows := Listing(w.table);
    BallotCounts(w, n, rows);
    ws, steps := Sends(ws, steps, rows, n);
    BallotIsIn(w, Last(ws), n, rows);
  }

  lemma Sends(ws: seq<World>, steps: seq<Step>, rows: seq<Member>, n: Node) returns (ws': seq<World>, steps': seq<Step>)
    requires Trace(Zero, ws, steps) && 0 in Last(ws).nodes && n == Last(ws).nodes[0] && Lists(Last(ws).table, rows)
    requires HoldsRows(Last(ws).table, [A, C, E]) && Last(ws).table[C] == NewRow(C)
    requires IsA(n, 1) && n.phase == Suspecting(C, true)
    ensures Trace(Zero, ws', steps') && Wrote(Zero, Last(ws), Last(ws'), 0, Ballot(Last(ws), n, rows))
  {
    BallotCounts(Last(ws), n, rows);
    ws', steps' := Writes(Zero, ws, steps, 0, Relist(Fast(Snapshot(rows, 0)), 0), Ballot(Last(ws), n, rows));
  }

  /** The world once the vote is confirmed. */
  lemma BallotIsIn(w: World, w': World, n: Node, rows: seq<Member>)
    requires HoldsRows(w.table, [A, C, E]) && IsA(n, 1) && n.peers == [A, C, E] && w.table[A].votes == map[]
    requires Wrote(Zero, w, w', 0, Ballot(w, n, rows))
    requires Answered(Zero, Ballot(w, n, rows).node, 0, |w.writes| + 1, Ok, false) == Goes(Ballot(w, n, rows).node, Running)
    ensures 0 in w'.nodes && Runs(w', w'.nodes[0].detector, 1) && w'.nodes[0].peers == [A, C, E]
    ensures HoldsRows(w'.table, [A, C, E]) && w'.table[A].votes == map[] && w'.table[C].votes == map[A := 10]
  {
    var row := Stamped(NewRow(C).(votes := map[A := 10]));
    assert w'.table == w.table[C := row];
    RowReplaced(w.table, w'.table, [A, C, E], row);
  }

  /** A view poll by a member whose row is active. */
  lemma Polls(h: Hash, ws: seq<World>, steps: seq<Step>, pid: nat, rows: seq<Member>, now: Time)
    returns (ws': seq<World>, steps': seq<Step>)
    requires Trace(h, ws, steps) && Keyed(Last(ws).table) && Lists(Last(ws).table, rows) && pid in Last(ws).nodes
    requires Last(ws).nodes[pid].phase == Running && Last(ws).nodes[pid].id in Last(ws).table
    requires Last(ws).table[Last(ws).nodes[pid].id].status == Active
    ensures Trace(h, ws', steps') && steps' == steps + [Act(pid, PollView(Fast(Snapshot(rows, now))))]
    ensures ws <= ws' && |ws'| == |ws| + 1 && Last(ws').table == Last(ws).table && pid in Last(ws').nodes
    ensures var n := Last(ws).nodes[pid]; var peers := ActiveIds(rows);
      Last(ws').nodes[pid] == n.(peers := peers, detector := D.Polled(n.detector, Targets(h, peers, n.id)))
  {
    PollEffect(h, Last(ws), Last(ws).nodes[pid], pid, rows, now);
    ws', steps' := Extend(h, ws, steps, Act(pid, PollView(Fast(Snapshot(rows, now)))));
  }

  lemma PollEffect(h: Hash, w: World, n: Node, pid: nat, rows: seq<Member>, now: Time)
    requires Keyed(w.table) && Lists(w.table, rows) && n.phase == Running && n.id in w.table && w.table[n.id].status == Active
    ensures var peers := ActiveIds(rows);
      React(h, n, pid, |w.writes|, PollView(Fast(Snapshot(rows, now))))
      == Effect(n.(peers := peers, detector := D.Polled(n.detector, Targets(h, peers, n.id))), None)
  {
    V.FindListed(w.table, rows, n.id);
  }

  /** After a self-check only neighbours are probed. */
  lemma OnlyTargetsAreProbed(s: D.State, targets: seq<MemberId>, t: MemberId)
    requires t !in targets
    ensures t !in D.Ticked(s, true, targets).tasks
  {
    D.LaunchKeepsOld(D.Reconciled(D.Checked(s, true), targets), targets);
  }

  /** `B` joins between `A` and `C`. */
  lemma Separates() returns (ws: seq<World>, steps: seq<Step>)
    ensures Trace(Zero, ws, steps) && 0 in Last(ws).nodes
    ensures Runs(Last(ws), Last(ws).nodes[0].detector, 1) && Last(ws).nodes[0].peers == [A, C, E]
    ensures HoldsRows(Last(ws).table, [A, B, C, E]) && Last(ws).table[A].votes == map[]
    ensures Last(ws).table[C].votes == map[A := 10]
  {
    ws, steps := Votes();
    ws, steps := Joins(Zero, ws, steps, 3, B, 10, 1, 1);
  }

  /** The view and the self-check of `A` are processed at steps `i` to `i + 3`. */
  ghost predicate Refreshes(steps: seq<Step>, i: nat, rows: seq<Member>) {
    && |steps| == i + 4
    && steps[i] == Act(0, PollView(Fast(Snapshot(rows, 5))))
    && steps[i + 1] == Act(0, ProbeTick(2, Fast(Snapshot(rows, 5)), 0))
    && steps[i + 3] == Act(0, Answer(Ok, false))
  }

  /** The vote outlives the neighbourhood: `A` votes on its neighbour `C`, `B` joins between
      them, `A` processes a fresh view and a good self-check, `C` is no longer a neighbour and
      no longer probed, and the unexpired vote of `A` is still in the active row of `C`. */
  lemma FormerNeighbourKeepsVote() returns (ws: seq<World>, steps: seq<Step>, i: nat, rows: seq<Member>)
    ensures Trace(Zero, ws, steps) && Refreshes(steps, i, rows) && Lists(ws[i].table, rows)
    ensures 0 in ws[i].nodes && C in Targets(Zero, ws[i].nodes[0].peers, A)
    ensures 0 in Last(ws).nodes && Runs(Last(ws), Last(ws).nodes[0].detector, 2)
    ensures C !in Targets(Zero, Last(ws).nodes[0].peers, A) && C !in Last(ws).nodes[0].detector.tasks
    ensures C in Last(ws).table && Last(ws).table[C].status == Active
    ensures A in Last(ws).table[C].votes && Last(ws).table[C].votes[A] > 5
  {
    ws, steps := Separates();
    RingOfThree();
    RingOfFour();
    i := |steps|;
    rows := Listing(Last(ws).table);
    ListedIds(Last(ws).table, rows, [A, B, C, E]);
    ws, steps := Polls(Zero, ws, steps, 0, rows, 5);
    OnlyTargetsAreProbed(Last(ws).nodes[0].detector, Targets(Zero, [A, B, C, E], A), C);
    ws, steps := Checks(Zero, ws, steps, 0, rows, 5, 2);
  }
}
