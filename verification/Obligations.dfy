/** What every event obliges a node to do: exactly which row it writes, exactly when it stops,
    and where it goes next. Told from what the listing shows, not from how the node computes it. */
module Obligations {
  import opened Basics
  import opened Members
  import opened ProbeRing
  import V = Votes
  import D = Detector
  import L = DetectorLaws
  import opened Membership
  import opened MembershipLaws
  import opened Provenance
  import C = Conduct

  // ---- what a listing shows ------------------------------------------------------------------------

  /** The listing has the row `m` for `id`. */
  predicate Shows(s: Snapshot, id: MemberId, m: Member) {
    m in s.members && m.id == id
  }

  /** The votes that expire after `now`. */
  function Live(votes: Votes, now: Time): Votes {
    map voter | voter in votes && votes[voter] > now :: votes[voter]
  }

  /** The live votes with the voter's own renewed, or taken back. */
  function Recast(votes: Votes, voter: MemberId, renew: bool, now: Time, ttl: nat): Votes {
    if renew then Live(votes, now)[voter := now + ttl] else map v | v in votes && votes[v] > now && v != voter :: votes[v]
  }

  /** As many votes, and each of the old ones there with the same expiry; a vote at the zero
      time need not be there. */
  predicate Alike(before: Votes, after: Votes) {
    && |before| == |after|
    && forall voter :: voter in before ==>
         if voter in after then after[voter] == before[voter] else before[voter] == ZERO_TIME
  }

  /** Every ring neighbour of the row's member holds a vote in it that expires after `now`,
      and there is somebody besides it. */
  ghost predicate Agreed(h: Hash, ids: seq<MemberId>, row: Member, now: Time) {
    |ids| >= 2 && forall voter :: voter in Targets(h, ids, row.id) ==> voter in row.votes && row.votes[voter] > now
  }

  lemma FindShows(s: Snapshot, id: MemberId, m: Member)
    requires DistinctIds(s.members)
    ensures Shows(s, id, m) <==> V.Find(s.members, id) >= 0 && s.members[V.Find(s.members, id)] == m
  {
    V.FindFinds(s.members, id);
    if Shows(s, id, m) {
      var i :| 0 <= i < |s.members| && s.members[i] == m;
    }
  }

  lemma SameWords(votes: Votes, votes': Votes, voter: MemberId, renew: bool, now: Time, ttl: nat)
    ensures V.Revised(votes, voter, renew, now, ttl) == Recast(votes, voter, renew, now, ttl)
    ensures V.Unexpired(votes, now) == Live(votes, now)
    ensures V.Same(votes, votes') <==> Alike(votes, votes')
  {
  }

  // ---- which row is to be written ----------------------------------------------------------------------

  /** A joining process that finds its row still joining makes it active. */
  ghost predicate Enters(n: Node, input: Input, row: Member) {
    && n.phase == ListToJoin && input.Relist? && Shot(input.listing).Some?
    && exists m :: Shows(Shot(input.listing).value, n.id, m) && m.status == Joining
                   && row == m.(status := Active, aliveAt := input.clock)
  }

  /** The row `m` refreshed: alive now, without the votes expired at `now`. */
  function Refreshed(m: Member, clock: Time, now: Time): Member {
    m.(aliveAt := clock, votes := Live(m.votes, now))
  }

  /** A listing in time shows the node's own row, not dead. */
  ghost predicate Renews(n: Node, s: Snapshot, clock: Time, row: Member) {
    exists m :: Shows(s, n.id, m) && m.status != Dead && row == Refreshed(m, clock, s.now)
  }

  ghost predicate Beats(n: Node, input: Input, row: Member) {
    && n.phase == Running && input.Heartbeat? && Shot(input.listing).Some?
    && Renews(n, Shot(input.listing).value, input.clock, row)
  }

  /** A self-check refreshes the row whatever becomes of the listing, from the node's own copy
      if it came late or not at all. */
  ghost predicate ChecksItself(n: Node, input: Input, row: Member) {
    && n.phase == Running && input.ProbeTick?
    && match input.listing
       case ListError => row == n.self.(aliveAt := input.clock)
       case Slow(s) => row == Refreshed(n.self, input.clock, s.now)
       case Fast(s) => Renews(n, s, input.clock, row)
  }

  /** The pursued member is listed active, the node may vote on it, and its vote or withdrawal
      makes a difference. */
  ghost predicate VotesOn(h: Hash, n: Node, input: Input, row: Member) {
    && n.phase.Suspecting? && input.Relist? && Shot(input.listing).Some?
    && var s := Shot(input.listing).value;
       exists m :: Shows(s, n.phase.target, m) && MayVote(h, n, s, m)
                   && var votes := Recast(m.votes, n.id, n.phase.renew, s.now, n.ttl);
                      !Alike(m.votes, votes) && row == m.(votes := votes)
  }

  ghost predicate MayVote(h: Hash, n: Node, s: Snapshot, m: Member)
    requires n.phase.Suspecting?
  {
    m.status == Active && (n.phase.renew ==> n.id in Targets(h, ActiveIds(s.members), m.id))
  }

  /** The accused is listed active with nothing to change in its votes, the node being one of
      its neighbours, and all its neighbours agree. */
  ghost predicate CondemnsOnSight(h: Hash, n: Node, input: Input, target: MemberId, row: Member) {
    && n.phase == Suspecting(target, true) && input.Relist? && Shot(input.listing).Some?
    && var s := Shot(input.listing).value;
       exists m :: Shows(s, target, m) && MayVote(h, n, s, m)
                   && Alike(m.votes, Recast(m.votes, n.id, true, s.now, n.ttl))
                   && Agreed(h, ActiveIds(s.members), m, s.now) && row == m.(status := Dead)
  }

  /** The node's own vote on the accused is confirmed, and with it all neighbours agree. */
  ghost predicate CondemnsByVote(h: Hash, n: Node, input: Input, target: MemberId, row: Member) {
    && n.phase.AwaitVote? && n.phase.renew && n.phase.row.id == target && input.Answer? && input.reply == Ok
    && Agreed(h, ActiveIds(n.phase.snapshot.members), n.phase.row, n.phase.snapshot.now)
    && row == n.phase.row.(status := Dead, etag := n.phase.row.etag + 1)
  }

  ghost predicate Departs(n: Node, input: Input, row: Member) {
    n.phase == Running && input == Leave(false) && row == n.self.(status := Dead)
  }

  /** The event calls for writing `row`. */
  ghost predicate Calls(h: Hash, n: Node, input: Input, row: Member) {
    || Enters(n, input, row) || Beats(n, input, row) || ChecksItself(n, input, row) || Departs(n, input, row)
    || VotesOn(h, n, input, row)
    || CondemnsOnSight(h, n, input, row.id, row) || CondemnsByVote(h, n, input, row.id, row)
  }

  /** The write the event puts in flight is the one it calls for, and there is none otherwise. */
  ghost predicate WritesWhatIsCalled(h: Hash, n: Node, input: Input, e: Effect) {
    && (e.issue.Some? ==> Calls(h, n, input, e.issue.value.row))
    && forall row :: Calls(h, n, input, row) ==> e.issue.Some? && e.issue.value.row == row
  }

  // ---- event by event -----------------------------------------------------------------------------------------

  /** The rows of the event's listing have different identities, and a vote in flight is on an
      active row of its listing. */
  ghost predicate Sound(n: Node, input: Input) {
    && (Shot(ListingOf(input)).Some? ==> DistinctIds(Shot(ListingOf(input)).value.members))
    && (n.phase.AwaitVote? ==>
          && n.phase.row.status == Active && DistinctIds(n.phase.snapshot.members)
          && exists m :: m in n.phase.snapshot.members && m.id == n.phase.row.id && m.status == Active)
  }

  lemma JoinCalls(h: Hash, n: Node, pid: nat, w: nat, input: Input)
    requires Sound(n, input) && n.phase == ListToJoin && input.Relist?
    ensures WritesWhatIsCalled(h, n, input, JoinListed(n, pid, w, input.listing, input.clock))
  {
    if Shot(input.listing).Some? {
      forall m ensures Shows(Shot(input.listing).value, n.id, m) <==>
        (var k := V.Find(Shot(input.listing).value.members, n.id); k >= 0 && Shot(input.listing).value.members[k] == m)
      {
        FindShows(Shot(input.listing).value, n.id, m);
      }
    }
  }

  lemma BeatCalls(h: Hash, n: Node, pid: nat, w: nat, input: Input)
    requires Sound(n, input) && n.phase == Running && input.Heartbeat?
    ensures WritesWhatIsCalled(h, n, input, Beat(n, pid, w, input.listing, input.clock))
  {
    if Shot(input.listing).Some? {
      var s := Shot(input.listing).value;
      forall m ensures Shows(s, n.id, m) <==> V.Find(s.members, n.id) >= 0 && s.members[V.Find(s.members, n.id)] == m {
        FindShows(s, n.id, m);
      }
    }
  }

  lemma CheckCalls(h: Hash, n: Node, pid: nat, w: nat, input: Input, onSchedule: bool)
    requires Sound(n, input) && n.phase == Running && input.ProbeTick?
    ensures WritesWhatIsCalled(h, n, input, SelfCheck(n, pid, w, onSchedule, input.listing, input.clock))
  {
    if input.listing.Fast? {
      var s := input.listing.fast;
      forall m ensures Shows(s, n.id, m) <==> V.Find(s.members, n.id) >= 0 && s.members[V.Find(s.members, n.id)] == m {
        FindShows(s, n.id, m);
      }
    }
  }

  lemma DepartCalls(h: Hash, n: Node, pid: nat, w: nat, input: Input)
    requires n.phase == Running && input.Leave?
    ensures WritesWhatIsCalled(h, n, input, Depart(n, pid, w, input.killed))
  {
  }

  lemma QuietCalls(h: Hash, n: Node, input: Input, e: Effect)
    requires e.issue.None? && !(n.phase == Running && (input.Heartbeat? || input.ProbeTick? || input.Leave?))
    requires !(input.Relist? && (n.phase == ListToJoin || n.phase.Suspecting?)) && !(n.phase.AwaitVote? && input.Answer?)
    ensures WritesWhatIsCalled(h, n, input, e)
  {
  }

  lemma CondemnedIff(h: Hash, s: Snapshot, m: Member)
    requires DistinctIds(s.members) && m in s.members && m.status == Active
    ensures V.Condemned(h, s, m.id) <==> Agreed(h, ActiveIds(s.members), m, s.now)
  {
    if V.Condemned(h, s, m.id) {
      var row :| row in s.members && row.id == m.id && row.status == Active && V.Unanimous(h, ActiveIds(s.members), row, s.now);
      assert row == m;
    }
    if Agreed(h, ActiveIds(s.members), m, s.now) {
      assert V.Unanimous(h, ActiveIds(s.members), m, s.now);
    }
  }

  /** The pursued member's row, when the listing shows one the node may act on. */
  lemma Sighted(h: Hash, n: Node, input: Input, row: Member, s: Snapshot, m: Member)
    requires DistinctIds(s.members) && n.phase.Suspecting? && input.Relist? && Shot(input.listing) == Some(s)
    requires Shows(s, n.phase.target, m) && MayVote(h, n, s, m)
    ensures Calls(h, n, input, row) <==>
      var votes := Recast(m.votes, n.id, n.phase.renew, s.now, n.ttl);
      if Alike(m.votes, votes) then n.phase.renew && Agreed(h, ActiveIds(s.members), m, s.now) && row == m.(status := Dead)
      else row == m.(votes := votes)
  {
    forall x | Shows(s, n.phase.target, x) ensures x == m { }
  }

  lemma NotSighted(h: Hash, n: Node, input: Input, row: Member)
    requires n.phase.Suspecting? && input.Relist?
    requires Shot(input.listing).Some? ==>
      forall m :: Shows(Shot(input.listing).value, n.phase.target, m) ==> !MayVote(h, n, Shot(input.listing).value, m)
    ensures !Calls(h, n, input, row)
  {
  }

  lemma SuspectSighted(h: Hash, n: Node, pid: nat, w: nat, s: Snapshot, m: Member, input: Input)
    requires DistinctIds(s.members) && n.phase.Suspecting? && input.Relist? && Shot(input.listing) == Some(s)
    requires Shows(s, n.phase.target, m) && MayVote(h, n, s, m)
    ensures WritesWhatIsCalled(h, n, input, Suspect(h, n, pid, w, n.phase.target, n.phase.renew, input.listing))
  {
    var votes := Recast(m.votes, n.id, n.phase.renew, s.now, n.ttl);
    FindShows(s, n.phase.target, m);
    SameWords(m.votes, votes, n.id, n.phase.renew, s.now, n.ttl);
    CondemnedIff(h, s, m);
    forall row ensures Calls(h, n, input, row) <==>
      if Alike(m.votes, votes) then n.phase.renew && Agreed(h, ActiveIds(s.members), m, s.now) && row == m.(status := Dead)
      else row == m.(votes := votes)
    {
      Sighted(h, n, input, row, s, m);
    }
  }

  lemma SuspectCalls(h: Hash, n: Node, pid: nat, w: nat, input: Input)
    requires Sound(n, input) && n.phase.Suspecting? && input.Relist?
    ensures WritesWhatIsCalled(h, n, input, Suspect(h, n, pid, w, n.phase.target, n.phase.renew, input.listing))
  {
    if Shot(input.listing).Some? {
      var s := Shot(input.listing).value;
      if m :| Shows(s, n.phase.target, m) && MayVote(h, n, s, m) {
        SuspectSighted(h, n, pid, w, s, m, input);
        return;
      }
      var k := V.Find(s.members, n.phase.target);
      if k >= 0 {
        FindShows(s, n.phase.target, s.members[k]);
      }
    }
    forall row ensures !Calls(h, n, input, row) {
      NotSighted(h, n, input, row);
    }
  }

  // ---- the answer to a vote -----------------------------------------------------------------------------------

  lemma {:induction false} ReplacedRows(members: seq<Member>, k: nat, row: Member)
    requires k < |members| && members[k].id == row.id && members[k].status == Active && row.status == Active
    ensures ActiveRows(members[k := row]) == ActiveRows(members)
  {
    if k == 0 {
      assert members[0 := row][1..] == members[1..];
    } else {
      ReplacedRows(members[1..], k - 1, row);
      assert members[k := row][1..] == members[1..][k - 1 := row];
    }
  }

  /** Putting the confirmed row in place of the listed one leaves the ring as it was. */
  lemma SameRing(s: Snapshot, row: Member)
    requires DistinctIds(s.members) && row.status == Active && exists m :: m in s.members && m.id == row.id && m.status == Active
    ensures ActiveIds(WithRow(s, row).members) == ActiveIds(s.members) && WithRow(s, row).now == s.now
    ensures DistinctIds(WithRow(s, row).members) && row in WithRow(s, row).members
  {
    var m :| m in s.members && m.id == row.id && m.status == Active;
    FindShows(s, row.id, m);
    ReplacedRows(s.members, V.Find(s.members, row.id), row);
    WithRowOk(s, row);
  }

  lemma VoteAnswerCalls(h: Hash, n: Node, pid: nat, w: nat, input: Input)
    requires Sound(n, input) && n.phase.AwaitVote? && input.Answer?
    ensures WritesWhatIsCalled(h, n, input, Answered(h, n, pid, w, input.reply, input.late))
  {
    var row, s := Stamped(n.phase.row), n.phase.snapshot;
    if input.reply == Ok {
      SameRing(s, row);
      CondemnedIff(h, WithRow(s, row), row);
    }
  }

  lemma AnswerCalls(h: Hash, n: Node, pid: nat, w: nat, input: Input)
    requires Sound(n, input) && input.Answer?
    ensures WritesWhatIsCalled(h, n, input, Answered(h, n, pid, w, input.reply, input.late))
  {
    if n.phase.AwaitVote? {
      VoteAnswerCalls(h, n, pid, w, input);
    } else {
      QuietCalls(h, n, input, Answered(h, n, pid, w, input.reply, input.late));
    }
  }

  lemma RelistCalls(h: Hash, n: Node, pid: nat, w: nat, input: Input)
    requires Sound(n, input) && input.Relist?
    ensures WritesWhatIsCalled(h, n, input, Relisted(h, n, pid, w, input.listing, input.clock))
  {
    if n.phase == ListToJoin {
      JoinCalls(h, n, pid, w, input);
    } else if n.phase.Suspecting? {
      SuspectCalls(h, n, pid, w, input);
    } else {
      QuietCalls(h, n, input, Relisted(h, n, pid, w, input.listing, input.clock));
    }
  }

  lemma TickCalls(h: Hash, n: Node, pid: nat, w: nat, input: Input)
    requires Sound(n, input) && n.phase == Running && input.ProbeTick?
    ensures WritesWhatIsCalled(h, n, input, Looped(h, n, pid, w, input))
  {
    var n' := n.(lastProbe := input.at);
    var e := Looped(h, n, pid, w, input);
    CheckCalls(h, n', pid, w, input, OnSchedule(n, input.at));
    forall row ensures Calls(h, n, input, row) <==> Calls(h, n', input, row) { }
  }

  lemma LoopCalls(h: Hash, n: Node, pid: nat, w: nat, input: Input)
    requires Sound(n, input) && n.phase == Running
    ensures WritesWhatIsCalled(h, n, input, Looped(h, n, pid, w, input))
  {
    if input.Heartbeat? {
      BeatCalls(h, n, pid, w, input);
    } else if input.ProbeTick? {
      TickCalls(h, n, pid, w, input);
    } else if input.Leave? {
      DepartCalls(h, n, pid, w, input);
    } else {
      QuietCalls(h, n, input, Looped(h, n, pid, w, input));
    }
  }

  lemma ReactCalls(h: Hash, n: Node, pid: nat, w: nat, input: Input)
    requires Sound(n, input)
    ensures WritesWhatIsCalled(h, n, input, React(h, n, pid, w, input))
  {
    if input.Answer? {
      AnswerCalls(h, n, pid, w, input);
    } else if input.Relist? {
      RelistCalls(h, n, pid, w, input);
    } else if n.phase == Running {
      LoopCalls(h, n, pid, w, input);
    } else {
      QuietCalls(h, n, input, React(h, n, pid, w, input));
    }
  }

  // ---- laws of every run ----------------------------------------------------------------------------------------

  lemma SoundAt(h: Hash, ws: seq<World>, steps: seq<Step>, t: nat, pid: nat)
    requires Trace(h, ws, steps) && Acts(ws, steps, t, pid)
    ensures Sound(ws[t].nodes[pid], steps[t].input) && NodeOk(ws[t], pid, ws[t].nodes[pid])
  {
    StepAt(h, ws, steps, t);
    TraceInv(h, ws, steps, t);
    var n, input := ws[t].nodes[pid], steps[t].input;
    assert NodeOk(ws[t], pid, n);
    if Shot(ListingOf(input)).Some? {
      ListedIdsDiffer(ws[t].table, Shot(ListingOf(input)).value.members);
    }
  }

  /** Step `t` puts a write of `row` in flight, signed by its process and its member. */
  ghost predicate Written(ws: seq<World>, steps: seq<Step>, t: nat, row: Member)
    requires t < |steps| && steps[t].Act? && t + 1 < |ws|
  {
    var k := |ws[t].writes|;
    && |ws[t + 1].writes| == k + 1 && ws[t + 1].writes[..k] == ws[t].writes
    && steps[t].pid in ws[t].nodes
    && var wr := ws[t + 1].writes[k];
       wr.row == row && wr.pid == steps[t].pid && wr.author == ws[t].nodes[steps[t].pid].id && wr.outcome == InFlight
  }

  lemma EffectAt(h: Hash, ws: seq<World>, steps: seq<Step>, t: nat, pid: nat) returns (e: Effect)
    requires Trace(h, ws, steps) && Acts(ws, steps, t, pid)
    ensures e == React(h, ws[t].nodes[pid], pid, |ws[t].writes|, steps[t].input) && ws[t + 1] == Moved(ws[t], pid, e)
    ensures e.issue.Some? ==> e.issue.value.pid == pid && e.issue.value.author == ws[t].nodes[pid].id && e.issue.value.outcome == InFlight
  {
    StepAt(h, ws, steps, t);
    e := React(h, ws[t].nodes[pid], pid, |ws[t].writes|, steps[t].input);
    C.ReactConducts(h, ws[t].nodes[pid], pid, |ws[t].writes|, steps[t].input);
  }

  /** In every run a step of a process writes a row if and only if the event it receives calls
      for that row. */
  lemma WritesIff(h: Hash, ws: seq<World>, steps: seq<Step>, t: nat, pid: nat, row: Member)
    requires Trace(h, ws, steps) && Acts(ws, steps, t, pid)
    ensures Written(ws, steps, t, row) <==> Calls(h, ws[t].nodes[pid], steps[t].input, row)
  {
    SoundAt(h, ws, steps, t, pid);
    var e := EffectAt(h, ws, steps, t, pid);
    ReactCalls(h, ws[t].nodes[pid], pid, |ws[t].writes|, steps[t].input);
    MovedWrites(ws, steps, t, pid, e, row);
  }

  lemma MovedWrites(ws: seq<World>, steps: seq<Step>, t: nat, pid: nat, e: Effect, row: Member)
    requires Acts(ws, steps, t, pid) && ws[t + 1] == Moved(ws[t], pid, e)
    requires e.issue.Some? ==> e.issue.value.pid == pid && e.issue.value.author == ws[t].nodes[pid].id && e.issue.value.outcome == InFlight
    ensures Written(ws, steps, t, row) <==> e.issue.Some? && e.issue.value.row == row
  {
    if e.issue.Some? {
      assert ws[t + 1].writes[..|ws[t].writes|] == ws[t].writes;
    }
  }

  /** In every run a process declares a member dead, other than by leaving itself, if and only
      if it accuses that member and either a listing shows it active, with nothing to change
      in its votes and the process among its neighbours, or the process's own vote on it has
      just been confirmed, and in both cases every ring neighbour of it holds an unexpired vote. */
  lemma DeclaredDeadIff(h: Hash, ws: seq<World>, steps: seq<Step>, t: nat, pid: nat, target: MemberId, row: Member)
    requires Trace(h, ws, steps) && Acts(ws, steps, t, pid)
    ensures var n, input := ws[t].nodes[pid], steps[t].input;
      Written(ws, steps, t, row) && row.id == target && row.status == Dead && !input.Leave? <==>
        CondemnsOnSight(h, n, input, target, row) || CondemnsByVote(h, n, input, target, row)
  {
    var n, input := ws[t].nodes[pid], steps[t].input;
    SoundAt(h, ws, steps, t, pid);
    WritesIff(h, ws, steps, t, pid, row);
    OnlyVerdictsKill(h, n, input, row);
  }

  lemma OnlyVerdictsKill(h: Hash, n: Node, input: Input, row: Member)
    requires n.phase == Running ==> n.self.status == Active
    ensures Calls(h, n, input, row) && row.status == Dead && !input.Leave? ==>
      CondemnsOnSight(h, n, input, row.id, row) || CondemnsByVote(h, n, input, row.id, row)
    ensures forall target :: CondemnsOnSight(h, n, input, target, row) || CondemnsByVote(h, n, input, target, row) ==>
      row.id == target && row.status == Dead && !input.Leave?
  {
  }

  /** A write in flight takes effect when it lands if and only if the table still holds the
      version it was made from, or no row when it creates one; then the row is exactly the one
      written, one version later. */
  lemma LandsIff(h: Hash, ws: seq<World>, steps: seq<Step>, t: nat)
    requires Trace(h, ws, steps) && t < |steps| && steps[t].Land?
    ensures steps[t].w < |ws[t].writes| && ws[t].writes[steps[t].w].outcome == InFlight && t + 1 < |ws|
    ensures var row := ws[t].writes[steps[t].w].row; var table := ws[t].table;
      var current := if row.id in table then table[row.id].etag == row.etag else row.etag == 0;
      && ws[t + 1].table == (if current then table[row.id := row.(etag := row.etag + 1)] else table)
      && steps[t].w < |ws[t + 1].writes|
      && ws[t + 1].writes[steps[t].w].outcome == (if current then Committed else Refused)
      && ws[t + 1].nodes == ws[t].nodes
  {
    StepAt(h, ws, steps, t);
  }
}
