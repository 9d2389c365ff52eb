/** Suspicion votes: which are live, when two vote maps count as the same, and
    when a snapshot condemns a member. */
module Votes {
  import opened Basics
  import opened Orders
  import M = Members
  import opened ProbeRing

  /** Votes whose expiry lies after `now`. */
  function Unexpired(votes: M.Votes, now: Time): M.Votes {
    map voter | voter in votes && votes[voter] > now :: votes[voter]
  }

  /** The vote map a voter proposes for the row it read. */
  function Revised(votes: M.Votes, voter: M.MemberId, renew: bool, now: Time, ttl: nat): M.Votes {
    if renew then Unexpired(votes, now)[voter := now + ttl] else Unexpired(votes, now) - {voter}
  }

  /** `sameSuspectVotes`: a missing entry on the right reads as the zero time. */
  predicate Same(left: M.Votes, right: M.Votes) {
    && |left| == |right|
    && forall voter :: voter in left ==>
      (if voter in right then right[voter] else ZERO_TIME) == left[voter]
  }

  /** Rows of a snapshot that name `id`: the first one, or none. */
  function Find(members: seq<M.Member>, id: M.MemberId): int
    ensures -1 <= Find(members, id) < |members|
  {
    if members == [] then -1
    else if members[0].id == id then 0
    else if Find(members[1..], id) < 0 then -1 else 1 + Find(members[1..], id)
  }

  lemma {:induction false} FindFinds(members: seq<M.Member>, id: M.MemberId)
    ensures Find(members, id) >= 0 ==> members[Find(members, id)].id == id
    ensures Find(members, id) < 0 ==> forall m :: m in members ==> m.id != id
    ensures forall k :: 0 <= k < Find(members, id) ==> members[k].id != id
  {
    if members != [] && members[0].id != id {
      FindFinds(members[1..], id);
      assert members == [members[0]] + members[1..];
      forall k | 0 <= k < Find(members, id) ensures members[k].id != id {
        if k > 0 { assert members[k] == members[1..][k - 1]; }
      }
    }
  }

  lemma FindListed(t: M.Table, members: seq<M.Member>, id: M.MemberId)
    requires M.Lists(t, members) && M.Keyed(t)
    ensures Find(members, id) >= 0 <==> id in t
    ensures id in t ==> members[Find(members, id)] == t[id]
  {
    FindFinds(members, id);
    if id in t {
      assert t[id] in members;
    }
    if Find(members, id) >= 0 {
      assert members[Find(members, id)] in members;
    }
  }

  /** What it takes to be declared dead: the member is active, it is not alone,
      and every one of its ring neighbours holds an unexpired vote against it. */
  ghost predicate Condemned(h: Hash, snapshot: M.Snapshot, target: M.MemberId) {
    var ids := ActiveIds(snapshot.members);
    && |ids| >= 2
    && (exists row :: row in snapshot.members && row.id == target && row.status == M.Active
                      && Unanimous(h, ids, row, snapshot.now))
  }

  ghost predicate Unanimous(h: Hash, ids: seq<M.MemberId>, row: M.Member, now: Time) {
    forall voter :: voter in Targets(h, ids, row.id) ==> voter in row.votes && row.votes[voter] > now
  }

  // ---- sameSuspectVotes ------------------------------------------------------

  /** The comparison is map equality for every right-hand side exactly when no
      stored vote carries the zero time. */
  lemma SameIsEqualityIff(left: M.Votes)
    ensures (forall right: M.Votes :: Same(left, right) <==> left == right)
            <==> ZERO_TIME !in left.Values
  {
    if ZERO_TIME !in left.Values {
      forall right: M.Votes ensures Same(left, right) <==> left == right {
        if Same(left, right) {
          assert left.Keys <= right.Keys by {
            forall voter | voter in left ensures voter in right {
              assert left[voter] in left.Values;
            }
          }
          SubsetOfSameSize(left.Keys, right.Keys);
        }
      }
    } else {
      var voter :| voter in left && left[voter] == ZERO_TIME;
      var outsider := FreshVoter(left.Keys);
      var right := (left - {voter})[outsider := ZERO_TIME];
      assert right.Keys == left.Keys - {voter} + {outsider};
      assert |right| == |right.Keys| == |left.Keys| == |left|;
      assert Same(left, right);
      assert voter !in right && left != right;
    }
  }

  lemma SubsetOfSameSize<T>(a: set<T>, b: set<T>)
    requires a <= b && |a| == |b|
    ensures a == b
  {
    assert |b - a| == |b| - |a|;
  }

  /** A member identity outside a finite set: longer than every address in it. */
  lemma FreshVoter(ids: set<M.MemberId>) returns (outsider: M.MemberId)
    ensures outsider !in ids
  {
    var longest: string := "";
    var rest := ids;
    while rest != {}
      invariant rest <= ids
      invariant forall id :: id in ids - rest ==> |id.nodeAddr| <= |longest|
      decreases |rest|
    {
      var id :| id in rest;
      if |id.nodeAddr| > |longest| { longest := id.nodeAddr; }
      rest := rest - {id};
    }
    outsider := M.MemberId(longest + "x", "");
    assert ids - rest == ids;
  }

  /** A revision that compares as the same is not written; with no vote at the zero time it
      would have written just the votes that are stored. */
  lemma SkippedRewriteLosesNothing(votes: M.Votes, revised: M.Votes)
    requires ZERO_TIME !in votes.Values && Same(votes, revised)
    ensures revised == votes
  {
    SameIsEqualityIff(votes);
  }

  // ---- the loops of the program ----------------------------------------------

  method ActiveSuspectVotes(votes: M.Votes, now: Time) returns (active: M.Votes)
    ensures forall v :: v in active <==> v in votes && votes[v] > now
    ensures forall v :: v in active ==> active[v] == votes[v]
    ensures active == Unexpired(votes, now)
  {
    active := map[];
    var rest := votes.Keys;
    while rest != {}
      invariant rest <= votes.Keys
      invariant forall v :: v in active <==> v in votes && v !in rest && votes[v] > now
      invariant forall v :: v in active ==> active[v] == votes[v]
      decreases |rest|
    {
      var voter :| voter in rest;
      rest := rest - {voter};
      if votes[voter] > now {
        active := active[voter := votes[voter]];
      }
    }
  }

  method SameSuspectVotes(left: M.Votes, right: M.Votes) returns (same: bool)
    ensures same <==> |left| == |right| && forall v :: v in left ==>
      if v in right then right[v] == left[v] else left[v] == ZERO_TIME
    ensures same <==> Same(left, right)
    ensures ZERO_TIME !in left.Values ==> (same <==> left == right)
  {
    SameIsEqualityIff(left);
    if |left| != |right| {
      return false;
    }
    var rest := left.Keys;
    while rest != {}
      invariant rest <= left.Keys
      invariant forall v :: v in left.Keys - rest ==>
        (if v in right then right[v] else ZERO_TIME) == left[v]
      decreases |rest|
    {
      var voter :| voter in rest;
      rest := rest - {voter};
      var other := if voter in right then right[voter] else ZERO_TIME;
      if other != left[voter] {
        return false;
      }
    }
    assert left.Keys - rest == left.Keys;
    return true;
  }

  method MemberIndex(members: seq<M.Member>, id: M.MemberId) returns (index: int)
    ensures index == Find(members, id)
    ensures index >= 0 ==> members[index].id == id && forall k :: 0 <= k < index ==> members[k].id != id
    ensures index < 0 ==> forall m :: m in members ==> m.id != id
  {
    FindFinds(members, id);
    var i := 0;
    while i < |members|
      invariant 0 <= i <= |members|
      invariant forall k :: 0 <= k < i ==> members[k].id != id
    {
      if members[i].id == id {
        return i;
      }
      i := i + 1;
    }
    return -1;
  }

  /** Counts the unexpired votes of the entitled voters. */
  method CountVotes(votes: M.Votes, entitled: set<M.MemberId>, now: Time) returns (count: nat)
    ensures count <= |entitled|
    ensures count >= |entitled| <==> forall v :: v in entitled ==> v in votes && votes[v] > now
  {
    count := 0;
    var rest := votes.Keys;
    ghost var counted: set<M.MemberId> := {};
    while rest != {}
      invariant rest <= votes.Keys
      invariant counted == set v | v in votes && v !in rest && v in entitled && votes[v] > now
      invariant count == |counted|
      decreases |rest|
    {
      var voter :| voter in rest;
      rest := rest - {voter};
      if voter in entitled && votes[voter] > now {
        count := count + 1;
        counted := counted + {voter};
      }
    }
    CountDecides(counted, entitled);
  }

  lemma CondemnedMeans(h: Hash, snapshot: M.Snapshot, target: M.MemberId)
    ensures Condemned(h, snapshot, target) <==>
      && |ActiveIds(snapshot.members)| >= 2
      && (exists row ::
            && row in snapshot.members && row.id == target && row.status == M.Active
            && forall v :: v in Targets(h, ActiveIds(snapshot.members), target) ==> v in row.votes && row.votes[v] > snapshot.now)
  {
    var ids := ActiveIds(snapshot.members);
    forall row | row in snapshot.members && row.id == target
      ensures Unanimous(h, ids, row, snapshot.now) <==>
        forall v :: v in Targets(h, ids, target) ==> v in row.votes && row.votes[v] > snapshot.now
    {
    }
  }

  /** The vote count reaches the threshold exactly when every neighbour voted. */
  method ShouldMarkDead(h: Hash, snapshot: M.Snapshot, target: M.MemberId) returns (dead: bool)
    requires M.DistinctIds(snapshot.members)
    ensures dead <==>
      && |ActiveIds(snapshot.members)| >= 2
      && (exists row ::
            && row in snapshot.members && row.id == target && row.status == M.Active
            && forall v :: v in Targets(h, ActiveIds(snapshot.members), target) ==> v in row.votes && row.votes[v] > snapshot.now)
    ensures dead <==> Condemned(h, snapshot, target)
  {
    CondemnedMeans(h, snapshot, target);
    var active := ActiveMemberIds(snapshot.members);
    ActiveIdsHold(snapshot.members);
    var threshold := Threshold(|active|);
    if threshold == 0 {
      return false;
    }
    var index := MemberIndex(snapshot.members, target);
    if index < 0 {
      return false;
    }
    var row := snapshot.members[index];
    OnlyRow(snapshot.members, index);
    if row.status != M.Active {
      return false;
    }
    var neighbours := ProbeTargets(h, active, target);
    NeighbourCount(h, active, target);
    var valid := set n | n in neighbours;
    DistinctSize(neighbours);
    var count := CountVotes(row.votes, valid, snapshot.now);
    assert count >= threshold <==> Unanimous(h, active, row, snapshot.now) by {
      assert forall v :: v in valid <==> v in Targets(h, active, target);
    }
    return count >= threshold;
  }

  lemma OnlyRow(members: seq<M.Member>, index: nat)
    requires M.DistinctIds(members) && index < |members|
    ensures forall m :: m in members && m.id == members[index].id ==> m == members[index]
  {
  }

  lemma CountDecides(counted: set<M.MemberId>, valid: set<M.MemberId>)
    requires counted <= valid
    ensures |counted| <= |valid|
    ensures |counted| >= |valid| <==> valid <= counted
  {
    assert |valid - counted| == |valid| - |counted|;
  }
}
