/** The membership table: rows, snapshots and the compare-and-swap write.

    ETags are unbounded. */
module Members {
  import opened Basics
  import opened Orders

  datatype MemberId = MemberId(nodeAddr: string, generation: string)
  datatype Status = Joining | Active | Dead
  type Votes = map<MemberId, Time>

  /** One row. `votes` maps each voter to the expiry of its suspicion. */
  datatype Member = Member(id: MemberId, status: Status, aliveAt: Time, votes: Votes, etag: nat)

  datatype Snapshot = Snapshot(members: seq<Member>, now: Time)

  type Table = map<MemberId, Member>

  predicate IdLess(a: MemberId, b: MemberId) {
    if a.nodeAddr != b.nodeAddr then StringLess(a.nodeAddr, b.nodeAddr)
    else StringLess(a.generation, b.generation)
  }

  lemma IdOrder()
    ensures StrictTotal(IdLess)
  {
    StringOrder();
  }

  predicate RowLess(a: Member, b: Member) {
    IdLess(a.id, b.id)
  }

  lemma RowOrder()
    ensures StrictWeak(RowLess)
  {
    IdOrder();
    TotalIsWeak(IdLess);
  }

  /** The version a writer must name: zero for a row that does not exist. */
  function Version(t: Table, id: MemberId): nat {
    if id in t then t[id].etag else 0
  }

  predicate Accepts(t: Table, row: Member) {
    row.etag == Version(t, row.id)
  }

  function Stamped(row: Member): Member {
    row.(etag := row.etag + 1)
  }

  ghost predicate Keyed(t: Table) {
    forall id :: id in t ==> t[id].id == id
  }

  /** `s` lists every row of the table exactly once, in any order. */
  ghost predicate Lists(t: Table, s: seq<Member>) {
    && Distinct(s)
    && forall m :: m in s <==> m.id in t && t[m.id] == m
  }

  /** Rows of one snapshot have pairwise different identities. */
  ghost predicate DistinctIds(s: seq<Member>) {
    forall i, j :: 0 <= i < j < |s| ==> s[i].id != s[j].id
  }

  lemma ListedIdsDiffer(t: Table, s: seq<Member>)
    requires Lists(t, s)
    ensures DistinctIds(s)
  {
    forall i, j | 0 <= i < j < |s| ensures s[i].id != s[j].id {
      assert s[i] in s && s[j] in s;
    }
  }

  lemma RearrangedStillLists(t: Table, a: seq<Member>, b: seq<Member>)
    requires Lists(t, a) && multiset(a) == multiset(b)
    ensures Lists(t, b)
  {
    DistinctCounts(a);
    DistinctCounts(b);
    forall m ensures m in b <==> m in a {
      assert m in b <==> m in multiset(b);
      assert m in a <==> m in multiset(a);
    }
  }

  datatype WriteReply = Written(etag: nat) | Conflict | Cancelled
  datatype ListReply = Listed(snapshot: Snapshot) | ListCancelled

  /** The in-memory implementation of the member store. */
  class MemberTable {
    var members: Table

    constructor ()
      ensures members == map[] && Keyed(members)
    {
      members := map[];
    }

    method WriteMember(cancelled: bool, member: Member) returns (reply: WriteReply)
      requires Keyed(members)
      modifies this
      ensures Keyed(members)
      ensures reply == Cancelled <==> cancelled
      ensures reply == Conflict <==>
        !cancelled && member.etag != if member.id in old(members) then old(members)[member.id].etag else 0
      ensures reply.Written? ==> reply.etag == member.etag + 1
                                 && members == old(members)[member.id := member.(etag := member.etag + 1)]
      ensures !reply.Written? ==> members == old(members)
    {
      if cancelled {
        return Cancelled;
      }
      var current := if member.id in members then members[member.id].etag else 0;
      if current != member.etag {
        return Conflict;
      }
      var stored := member.(etag := current + 1);
      members := members[member.id := stored];
      return Written(stored.etag);
    }

    method ListMembers(cancelled: bool, clock: Time) returns (reply: ListReply)
      requires Keyed(members)
      ensures reply.ListCancelled? <==> cancelled
      ensures reply.Listed? ==> forall m :: m in reply.snapshot.members <==> m.id in members && members[m.id] == m
      ensures reply.Listed? ==> Lists(members, reply.snapshot.members)
                                && Sorted(RowLess, reply.snapshot.members)
                                && reply.snapshot.now == clock
    {
      if cancelled {
        return ListCancelled;
      }
      var result: seq<Member> := [];
      var rest := members.Keys;
      while rest != {}
        invariant rest <= members.Keys
        invariant Distinct(result)
        invariant forall m :: m in result <==> m.id in members && m.id !in rest && members[m.id] == m
        decreases |rest|
      {
        var id :| id in rest;
        result := result + [members[id]];
        rest := rest - {id};
      }
      var sorted := Sort(RowLess, result);
      RowOrder();
      SortSorts(RowLess, result);
      RearrangedStillLists(members, result, sorted);
      return Listed(Snapshot(sorted, clock));
    }
  }
}
