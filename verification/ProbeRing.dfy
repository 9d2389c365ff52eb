/** Who probes whom: the ring of active members ordered by hash.

    The hash is a parameter of every definition, and nothing is assumed of it:
    collisions are decided by the member identity. */
module ProbeRing {
  import opened Orders
  import opened Members

  newtype uint64 = x: int | 0 <= x < 0x1_0000_0000_0000_0000

  /** `hashParts`: any function of the parts. */
  type Hash = seq<string> -> uint64

  datatype ProbePoint = ProbePoint(hash: uint64, id: MemberId)

  predicate ProbeLess(a: ProbePoint, b: ProbePoint) {
    if a.hash != b.hash then a.hash < b.hash else IdLess(a.id, b.id)
  }

  lemma ProbeOrder()
    ensures StrictTotal(ProbeLess)
  {
    IdOrder();
  }

  function PointOf(h: Hash, id: MemberId): ProbePoint {
    ProbePoint(h([id.nodeAddr, id.generation]), id)
  }

  function ActiveRows(members: seq<Member>): seq<MemberId> {
    if members == [] then []
    else (if members[0].status == Active then [members[0].id] else []) + ActiveRows(members[1..])
  }

  /** Identities of the active rows, in identity order. */
  function ActiveIds(members: seq<Member>): seq<MemberId> {
    Sort(IdLess, ActiveRows(members))
  }

  function PointsOf(h: Hash, ids: seq<MemberId>): seq<ProbePoint> {
    seq(|ids|, i requires 0 <= i < |ids| => PointOf(h, ids[i]))
  }

  function RingOf(h: Hash, ids: seq<MemberId>): seq<ProbePoint> {
    Sort(ProbeLess, PointsOf(h, ids))
  }

  /** Position of the first point carrying `id`, or the length when there is none. */
  function Position(ring: seq<ProbePoint>, id: MemberId): nat {
    if ring == [] || ring[0].id == id then 0 else 1 + Position(ring[1..], id)
  }

  /** The place after, and the place before, place `i` of an n-cycle. */
  function After(n: nat, i: nat): nat requires i < n { if i + 1 == n then 0 else i + 1 }
  function Before(n: nat, i: nat): nat requires i < n { if i == 0 then n - 1 else i - 1 }

  /** The index arithmetic of the program walks the cycle. */
  lemma ModuloWalks(n: nat, i: nat)
    requires i < n
    ensures (i + 1) % n == After(n, i)
    ensures (i + n - 1) % n == Before(n, i)
  {
    if i > 0 {
      ModuloPast(n, i - 1);
    }
  }

  lemma ModuloPast(n: nat, r: nat)
    requires r < n
    ensures (r + n) % n == r
  {
    assert (r + n) / n == 1;
  }

  /** The members that `self` probes, which are also the members entitled to vote on it. */
  function Targets(h: Hash, ids: seq<MemberId>, self: MemberId): seq<MemberId> {
    var ring := RingOf(h, ids);
    var at := Position(ring, self);
    if at >= |ring| || |ring| < 2 then []
    else
      var next := ring[After(|ring|, at)].id;
      var previous := ring[Before(|ring|, at)].id;
      if previous != next then [next, previous] else [next]
  }

  /** How many votes declare a death among `activeCount` active members. */
  function Threshold(activeCount: nat): nat {
    if activeCount <= 1 then 0 else if activeCount - 1 < 2 then activeCount - 1 else 2
  }

  // ---- the ring of distinct members -------------------------------------

  lemma {:induction false} PositionIsFirst(ring: seq<ProbePoint>, id: MemberId)
    ensures Position(ring, id) <= |ring|
    ensures Position(ring, id) < |ring| ==> ring[Position(ring, id)].id == id
    ensures forall k :: 0 <= k < Position(ring, id) && k < |ring| ==> ring[k].id != id
  {
    if ring != [] && ring[0].id != id {
      PositionIsFirst(ring[1..], id);
      forall k | 0 <= k < Position(ring, id) && k < |ring| ensures ring[k].id != id {
        if k > 0 {
          assert ring[k] == ring[1..][k - 1];
        }
      }
    }
  }

  ghost predicate RingShape(ring: seq<ProbePoint>, ids: seq<MemberId>) {
    && |ring| == |ids|
    && (forall i, j :: 0 <= i < j < |ring| ==> ring[i].id != ring[j].id)
    && (forall id :: id in ids <==> exists i :: 0 <= i < |ring| && ring[i].id == id)
  }

  lemma RingIsRearranged(h: Hash, ids: seq<MemberId>)
    requires Distinct(ids)
    ensures |RingOf(h, ids)| == |ids| && Distinct(RingOf(h, ids))
    ensures forall p :: p in RingOf(h, ids) <==> p in PointsOf(h, ids)
  {
    var points := PointsOf(h, ids);
    var ring := RingOf(h, ids);
    ProbeOrder();
    TotalIsWeak(ProbeLess);
    SortSorts(ProbeLess, points);
    DistinctCounts(points);
    DistinctCounts(ring);
    forall p ensures p in ring <==> p in points {
      assert p in ring <==> p in multiset(ring);
      assert p in points <==> p in multiset(points);
    }
  }

  lemma RingHasShape(h: Hash, ids: seq<MemberId>)
    requires Distinct(ids)
    ensures RingShape(RingOf(h, ids), ids)
  {
    var ring := RingOf(h, ids);
    RingIsRearranged(h, ids);
    forall i | 0 <= i < |ring| ensures ring[i].id in ids && ring[i] == PointOf(h, ring[i].id) {
      assert ring[i] in PointsOf(h, ids);
    }
    forall id | id in ids ensures exists i :: 0 <= i < |ring| && ring[i].id == id {
      var k :| 0 <= k < |ids| && ids[k] == id;
      assert PointsOf(h, ids)[k] in ring;
    }
  }

  /** Two places of an n-cycle are neighbours. */
  predicate Adjacent(n: nat, i: nat, j: nat) {
    n >= 2 && i < n && j < n && (j == After(n, i) || j == Before(n, i))
  }

  /** What `Targets` computes: the ring places adjacent to the place of `self`. */
  lemma TargetsAreAdjacent(h: Hash, ids: seq<MemberId>, i: nat, j: nat)
    requires Distinct(ids) && i < |ids| && j < |ids|
    ensures |RingOf(h, ids)| == |ids|
    ensures RingOf(h, ids)[j].id in Targets(h, ids, RingOf(h, ids)[i].id) <==> Adjacent(|ids|, i, j)
  {
    var ring := RingOf(h, ids);
    RingHasShape(h, ids);
    PositionIsFirst(ring, ring[i].id);
    var at := Position(ring, ring[i].id);
    assert at == i;
  }

  /** The probe relation is symmetric: whoever I probe probes me, and may vote on me. */
  lemma NeighboursAreMutual(h: Hash, ids: seq<MemberId>, a: MemberId, b: MemberId)
    requires Distinct(ids)
    ensures a in Targets(h, ids, b) <==> b in Targets(h, ids, a)
    ensures a in Targets(h, ids, b) ==> a != b && a in ids && b in ids
  {
    var ring := RingOf(h, ids);
    RingHasShape(h, ids);
    PositionIsFirst(ring, a);
    PositionIsFirst(ring, b);
    var i, j := Position(ring, a), Position(ring, b);
    if i < |ring| && j < |ring| {
      TargetsAreAdjacent(h, ids, i, j);
      TargetsAreAdjacent(h, ids, j, i);
    } else {
      assert a !in Targets(h, ids, b) && b !in Targets(h, ids, a);
    }
  }

  /** An active member has exactly as many neighbours as votes are needed to declare it dead. */
  lemma NeighbourCount(h: Hash, ids: seq<MemberId>, self: MemberId)
    requires Distinct(ids)
    ensures Distinct(Targets(h, ids, self))
    ensures |Targets(h, ids, self)| == if self in ids then Threshold(|ids|) else 0
  {
    var ring := RingOf(h, ids);
    RingHasShape(h, ids);
    PositionIsFirst(ring, self);
    if Position(ring, self) < |ring| {
      assert ring[Position(ring, self)].id == self;
    }
  }

  /** Probe targets depend on the set of members, not on the order a snapshot lists them. */
  lemma TargetsIgnoreOrder(h: Hash, a: seq<MemberId>, b: seq<MemberId>, self: MemberId)
    requires multiset(a) == multiset(b)
    ensures Targets(h, a, self) == Targets(h, b, self)
  {
    forall p ensures multiset(PointsOf(h, a))[p] == multiset(PointsOf(h, b))[p] {
      PointsCount(h, a, p);
      PointsCount(h, b, p);
    }
    ProbeOrder();
    TotalConnects(ProbeLess, PointsOf(h, a));
    SortIgnoresOrder(ProbeLess, PointsOf(h, a), PointsOf(h, b));
  }

  /** A point occurs in the ring as often as its member occurs in the list. */
  lemma {:induction false} PointsCount(h: Hash, ids: seq<MemberId>, p: ProbePoint)
    ensures multiset(PointsOf(h, ids))[p] == if p == PointOf(h, p.id) then multiset(ids)[p.id] else 0
  {
    if ids != [] {
      var init, last := ids[..|ids| - 1], ids[|ids| - 1];
      PointsCount(h, init, p);
      assert ids == init + [last];
      assert PointsOf(h, ids) == PointsOf(h, init) + [PointOf(h, last)];
    }
  }

  // ---- active identities of a snapshot -----------------------------------

  lemma {:induction false} ActiveRowsHold(members: seq<Member>, id: MemberId)
    ensures id in ActiveRows(members) <==> exists m :: m in members && m.status == Active && m.id == id
  {
    if members != [] {
      ActiveRowsHold(members[1..], id);
      assert members == [members[0]] + members[1..];
    }
  }

  lemma {:induction false} ActiveRowsDiffer(members: seq<Member>)
    requires DistinctIds(members)
    ensures Distinct(ActiveRows(members))
  {
    if members != [] {
      ActiveRowsDiffer(members[1..]);
      ActiveRowsHold(members[1..], members[0].id);
      assert members == [members[0]] + members[1..];
    }
  }

  lemma ActiveIdsHold(members: seq<Member>)
    ensures multiset(ActiveIds(members)) == multiset(ActiveRows(members))
    ensures |ActiveIds(members)| == |ActiveRows(members)|
    ensures forall id :: id in ActiveIds(members) <==> exists m :: m in members && m.status == Active && m.id == id
    ensures DistinctIds(members) ==> Distinct(ActiveIds(members))
  {
    IdOrder();
    TotalIsWeak(IdLess);
    SortSorts(IdLess, ActiveRows(members));
    forall id
      ensures id in ActiveIds(members) <==> exists m :: m in members && m.status == Active && m.id == id
    {
      ActiveRowsHold(members, id);
      assert id in ActiveIds(members) <==> id in multiset(ActiveIds(members));
      assert id in ActiveRows(members) <==> id in multiset(ActiveRows(members));
    }
    if DistinctIds(members) {
      ActiveRowsDiffer(members);
      DistinctCounts(ActiveRows(members));
      DistinctCounts(ActiveIds(members));
    }
  }

  // ---- who comes next on the circle --------------------------------------------------------------

  /** By the hash of address and generation, then by address, then by generation, `a` is below `b`. */
  predicate Below(h: Hash, a: MemberId, b: MemberId) {
    var x, y := h([a.nodeAddr, a.generation]), h([b.nodeAddr, b.generation]);
    if x != y then x < y
    else if a.nodeAddr != b.nodeAddr then StringLess(a.nodeAddr, b.nodeAddr)
    else StringLess(a.generation, b.generation)
  }

  /** Going up from `a`, and from the highest to the lowest, `b` is met first. */
  ghost predicate Follows(h: Hash, members: seq<MemberId>, a: MemberId, b: MemberId) {
    && b in members && b != a
    && forall c :: c in members && c != a && c != b ==>
      if Below(h, a, b) then !(Below(h, a, c) && Below(h, c, b)) else Below(h, b, c) && Below(h, c, a)
  }

  lemma RingAscends(h: Hash, members: seq<MemberId>, i: nat, j: nat)
    requires Distinct(members) && i < |members| && j < |members|
    ensures |RingOf(h, members)| == |members|
    ensures Below(h, RingOf(h, members)[i].id, RingOf(h, members)[j].id) <==> i < j
  {
    var ring := RingOf(h, members);
    RingHasShape(h, members);
    RingIsRearranged(h, members);
    ProbeOrder();
    TotalIsWeak(ProbeLess);
    SortSorts(ProbeLess, PointsOf(h, members));
    assert ring[i] in PointsOf(h, members) && ring[j] in PointsOf(h, members);
    assert ring[i] == PointOf(h, ring[i].id) && ring[j] == PointOf(h, ring[j].id);
    assert Below(h, ring[i].id, ring[j].id) <==> ProbeLess(ring[i], ring[j]);
    assert i < j ==> !ProbeLess(ring[j], ring[i]) && ring[i].id != ring[j].id;
    assert j < i ==> !ProbeLess(ring[i], ring[j]);
  }

  lemma PlaceFollows(h: Hash, members: seq<MemberId>, i: nat)
    requires Distinct(members) && i < |members| && |members| >= 2
    ensures var ring := RingOf(h, members);
      |ring| == |members| && Follows(h, members, ring[i].id, ring[After(|members|, i)].id)
  {
    var ring := RingOf(h, members);
    RingHasShape(h, members);
    var j := After(|members|, i);
    RingAscends(h, members, i, j);
    forall c | c in members && c != ring[i].id && c != ring[j].id
      ensures if Below(h, ring[i].id, ring[j].id) then !(Below(h, ring[i].id, c) && Below(h, c, ring[j].id))
              else Below(h, ring[j].id, c) && Below(h, c, ring[i].id)
    {
      var k :| 0 <= k < |ring| && ring[k].id == c;
      RingAscends(h, members, i, k);
      RingAscends(h, members, k, j);
      RingAscends(h, members, j, k);
      RingAscends(h, members, k, i);
    }
  }

  /** The first target is the next member on the circle, and this member is the next one after
      the last target. */
  lemma TargetsFollow(h: Hash, members: seq<MemberId>, self: MemberId)
    requires Distinct(members) && self in members && |members| >= 2
    ensures var targets := Targets(h, members, self);
      |targets| > 0 && Follows(h, members, self, targets[0]) && Follows(h, members, targets[|targets| - 1], self)
  {
    var ring := RingOf(h, members);
    RingHasShape(h, members);
    PositionIsFirst(ring, self);
    var i := Position(ring, self);
    PlaceFollows(h, members, i);
    PlaceFollows(h, members, Before(|ring|, i));
  }

  // ---- the loops of the program -------------------------------------------

  method ActiveMemberIds(members: seq<Member>) returns (ids: seq<MemberId>)
    ensures ids == ActiveIds(members)
    ensures Sorted(IdLess, ids)
    ensures forall id :: id in ids <==> exists m :: m in members && m.status == Active && m.id == id
  {
    ids := [];
    var i := 0;
    while i < |members|
      invariant 0 <= i <= |members|
      invariant ids + ActiveRows(members[i..]) == ActiveRows(members)
    {
      if members[i].status == Active {
        ids := ids + [members[i].id];
      }
      i := i + 1;
    }
    assert ids == ActiveRows(members);
    ids := Sort(IdLess, ids);
    ActiveIdsHold(members);
    IdOrder();
    TotalIsWeak(IdLess);
    SortSorts(IdLess, ActiveRows(members));
  }

  method ProbePoints(h: Hash, members: seq<MemberId>) returns (points: seq<ProbePoint>)
    ensures points == PointsOf(h, members)
  {
    points := [];
    var i := 0;
    while i < |members|
      invariant 0 <= i <= |members|
      invariant points == PointsOf(h, members[..i])
    {
      points := points + [PointOf(h, members[i])];
      i := i + 1;
    }
    assert members[..i] == members;
  }

  method SelfIndex(points: seq<ProbePoint>, self: MemberId) returns (index: nat)
    ensures index == Position(points, self) <= |points|
  {
    index := 0;
    while index < |points| && points[index].id != self
      invariant 0 <= index <= |points|
      invariant index + Position(points[index..], self) == Position(points, self)
    {
      index := index + 1;
    }
  }

  /** A ring without repetitions has as many targets as votes are needed, and they probe back. */
  lemma TargetsAreFair(h: Hash, members: seq<MemberId>, self: MemberId)
    requires Distinct(members)
    ensures |Targets(h, members, self)| == if self in members then Threshold(|members|) else 0
    ensures forall id :: id in Targets(h, members, self) ==> self in Targets(h, members, id)
  {
    NeighbourCount(h, members, self);
    forall id | id in Targets(h, members, self) ensures self in Targets(h, members, id) {
      NeighboursAreMutual(h, members, id, self);
    }
  }

  method ProbeTargets(h: Hash, members: seq<MemberId>, self: MemberId) returns (targets: seq<MemberId>)
    ensures targets == Targets(h, members, self)
    ensures Distinct(members) ==> |targets| == if self in members then Threshold(|members|) else 0
    ensures Distinct(members) ==> forall id :: id in targets ==> self in Targets(h, members, id)
    ensures Distinct(members) && self in members && |members| >= 2 ==>
      |targets| > 0 && Follows(h, members, self, targets[0]) && Follows(h, members, targets[|targets| - 1], self)
  {
    var points := ProbePoints(h, members);
    points := Sort(ProbeLess, points);
    var selfIndex := SelfIndex(points, self);
    if Distinct(members) {
      TargetsAreFair(h, members, self);
      if self in members && |members| >= 2 {
        TargetsFollow(h, members, self);
      }
    }
    if selfIndex == |points| || |points| < 2 {
      return [];
    }
    ModuloWalks(|points|, selfIndex);
    var next := points[(selfIndex + 1) % |points|].id;
    var previous := points[(selfIndex + |points| - 1) % |points|].id;
    targets := [next];
    if previous != next {
      targets := targets + [previous];
    }
  }
}
