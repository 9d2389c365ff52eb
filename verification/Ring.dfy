/** Ownership: the consistent-hash ring of virtual points and the view built on it.

    The hash is arbitrary, collisions included; the tie-break order decides. */
module Ring {
  import opened Basics
  import opened Orders
  import opened Members
  import opened ProbeRing
  import opened DecimalStrings

  const VIRTUAL_POINTS := 128

  datatype Point = Point(hash: uint64, nodeAddr: string, generation: string, sequence: nat)
  datatype View = View(points: seq<Point>, members: seq<MemberId>)

  predicate PointLess(a: Point, b: Point) {
    if a.hash != b.hash then a.hash < b.hash
    else if a.nodeAddr != b.nodeAddr then StringLess(a.nodeAddr, b.nodeAddr)
    else if a.generation != b.generation then StringLess(a.generation, b.generation)
    else a.sequence < b.sequence
  }

  lemma PointChain(a: Point, b: Point, c: Point)
    requires PointLess(a, b) && PointLess(b, c)
    ensures PointLess(a, c)
  {
    StringOrder();
  }

  lemma PointsConnect(a: Point, b: Point)
    ensures !PointLess(a, a) && (a != b ==> PointLess(a, b) || PointLess(b, a))
  {
    StringConnected(a.nodeAddr, b.nodeAddr);
    StringConnected(a.generation, b.generation);
  }

  lemma PointOrder()
    ensures StrictTotal(PointLess)
  {
    forall a, b ensures !PointLess(a, a) && (a != b ==> PointLess(a, b) || PointLess(b, a)) {
      PointsConnect(a, b);
    }
    forall a, b, c | PointLess(a, b) && PointLess(b, c) ensures PointLess(a, c) {
      PointChain(a, b, c);
    }
  }

  function PointAt(h: Hash, id: MemberId, k: nat): Point {
    Point(h([id.nodeAddr, id.generation, Decimal(k)]), id.nodeAddr, id.generation, k)
  }

  function HolderOf(p: Point): MemberId {
    MemberId(p.nodeAddr, p.generation)
  }

  function MemberPoints(h: Hash, id: MemberId): seq<Point> {
    seq(VIRTUAL_POINTS, k requires 0 <= k < VIRTUAL_POINTS => PointAt(h, id, k))
  }

  function AllPoints(h: Hash, ids: seq<MemberId>): seq<Point> {
    if ids == [] then [] else AllPoints(h, ids[..|ids| - 1]) + MemberPoints(h, ids[|ids| - 1])
  }

  function ViewOf(h: Hash, snapshot: seq<Member>): View {
    View(Sort(PointLess, AllPoints(h, ActiveRows(snapshot))), ActiveIds(snapshot))
  }

  function ActiveSet(snapshot: seq<Member>): set<MemberId> {
    set id | id in ActiveRows(snapshot)
  }

  function GrainHash(h: Hash, grain: GrainId): uint64 {
    h([grain.grainType, grain.grainKey])
  }

  // ---- who owns a grain: a definition without sorting or searching --------------------

  /** Going clockwise from `x`, the point `p` is met before the point `q`. */
  predicate Before(x: uint64, p: Point, q: Point) {
    if (p.hash >= x) != (q.hash >= x) then p.hash >= x else PointLess(p, q)
  }

  /** `p` is one of the virtual points of the members `ids`. */
  ghost predicate On(h: Hash, ids: set<MemberId>, p: Point) {
    HolderOf(p) in ids && p.sequence < VIRTUAL_POINTS && p == PointAt(h, HolderOf(p), p.sequence)
  }

  /** Among the points of `ids`, `p` is the first one clockwise of the grain. */
  ghost predicate First(h: Hash, ids: set<MemberId>, grain: GrainId, p: Point) {
    && On(h, ids, p)
    && forall q :: On(h, ids, q) && q != p ==> Before(GrainHash(h, grain), p, q)
  }

  lemma FirstIsUnique(h: Hash, ids: set<MemberId>, grain: GrainId, p: Point, q: Point)
    requires First(h, ids, grain, p) && First(h, ids, grain, q)
    ensures p == q
  {
    PointOrder();
  }

  // ---- which points a ring holds ----------------------------------------------------------

  lemma OneMorePoint(before: seq<Point>, last: Point, p: Point)
    ensures multiset(before + [last])[p] == multiset(before)[p] + if p == last then 1 else 0
  {
  }

  lemma {:induction false} MemberPointsUpTo(h: Hash, id: MemberId, n: nat, p: Point)
    requires n <= VIRTUAL_POINTS
    ensures multiset(MemberPoints(h, id)[..n])[p] ==
            if HolderOf(p) == id && p.sequence < n && p == PointAt(h, id, p.sequence) then 1 else 0
  {
    if n > 0 {
      MemberPointsUpTo(h, id, n - 1, p);
      var before, last := MemberPoints(h, id)[..n - 1], PointAt(h, id, n - 1);
      assert MemberPoints(h, id)[..n] == before + [last];
      OneMorePoint(before, last, p);
    }
  }

  /** A point occurs in the ring as often as its member is listed. */
  lemma {:induction false} PointCount(h: Hash, ids: seq<MemberId>, p: Point)
    ensures multiset(AllPoints(h, ids))[p] ==
            if p.sequence < VIRTUAL_POINTS && p == PointAt(h, HolderOf(p), p.sequence)
            then multiset(ids)[HolderOf(p)] else 0
  {
    if ids != [] {
      var init, last := ids[..|ids| - 1], ids[|ids| - 1];
      PointCount(h, init, p);
      MemberPointsUpTo(h, last, VIRTUAL_POINTS, p);
      assert MemberPoints(h, last)[..VIRTUAL_POINTS] == MemberPoints(h, last);
      assert ids == init + [last];
    }
  }

  lemma ViewHolds(h: Hash, snapshot: seq<Member>)
    ensures Sorted(PointLess, ViewOf(h, snapshot).points)
    ensures multiset(ViewOf(h, snapshot).points) == multiset(AllPoints(h, ActiveRows(snapshot)))
  {
    PointOrder();
    TotalIsWeak(PointLess);
    SortSorts(PointLess, AllPoints(h, ActiveRows(snapshot)));
  }

  lemma ViewPoint(h: Hash, snapshot: seq<Member>, p: Point)
    ensures p in ViewOf(h, snapshot).points <==> On(h, ActiveSet(snapshot), p)
  {
    var points, ids := ViewOf(h, snapshot).points, ActiveRows(snapshot);
    ViewHolds(h, snapshot);
    PointCount(h, ids, p);
    assert p in points <==> p in multiset(points);
    assert HolderOf(p) in ids <==> HolderOf(p) in multiset(ids);
  }

  // ---- the search --------------------------------------------------------------------------------

  /** First index whose hash reaches `x`, or the length. */
  ghost predicate Reaches(points: seq<Point>, x: uint64, i: nat) {
    && i <= |points|
    && (forall k :: 0 <= k < i ==> points[k].hash < x)
    && (forall k :: i <= k < |points| ==> points[k].hash >= x)
  }

  /** The binary search of `sort.Search`. */
  method Search(points: seq<Point>, x: uint64) returns (index: nat)
    requires Sorted(PointLess, points)
    ensures Reaches(points, x, index)
  {
    var i, j := 0, |points|;
    while i < j
      invariant 0 <= i <= j <= |points|
      invariant forall k :: 0 <= k < i ==> points[k].hash < x
      invariant forall k :: j <= k < |points| ==> points[k].hash >= x
    {
      var m := (i + j) / 2;
      HashesAscend(points, m);
      if !(points[m].hash >= x) {
        i := m + 1;
      } else {
        j := m;
      }
    }
    return i;
  }

  lemma HashesAscend(points: seq<Point>, m: nat)
    requires Sorted(PointLess, points) && m < |points|
    ensures forall k :: 0 <= k < m ==> points[k].hash <= points[m].hash
    ensures forall k :: m < k < |points| ==> points[m].hash <= points[k].hash
  {
    forall k | 0 <= k < m ensures points[k].hash <= points[m].hash {
      assert !PointLess(points[m], points[k]);
    }
    forall k | m < k < |points| ensures points[m].hash <= points[k].hash {
      assert !PointLess(points[k], points[m]);
    }
  }

  /** Wrapping past the end, the found point comes first clockwise. */
  lemma FoundIsFirst(points: seq<Point>, x: uint64, i: nat, q: Point)
    requires Sorted(PointLess, points) && Reaches(points, x, i) && points != [] && q in points
    ensures var p := points[if i == |points| then 0 else i]; q == p || Before(x, p, q)
  {
    PointOrder();
    var at := if i == |points| then 0 else i;
    var k :| 0 <= k < |points| && points[k] == q;
    if at < k {
      assert !PointLess(points[k], points[at]);
    }
  }

  /** The point that owns the grain in a snapshot: none when no member is active. */
  ghost predicate Owning(h: Hash, snapshot: seq<Member>, grain: GrainId, p: Point) {
    First(h, ActiveSet(snapshot), grain, p)
  }

  /** Going clockwise from the hash of type and key, point `j` of `o` is met before point `k` of
      `id`: by the hash of address, generation and number, then by these in turn. */
  predicate Sooner(h: Hash, grain: GrainId, o: MemberId, j: nat, id: MemberId, k: nat) {
    var x := h([grain.grainType, grain.grainKey]);
    var p, q := h([o.nodeAddr, o.generation, Decimal(j)]), h([id.nodeAddr, id.generation, Decimal(k)]);
    if (p >= x) != (q >= x) then p >= x
    else if p != q then p < q
    else if o.nodeAddr != id.nodeAddr then StringLess(o.nodeAddr, id.nodeAddr)
    else if o.generation != id.generation then StringLess(o.generation, id.generation)
    else j < k
  }

  /** Of the 128 points of every active member, point `k` of `id` is met first. */
  ghost predicate Nearest(h: Hash, snapshot: seq<Member>, grain: GrainId, id: MemberId, k: nat) {
    && (exists m :: m in snapshot && m.status == Active && m.id == id) && k < 128
    && forall o: Member, j: nat :: o in snapshot && o.status == Active && j < 128 ==> !Sooner(h, grain, o.id, j, id, k)
  }

  lemma SoonerIsBefore(h: Hash, grain: GrainId, o: MemberId, j: nat, id: MemberId, k: nat)
    ensures Sooner(h, grain, o, j, id, k) <==> Before(GrainHash(h, grain), PointAt(h, o, j), PointAt(h, id, k))
  {
  }

  lemma OneIsBefore(x: uint64, p: Point, q: Point)
    requires Before(x, p, q)
    ensures !Before(x, q, p)
  {
    PointOrder();
  }

  lemma OwningIsNearest(h: Hash, snapshot: seq<Member>, grain: GrainId, p: Point)
    requires Owning(h, snapshot, grain, p)
    ensures Nearest(h, snapshot, grain, HolderOf(p), p.sequence)
  {
    PointOrder();
    ActiveRowsHold(snapshot, HolderOf(p));
    forall o: Member, j: nat | o in snapshot && o.status == Active && j < 128
      ensures !Sooner(h, grain, o.id, j, HolderOf(p), p.sequence)
    {
      var q := PointAt(h, o.id, j);
      ActiveRowsHold(snapshot, o.id);
      assert On(h, ActiveSet(snapshot), q);
      SoonerIsBefore(h, grain, o.id, j, HolderOf(p), p.sequence);
      assert p == PointAt(h, HolderOf(p), p.sequence);
      if q != p {
        assert Before(GrainHash(h, grain), p, q);
        OneIsBefore(GrainHash(h, grain), p, q);
      }
    }
  }

  /** `Owner`, applied to a view built from a snapshot: the first point clockwise. */
  method Owner(h: Hash, view: View, ghost snapshot: seq<Member>, grain: GrainId) returns (owner: Option<string>)
    requires view == ViewOf(h, snapshot)
    ensures owner.None? <==> forall m :: m in snapshot ==> m.status != Active
    ensures owner.Some? ==> exists id, k :: Nearest(h, snapshot, grain, id, k) && id.nodeAddr == owner.value
    ensures OwnerIs(h, snapshot, grain, owner)
  {
    NobodyActive(snapshot);
    var points := view.points;
    ViewHolds(h, snapshot);
    if |points| == 0 {
      NoPointsNoMembers(h, snapshot);
      return None;
    }
    var x := GrainHash(h, grain);
    var index := Search(points, x);
    ghost var found := index;
    if index == |points| {
      index := 0;
    }
    var p := points[index];
    ViewPoint(h, snapshot, p);
    forall q | On(h, ActiveSet(snapshot), q) && q != p ensures Before(x, p, q) {
      ViewPoint(h, snapshot, q);
      FoundIsFirst(points, x, found, q);
    }
    assert Owning(h, snapshot, grain, p);
    OwningIsNearest(h, snapshot, grain, p);
    return Some(p.nodeAddr);
  }

  lemma {:induction false} NobodyActive(snapshot: seq<Member>)
    ensures ActiveRows(snapshot) == [] <==> forall m :: m in snapshot ==> m.status != Active
  {
    if snapshot != [] {
      NobodyActive(snapshot[1..]);
      assert snapshot == [snapshot[0]] + snapshot[1..];
    }
  }

  lemma NoPointsNoMembers(h: Hash, snapshot: seq<Member>)
    ensures ViewOf(h, snapshot).points == [] <==> ActiveRows(snapshot) == []
  {
    var ids := ActiveRows(snapshot);
    if ids != [] {
      ViewPoint(h, snapshot, PointAt(h, ids[0], 0));
    }
  }

  // ---- minimal movement ---------------------------------------------------------------------------

  /** Adding a member moves a grain only to that member. */
  lemma JoinMovesOnlyToNewcomer(h: Hash, ids: set<MemberId>, newcomer: MemberId, grain: GrainId, p: Point, q: Point)
    requires First(h, ids, grain, p) && First(h, ids + {newcomer}, grain, q)
    ensures q == p || HolderOf(q) == newcomer
  {
    PointOrder();
    assert On(h, ids + {newcomer}, p);
    if HolderOf(q) != newcomer {
      assert On(h, ids, q);
    }
  }

  /** Removing a member moves only the grains it owned. */
  lemma LeaveMovesOnlyItsOwn(h: Hash, ids: set<MemberId>, leaver: MemberId, grain: GrainId, p: Point, q: Point)
    requires First(h, ids, grain, p) && First(h, ids - {leaver}, grain, q)
    ensures q == p || HolderOf(p) == leaver
  {
    if leaver in ids {
      assert ids == (ids - {leaver}) + {leaver};
      JoinMovesOnlyToNewcomer(h, ids - {leaver}, leaver, grain, q, p);
    } else {
      assert ids - {leaver} == ids;
      FirstIsUnique(h, ids, grain, p, q);
    }
  }

  /** The answer of `Owner` for a snapshot, without sorting or searching. */
  ghost predicate OwnerIs(h: Hash, snapshot: seq<Member>, grain: GrainId, owner: Option<string>) {
    match owner
    case None => ActiveRows(snapshot) == []
    case Some(addr) => exists p :: Owning(h, snapshot, grain, p) && p.nodeAddr == addr
  }

  /** When one more member is active, an address changes only to that member's, or from nobody's. */
  lemma JoinMovesAddresses(
    h: Hash, s: seq<Member>, t: seq<Member>, newcomer: MemberId, grain: GrainId, was: Option<string>, now: Option<string>)
    requires ActiveSet(t) == ActiveSet(s) + {newcomer} && OwnerIs(h, s, grain, was) && OwnerIs(h, t, grain, now)
    ensures now == was || now == Some(newcomer.nodeAddr)
  {
    assert newcomer in ActiveSet(t);
    var q :| Owning(h, t, grain, q) && q.nodeAddr == now.value;
    match was {
      case None => assert ActiveSet(s) == {};
      case Some(addr) =>
        var p :| Owning(h, s, grain, p) && p.nodeAddr == addr;
        JoinMovesOnlyToNewcomer(h, ActiveSet(s), newcomer, grain, p, q);
    }
  }

  /** When one member less is active, only what its address owned moves. */
  lemma LeaveMovesAddresses(
    h: Hash, s: seq<Member>, t: seq<Member>, leaver: MemberId, grain: GrainId, was: Option<string>, now: Option<string>)
    requires leaver in ActiveSet(s) && ActiveSet(t) == ActiveSet(s) - {leaver}
    requires OwnerIs(h, s, grain, was) && OwnerIs(h, t, grain, now)
    ensures now == was || was == Some(leaver.nodeAddr)
  {
    assert ActiveSet(s) == ActiveSet(t) + {leaver};
    JoinMovesAddresses(h, t, s, leaver, grain, now, was);
  }

  // ---- views ------------------------------------------------------------------------------------------

  /** `sameView` compares points: equal exactly when the same members are active. */
  lemma SamePointsIffSameMembers(h: Hash, s: seq<Member>, t: seq<Member>)
    ensures ViewOf(h, s).points == ViewOf(h, t).points <==> multiset(ActiveRows(s)) == multiset(ActiveRows(t))
  {
    var a, b := ActiveRows(s), ActiveRows(t);
    if multiset(a) == multiset(b) {
      forall p ensures multiset(AllPoints(h, a))[p] == multiset(AllPoints(h, b))[p] {
        PointCount(h, a, p);
        PointCount(h, b, p);
      }
      PointOrder();
      TotalConnects(PointLess, AllPoints(h, a));
      SortIgnoresOrder(PointLess, AllPoints(h, a), AllPoints(h, b));
    }
    if ViewOf(h, s).points == ViewOf(h, t).points {
      ViewHolds(h, s);
      ViewHolds(h, t);
      forall id ensures multiset(a)[id] == multiset(b)[id] {
        PointCount(h, a, PointAt(h, id, 0));
        PointCount(h, b, PointAt(h, id, 0));
      }
    }
  }

  /** A suppressed notification hides nothing: same points, same owners, same probe targets. */
  lemma SameViewHidesNothing(h: Hash, s: seq<Member>, t: seq<Member>, grain: GrainId, p: Point, self: MemberId)
    requires ViewOf(h, s).points == ViewOf(h, t).points
    ensures ViewOf(h, s) == ViewOf(h, t)
    ensures Owning(h, s, grain, p) <==> Owning(h, t, grain, p)
    ensures Targets(h, ViewOf(h, s).members, self) == Targets(h, ViewOf(h, t).members, self)
  {
    SamePointsIffSameMembers(h, s, t);
    IdOrder();
    TotalConnects(IdLess, ActiveRows(s));
    SortIgnoresOrder(IdLess, ActiveRows(s), ActiveRows(t));
    forall id ensures id in ActiveRows(s) <==> id in ActiveRows(t) {
      assert id in ActiveRows(s) <==> id in multiset(ActiveRows(s));
      assert id in ActiveRows(t) <==> id in multiset(ActiveRows(t));
    }
    assert ActiveSet(s) == ActiveSet(t);
  }

  /** Two listings of one table give the same view, whatever their order. */
  lemma ViewIgnoresOrder(h: Hash, t: Table, a: seq<Member>, b: seq<Member>)
    requires Lists(t, a) && Lists(t, b)
    ensures ViewOf(h, a) == ViewOf(h, b)
  {
    ListedIdsDiffer(t, a);
    ListedIdsDiffer(t, b);
    ActiveRowsDiffer(a);
    ActiveRowsDiffer(b);
    DistinctCounts(ActiveRows(a));
    DistinctCounts(ActiveRows(b));
    forall id ensures multiset(ActiveRows(a))[id] == multiset(ActiveRows(b))[id] {
      ActiveRowsHold(a, id);
      ActiveRowsHold(b, id);
      assert id in ActiveRows(a) <==> id in ActiveRows(b);
      assert id in ActiveRows(a) <==> id in multiset(ActiveRows(a));
      assert id in ActiveRows(b) <==> id in multiset(ActiveRows(b));
    }
    SamePointsIffSameMembers(h, a, b);
    SameViewHidesNothing(h, a, b, GrainId("", ""), PointAt(h, MemberId("", ""), 0), MemberId("", ""));
  }

  // ---- the loops of the program ---------------------------------------------------------------------

  method BuildPoints(h: Hash, members: seq<MemberId>) returns (points: seq<Point>)
    ensures points == Sort(PointLess, AllPoints(h, members))
    ensures Sorted(PointLess, points)
  {
    points := [];
    var i := 0;
    while i < |members|
      invariant 0 <= i <= |members|
      invariant points == AllPoints(h, members[..i])
    {
      ghost var before := points;
      var sequence := 0;
      while sequence < VIRTUAL_POINTS
        invariant 0 <= sequence <= VIRTUAL_POINTS
        invariant points == before + MemberPoints(h, members[i])[..sequence]
      {
        points := points + [PointAt(h, members[i], sequence)];
        sequence := sequence + 1;
      }
      assert members[..i + 1][..i] == members[..i];
      i := i + 1;
    }
    assert members[..i] == members;
    points := Sort(PointLess, points);
    PointOrder();
    TotalIsWeak(PointLess);
    SortSorts(PointLess, AllPoints(h, members));
  }

  lemma RowsAhead(snapshot: seq<Member>, i: nat)
    requires i < |snapshot|
    ensures ActiveRows(snapshot[i..])
         == (if snapshot[i].status == Active then [snapshot[i].id] else []) + ActiveRows(snapshot[i + 1..])
  {
    assert snapshot[i..][1..] == snapshot[i + 1..];
  }

  lemma RowTaken(active: seq<Member>, snapshot: seq<Member>, i: nat)
    requires i < |snapshot|
    ensures var taken := if snapshot[i].status == Active then active + [snapshot[i]] else active;
      ActiveRows(taken) + ActiveRows(snapshot[i + 1..]) == ActiveRows(active) + ActiveRows(snapshot[i..])
  {
    RowsAhead(snapshot, i);
    ActiveRowsAppend(active, snapshot[i]);
  }

  /** The active rows of a snapshot, in order. */
  method SelectActive(snapshot: seq<Member>) returns (active: seq<Member>)
    ensures ActiveRows(active) == ActiveRows(snapshot)
    ensures forall k :: 0 <= k < |active| ==> active[k].status == Active
  {
    active := [];
    var i := 0;
    while i < |snapshot|
      invariant 0 <= i <= |snapshot|
      invariant ActiveRows(active) + ActiveRows(snapshot[i..]) == ActiveRows(snapshot)
      invariant forall k :: 0 <= k < |active| ==> active[k].status == Active
    {
      RowTaken(active, snapshot, i);
      if snapshot[i].status == Active {
        active := active + [snapshot[i]];
      }
      i := i + 1;
    }
  }

  lemma {:induction false} RowsOfActive(rows: seq<Member>)
    requires forall k :: 0 <= k < |rows| ==> rows[k].status == Active
    ensures |ActiveRows(rows)| == |rows| && forall k :: 0 <= k < |rows| ==> ActiveRows(rows)[k] == rows[k].id
  {
    if rows != [] {
      RowsOfActive(rows[1..]);
    }
  }

  method NewView(h: Hash, snapshot: seq<Member>) returns (view: View)
    ensures view == ViewOf(h, snapshot)
    ensures Sorted(PointLess, view.points)
  {
    var active := SelectActive(snapshot);
    RowsOfActive(active);
    var ids := seq(|active|, k requires 0 <= k < |active| => active[k].id);
    assert ids == ActiveRows(active);
    var points := BuildPoints(h, ids);
    var members := ActiveMemberIds(active);
    return View(points, members);
  }

  lemma {:induction false} ActiveRowsAppend(rows: seq<Member>, row: Member)
    ensures ActiveRows(rows + [row]) == ActiveRows(rows) + if row.status == Active then [row.id] else []
  {
    if rows != [] {
      ActiveRowsAppend(rows[1..], row);
      assert (rows + [row])[1..] == rows[1..] + [row];
    }
  }

  method SameView(left: View, right: View) returns (same: bool)
    ensures same <==> left.points == right.points
  {
    if |left.points| != |right.points| {
      return false;
    }
    var i := 0;
    while i < |left.points|
      invariant 0 <= i <= |left.points|
      invariant left.points[..i] == right.points[..i]
    {
      if left.points[i] != right.points[i] {
        return false;
      }
      i := i + 1;
    }
    assert left.points == left.points[..i] && right.points == right.points[..i];
    return true;
  }
}
