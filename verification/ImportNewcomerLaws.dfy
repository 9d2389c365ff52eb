/** What one more import does to the names of the others, whatever it is. */
module ImportNewcomerLaws {
  import opened Orders
  import opened ImportNames
  import opened ImportLaws
  import opened ImportChurn
  import opened ImportNewcomer

  // ---- a bearer without an alias ----------------------------------------------------------------------

  /** A signature import that bears the newcomer's name as its own. */
  ghost predicate SoleBearer(entries: seq<Import>, source: Import, j: Import, i: Import) {
    i in entries && Standing(source, i) == 0 && i.name == j.name && !Collides(entries, source, i)
  }

  /** Sharing a name that one import bore alone takes it away from that one. */
  lemma SoleBearerChurns(clean: string -> string, entries: seq<Import>, source: Import, j: Import, i: Import)
    requires WellFormed(entries + [j], source) && SoleBearer(entries, source, j, i)
    ensures !Unchurned(clean, entries, source, j)
  {
    var more := entries + [j];
    FewerWellFormed(entries, source, j);
    assert i in Lines(entries, source) && i in Lines(more, source) && j in Lines(more, source);
    NewestIsNew(entries, j, i);
    assert Collides(more, source, i);
    RenamedIffColliding(clean, entries, source, i);
    RenamedIffColliding(clean, more, source, i);
    AliasesAreFresh(clean, more, source);
    assert i in more && i.name in Taken(more, source);
  }

  lemma FewerWellFormed(entries: seq<Import>, source: Import, j: Import)
    requires WellFormed(entries + [j], source)
    ensures WellFormed(entries, source)
  {
    FewerDistinct(entries, j);
    assert forall i :: i in entries ==> i in entries + [j];
  }

  lemma NewestIsNew(entries: seq<Import>, j: Import, i: Import)
    requires DistinctPaths(entries + [j]) && i in entries
    ensures i.path != j.path
  {
    var k :| 0 <= k < |entries| && entries[k] == i;
    assert (entries + [j])[k] == i && (entries + [j])[|entries|] == j;
  }

  // ---- a newcomer that joins those who wait ----------------------------------------------------------------

  /** The place where sorting puts the newcomer. */
  function Place(j: Import, s: seq<Import>): (k: nat)
    ensures k <= |s|
  {
    if s == [] || PathLess(j, s[0]) then 0 else 1 + Place(j, s[1..])
  }

  lemma {:induction false} InsertPlaces(j: Import, s: seq<Import>)
    ensures Insert(PathLess, j, s) == Inserted(s, Place(j, s), j)
  {
    if s != [] && !PathLess(j, s[0]) {
      InsertPlaces(j, s[1..]);
      assert s == [s[0]] + s[1..];
    }
  }

  /** Everybody who shares the newcomer's name had an alias already. */
  ghost predicate NoSoleBearer(entries: seq<Import>, source: Import, j: Import) {
    forall i :: !SoleBearer(entries, source, j, i)
  }

  lemma ConflictsAlike(entries: seq<Import>, source: Import, j: Import, i: Import)
    requires WellFormed(entries + [j], source) && NoSoleBearer(entries, source, j) && i in entries
    ensures Conflicting(entries + [j], source, i) <==> Conflicting(entries, source, i)
  {
    var more := entries + [j];
    FewerWellFormed(entries, source, j);
    assert more[..|entries|] == entries;
    assert CountNamed(more, i.name) == CountNamed(entries, i.name) + if j.name == i.name then 1 else 0;
    if j.name == i.name && Standing(source, i) == 0 {
      assert !SoleBearer(entries, source, j, i);
      RegularCollides(entries, source, i);
    }
  }

  lemma ConflictsPlusNewcomer(entries: seq<Import>, source: Import, j: Import)
    requires WellFormed(entries + [j], source) && NoSoleBearer(entries, source, j)
    requires Standing(source, j) == 0 && Collides(entries + [j], source, j)
    ensures multiset(Conflicts(entries + [j], source)) == multiset(Conflicts(entries, source)) + multiset{j}
  {
    var more := entries + [j];
    forall i | i in entries ensures Conflicted(more, source)(i) == Conflicted(entries, source)(i) {
      ConflictsAlike(entries, source, j, i);
    }
    KeptSame(entries, Conflicted(more, source), Conflicted(entries, source));
    assert j in more;
    RegularCollides(more, source, j);
    assert more[..|entries|] == entries;
    assert Kept(more, Conflicted(more, source)) == Kept(entries, Conflicted(entries, source)) + [j];
  }

  lemma TakenAlike(entries: seq<Import>, source: Import, j: Import)
    requires WellFormed(entries + [j], source) && Standing(source, j) == 0 && Collides(entries + [j], source, j)
    ensures Taken(entries + [j], source) == Taken(entries, source)
  {
    var more := entries + [j];
    TemplateFacts();
    var y :| y in Lines(more, source) && y.path != j.path && y.name == j.name;
    assert NamesOf(more) == NamesOf(entries) + {j.name};
    assert y in entries || y == source || y in Templates;
  }

  lemma SortedPlus(conflicts: seq<Import>, more: seq<Import>, j: Import)
    requires DistinctPaths(more) && multiset(more) == multiset(conflicts) + multiset{j}
    ensures Sort(PathLess, more) == Insert(PathLess, j, Sort(PathLess, conflicts))
  {
    var s := Sort(PathLess, conflicts);
    PathOrder();
    SortSorts(PathLess, conflicts);
    SortSorts(PathLess, more);
    InsertSorts(PathLess, j, s);
    InsertKeeps(PathLess, j, s);
    PermutedPaths(more, Sort(PathLess, more));
    ConnectedByPath(Sort(PathLess, more));
    SortedIsUnique(PathLess, Sort(PathLess, more), Insert(PathLess, j, s));
  }

  lemma ConnectedByPath(s: seq<Import>)
    requires DistinctPaths(s)
    ensures Connected(PathLess, s)
  {
    forall x, y | x in s && y in s && x != y ensures PathLess(x, y) || PathLess(y, x) {
      if x.path == y.path {
        SamePath(s, x, y);
      }
      StringConnected(x.path, y.path);
    }
  }

  /** The allocation starts as without the newcomer, with it among those who wait. */
  lemma StartWithNewcomer(entries: seq<Import>, source: Import, j: Import)
    requires WellFormed(entries + [j], source) && NoSoleBearer(entries, source, j)
    requires Standing(source, j) == 0 && Collides(entries + [j], source, j)
    ensures var a := Start(entries, source); var k := Place(j, a.remaining);
      Start(entries + [j], source) == With(a, k, j) && Ready(a, k, j, Taken(entries, source))
  {
    var a := Start(entries, source);
    FewerWellFormed(entries, source, j);
    ConflictsPlusNewcomer(entries, source, j);
    TakenAlike(entries, source, j);
    ConflictsIff(entries + [j], source);
    SortedPlus(Conflicts(entries, source), Conflicts(entries + [j], source), j);
    InsertPlaces(j, a.remaining);
    StartIsOk(entries, source);
    StartIsOk(entries + [j], source);
  }

  // ---- rounds deeper than anybody's path -----------------------------------------------------------------------

  lemma {:induction false} DeepestBounds(s: seq<Import>, i: Import)
    requires i in s
    ensures |Segments(i.path)| <= Deepest(s)
  {
    LastOf(s, i);
    if i != s[|s| - 1] {
      DeepestBounds(s[..|s| - 1], i);
    }
  }

  lemma {:induction false} DeepestIsReached(s: seq<Import>) returns (i: Import)
    requires s != []
    ensures i in s && Deepest(s) == |Segments(i.path)|
  {
    var init := s[..|s| - 1];
    if init == [] || |Segments(s[|s| - 1].path)| > Deepest(init) {
      i := s[|s| - 1];
    } else {
      i := DeepestIsReached(init);
      LastOf(s, i);
    }
  }

  lemma DeepestGrows(s: seq<Import>, k: nat, j: Import)
    requires k <= |s|
    ensures Deepest(s) <= Deepest(Inserted(s, k, j))
  {
    if s != [] {
      var i := DeepestIsReached(s);
      InsertedHolds(s, k, j, i);
      DeepestBounds(Inserted(s, k, j), i);
    }
  }

  lemma IdleRound(clean: string -> string, a: Alloc, depth: nat)
    requires forall i :: i in a.remaining ==> |Segments(i.path)| < depth
    ensures Round(clean, a, depth) == a
  {
    forall i | i in a.remaining ensures !Winner(clean, a, depth)(i) && Loser(clean, a, depth)(i) {
      assert Candidate(clean, i, depth) == "";
    }
    NothingGained(a.remaining, Winner(clean, a, depth), Namer(clean, depth));
    AllKept(a.remaining, Loser(clean, a, depth));
    NothingAdded(a.aliases, a.used);
  }

  ghost predicate Shallow(a: Alloc, deepest: nat) {
    forall i :: i in a.remaining ==> |Segments(i.path)| <= deepest
  }

  lemma RoundStaysShallow(clean: string -> string, a: Alloc, depth: nat, deepest: nat)
    requires Shallow(a, deepest)
    ensures Shallow(Round(clean, a, depth), deepest)
  {
    forall i | i in Round(clean, a, depth).remaining ensures |Segments(i.path)| <= deepest {
      KeptIff(a.remaining, Loser(clean, a, depth), i);
    }
  }

  ghost function ShallowTo(deepest: nat): Alloc -> bool {
    (a: Alloc) => Shallow(a, deepest)
  }

  /** Rounds that change nothing from `deepest` on need not be run. */
  lemma {:induction false} RoundsStop(
    round: (Alloc, nat) -> Alloc, keeps: Alloc -> bool, a: Alloc, depth: nat, deepest: nat, more: nat)
    requires keeps(a) && (forall x, d :: keeps(x) ==> keeps(round(x, d))) && deepest <= more
    requires forall x, d :: keeps(x) && d > deepest ==> round(x, d) == x
    ensures Rounds(round, a, depth, more) == Rounds(round, a, depth, deepest)
    decreases more + 1 - depth
  {
    if depth <= more {
      RoundsStop(round, keeps, round(a, depth), depth + 1, deepest, more);
    }
  }

  lemma IdleRounds(clean: string -> string, a: Alloc, depth: nat, deepest: nat, more: nat)
    requires Shallow(a, deepest) && deepest <= more
    ensures Rounds(Rounder(clean), a, depth, more) == Rounds(Rounder(clean), a, depth, deepest)
  {
    var keeps := ShallowTo(deepest);
    forall x, d | keeps(x) ensures keeps(Rounder(clean)(x, d)) {
      RoundStaysShallow(clean, x, d, deepest);
    }
    forall x, d | keeps(x) && d > deepest ensures Rounder(clean)(x, d) == x {
      IdleRound(clean, x, d);
    }
    RoundsStop(Rounder(clean), keeps, a, depth, deepest, more);
  }

  lemma AliasesAtDepth(clean: string -> string, entries: seq<Import>, source: Import, more: nat)
    requires Deepest(Start(entries, source).remaining) <= more
    ensures Aliases(clean, entries, source) == Done(clean, Start(entries, source), 1, more)
  {
    var a := Start(entries, source);
    forall i | i in a.remaining ensures |Segments(i.path)| <= Deepest(a.remaining) {
      DeepestBounds(a.remaining, i);
    }
    IdleRounds(clean, a, 1, Deepest(a.remaining), more);
  }

  // ---- the law -------------------------------------------------------------------------------------------------

  /** The newcomer, judged by the allocation without it, gets in nobody's way. */
  predicate Fits(clean: string -> string, entries: seq<Import>, source: Import, j: Import) {
    var a := Start(entries, source);
    var k := Place(j, a.remaining);
    Undisturbed(clean, a, k, j, 1, Deepest(Inserted(a.remaining, k, j)))
  }

  lemma UnchurnedIsSame(clean: string -> string, entries: seq<Import>, source: Import, j: Import)
    requires WellFormed(entries + [j], source) && NoSoleBearer(entries, source, j)
    requires Standing(source, j) == 0 && Collides(entries + [j], source, j)
    ensures Unchurned(clean, entries, source, j)
      <==> SameForOthers(Aliases(clean, entries, source), Aliases(clean, entries + [j], source), j)
  {
    var was, now := Aliases(clean, entries, source), Aliases(clean, entries + [j], source);
    FewerWellFormed(entries, source, j);
    AliasesAreFresh(clean, entries, source);
    AliasesAreFresh(clean, entries + [j], source);
    PathsPlus(entries, source, j);
    if Unchurned(clean, entries, source, j) {
      forall p | p in was ensures p in now && now[p] == was[p] {
        LineKeeps(clean, entries, source, j, p);
      }
      SameByValue(was, now, j);
    }
    if SameForOthers(was, now, j) {
      forall i | i in Lines(entries, source) ensures Effective(now, i) == Effective(was, i) {
        NotTheNewcomer(entries, source, j, i);
        SameEffective(was, now, j, i);
      }
    }
  }

  lemma SameByValue(was: map<string, string>, now: map<string, string>, j: Import)
    requires now.Keys == was.Keys + {j.path} && j.path !in was && forall p :: p in was ==> now[p] == was[p]
    ensures SameForOthers(was, now, j)
  {
  }

  lemma SameEffective(was: map<string, string>, now: map<string, string>, j: Import, i: Import)
    requires SameForOthers(was, now, j) && i.path != j.path
    ensures Effective(now, i) == Effective(was, i)
  {
    assert i.path in now <==> i.path in now - {j.path};
    assert i.path in was ==> (now - {j.path})[i.path] == was[i.path];
  }

  lemma LineKeeps(clean: string -> string, entries: seq<Import>, source: Import, j: Import, p: string)
    requires DistinctPaths(entries) && Unchurned(clean, entries, source, j) && p in PathsOf(Conflicts(entries, source))
    requires p in Aliases(clean, entries, source) && p in Aliases(clean, entries + [j], source)
    ensures Aliases(clean, entries + [j], source)[p] == Aliases(clean, entries, source)[p]
  {
    LineWithPath(entries, source, p);
    var i :| i in Lines(entries, source) && i.path == p;
    assert Effective(Aliases(clean, entries + [j], source), i) == Effective(Aliases(clean, entries, source), i);
  }

  lemma LineWithPath(entries: seq<Import>, source: Import, p: string)
    requires DistinctPaths(entries) && p in PathsOf(Conflicts(entries, source))
    ensures exists i :: i in Lines(entries, source) && i.path == p
  {
    ConflictsIff(entries, source);
    var i :| i in Conflicts(entries, source) && i.path == p;
    assert i in Lines(entries, source);
  }

  lemma NotTheNewcomer(entries: seq<Import>, source: Import, j: Import, i: Import)
    requires WellFormed(entries + [j], source) && Standing(source, j) == 0 && i in Lines(entries, source)
    ensures i.path != j.path
  {
    TemplateFacts();
    if i in entries {
      NewestIsNew(entries, j, i);
    }
  }

  lemma PathsPlus(entries: seq<Import>, source: Import, j: Import)
    requires WellFormed(entries + [j], source) && NoSoleBearer(entries, source, j)
    requires Standing(source, j) == 0 && Collides(entries + [j], source, j)
    ensures PathsOf(Conflicts(entries + [j], source)) == PathsOf(Conflicts(entries, source)) + {j.path}
    ensures j.path !in PathsOf(Conflicts(entries, source))
  {
    var a := Start(entries, source);
    var k := Place(j, a.remaining);
    FewerWellFormed(entries, source, j);
    StartWithNewcomer(entries, source, j);
    StartIsOk(entries, source);
    StartIsOk(entries + [j], source);
    NewPath(a.remaining, k, j);
    forall i ensures i in With(a, k, j).remaining <==> i in a.remaining || i == j {
      InsertedHolds(a.remaining, k, j, i);
    }
    assert PathsOf(With(a, k, j).remaining) == PathsOf(a.remaining) + {j.path};
  }

  /** The question for names is the question for the allocation with the newcomer inserted. */
  lemma UnchurnedIsSameEnd(clean: string -> string, entries: seq<Import>, source: Import, j: Import)
    requires WellFormed(entries + [j], source) && NoSoleBearer(entries, source, j)
    requires Standing(source, j) == 0 && Collides(entries + [j], source, j)
    ensures var a := Start(entries, source); var k := Place(j, a.remaining);
      Unchurned(clean, entries, source, j) <==> SameEnd(clean, a, k, j, 1, Deepest(Inserted(a.remaining, k, j)))
  {
    var a := Start(entries, source);
    var k := Place(j, a.remaining);
    var deepest := Deepest(Inserted(a.remaining, k, j));
    StartWithNewcomer(entries, source, j);
    DeepestGrows(a.remaining, k, j);
    AliasesAtDepth(clean, entries, source, deepest);
    AliasesAtDepth(clean, entries + [j], source, deepest);
    UnchurnedIsSame(clean, entries, source, j);
  }

  /** A colliding newcomer that leaves no sole bearer: the law, one way for all import lists,
      and both ways unless somebody proposes a name twice. */
  lemma JoiningChurnsIff(clean: string -> string, entries: seq<Import>, source: Import, j: Import)
    requires WellFormed(entries + [j], source) && NoSoleBearer(entries, source, j)
    requires Standing(source, j) == 0 && Collides(entries + [j], source, j)
    ensures Fits(clean, entries, source, j) ==> Unchurned(clean, entries, source, j)
    ensures Unchurned(clean, entries, source, j) && !Fits(clean, entries, source, j) ==>
      exists i :: i in Conflicts(entries, source) && !Varied(clean, i)
  {
    var a, taken := Start(entries, source), Taken(entries, source);
    var k := Place(j, a.remaining);
    var deepest := Deepest(Inserted(a.remaining, k, j));
    StartWithNewcomer(entries, source, j);
    UnchurnedIsSameEnd(clean, entries, source, j);
    if Undisturbed(clean, a, k, j, 1, deepest) {
      SameEndIf(clean, a, k, j, 1, deepest, taken);
    } else if forall i :: i in Conflicts(entries, source) ==> Varied(clean, i) {
      WaitersAreConflicts(entries, source);
      SameEndOnlyIf(clean, a, k, j, 1, deepest, taken);
    }
  }

  lemma WaitersAreConflicts(entries: seq<Import>, source: Import)
    ensures forall i :: i in Start(entries, source).remaining <==> i in Conflicts(entries, source)
  {
    PathOrder();
    SortSorts(PathLess, Conflicts(entries, source));
    SameElements(Sort(PathLess, Conflicts(entries, source)), Conflicts(entries, source));
  }

  lemma SameElements(s: seq<Import>, t: seq<Import>)
    requires multiset(s) == multiset(t)
    ensures forall i :: i in s <==> i in t
  {
    forall i ensures i in s <==> i in t {
      assert i in s <==> i in multiset(s);
      assert i in t <==> i in multiset(t);
    }
  }

  /** One more line for a package the file imports anyway changes nothing. */
  lemma FixedLineNeverChurns(clean: string -> string, entries: seq<Import>, source: Import, j: Import)
    requires WellFormed(entries + [j], source) && Standing(source, j) > 0
    ensures Aliases(clean, entries + [j], source) == Aliases(clean, entries, source)
  {
    FixedLineIsTaken(entries, source, j);
    SameConflicts(entries, source, j);
  }

  /** The name of such a line is reserved or the source's own. */
  lemma FixedLineIsTaken(entries: seq<Import>, source: Import, j: Import)
    requires WellFormed(entries + [j], source) && Standing(source, j) > 0
    ensures Taken(entries + [j], source) == Taken(entries, source)
    ensures !Conflicting(entries + [j], source, j)
    ensures forall i :: i in entries ==> (Conflicting(entries + [j], source, i) <==> Conflicting(entries, source, i))
  {
    TemplateFacts();
    assert j in entries + [j];
    assert NamesOf(entries + [j]) == NamesOf(entries) + {j.name};
    forall i | i in entries ensures Conflicting(entries + [j], source, i) <==> Conflicting(entries, source, i) {
      CountOneMore(entries, j, i.name);
    }
  }

  lemma CountOneMore(entries: seq<Import>, j: Import, name: string)
    ensures CountNamed(entries + [j], name) == CountNamed(entries, name) + if j.name == name then 1 else 0
  {
    assert (entries + [j])[..|entries|] == entries;
  }

  lemma SameConflicts(entries: seq<Import>, source: Import, j: Import)
    requires !Conflicting(entries + [j], source, j)
    requires forall i :: i in entries ==> (Conflicting(entries + [j], source, i) <==> Conflicting(entries, source, i))
    ensures Conflicts(entries + [j], source) == Conflicts(entries, source)
  {
    KeptSame(entries, Conflicted(entries + [j], source), Conflicted(entries, source));
    assert (entries + [j])[..|entries|] == entries;
  }

  /** When a new import is harmless, told from the imports and the allocation without it. */
  ghost predicate Harmless(clean: string -> string, entries: seq<Import>, source: Import, j: Import) {
    if Standing(source, j) > 0 then true
    else if !Collides(entries + [j], source, j) then j.name !in Aliases(clean, entries, source).Values
    else NoSoleBearer(entries, source, j) && Fits(clean, entries, source, j)
  }

  /** For every import list and every new import: a harmless one changes no existing name;
      one that is not harmless changes some, unless an import that collided before proposes
      a name twice. */
  lemma NewImportChurnsIff(clean: string -> string, entries: seq<Import>, source: Import, j: Import)
    requires WellFormed(entries + [j], source)
    ensures Harmless(clean, entries, source, j) ==> Unchurned(clean, entries, source, j)
    ensures Unchurned(clean, entries, source, j) && !Harmless(clean, entries, source, j) ==>
      exists i :: i in Conflicts(entries, source) && !Varied(clean, i)
  {
    if Standing(source, j) > 0 {
      FixedLineNeverChurns(clean, entries, source, j);
    } else if !Collides(entries + [j], source, j) {
      AddingChurnsIff(clean, entries, source, j);
    } else if i :| SoleBearer(entries, source, j, i) {
      SoleBearerChurns(clean, entries, source, j, i);
    } else {
      JoiningChurnsIff(clean, entries, source, j);
    }
  }
}
