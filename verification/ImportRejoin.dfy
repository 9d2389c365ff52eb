/** A newcomer that contests a name and yet changes nothing: the one contested proposes the
    same name again in a later round. It shows why the law for newcomers has an exception. */
module ImportRejoin {
  import opened Orders
  import opened ImportNames
  import opened ImportLaws
  import opened ImportChurn
  import opened ImportNewcomer
  import opened ImportNewcomerLaws

  // ---- the shape of it ------------------------------------------------------------------------------------

  /** Two wait; the rival contests the first one's name in round one, and only there. */
  ghost predicate Shape(clean: string -> string, a: Alloc, k: nat, twice: Import, other: Import, rival: Import) {
    && k <= |a.remaining| && DistinctPaths(Inserted(a.remaining, k, rival)) && twice.path != other.path
    && (forall i :: i in a.remaining <==> i == twice || i == other)
    && var x := Candidate(clean, twice, 1);
       && x != "" && x !in a.used && Candidate(clean, twice, 2) == x && Candidate(clean, rival, 1) == x
       && Candidate(clean, rival, 2) != x
       && Candidate(clean, other, 1) != "" && Candidate(clean, other, 1) != x && Candidate(clean, other, 1) !in a.used
  }

  lemma ServedAlone(clean: string -> string, a: Alloc, depth: nat, i: Import)
    requires DistinctPaths(a.remaining) && i in a.remaining
    requires Candidate(clean, i, depth) != "" && Candidate(clean, i, depth) !in a.used
    requires forall o :: o in a.remaining && o.path != i.path ==> Candidate(clean, o, depth) != Candidate(clean, i, depth)
    ensures Wins(clean, a, depth, i) && Fixed(Round(clean, a, depth), i.path, Candidate(clean, i, depth))
  {
    var k :| 0 <= k < |a.remaining| && a.remaining[k] == i;
    WinsIffAlone(clean, a, depth, k);
    WinnerIsFixed(clean, a, depth, i);
  }

  predicate BothHave(all: map<string, string>, i: Import, x: string, o: Import, y: string) {
    i.path in all && all[i.path] == x && o.path in all && all[o.path] == y
  }

  lemma SameForBoth(was: map<string, string>, now: map<string, string>, i: Import, x: string, o: Import, y: string, j: Import)
    requires BothHave(was, i, x, o, y) && BothHave(now, i, x, o, y) && j.path != i.path && j.path != o.path
    requires was.Keys == {i.path, o.path} && now.Keys == {i.path, o.path, j.path}
    ensures SameForOthers(was, now, j)
  {
    SameByValue(was, now, j);
  }

  /** Without the rival both are served in the first round. */
  lemma WithoutRival(clean: string -> string, a: Alloc, k: nat, twice: Import, other: Import, rival: Import, deepest: nat)
    requires Shape(clean, a, k, twice, other, rival) && deepest >= 2
    ensures Wins(clean, a, 1, twice)
    ensures BothHave(Done(clean, a, 1, deepest), twice, Candidate(clean, twice, 1), other, Candidate(clean, other, 1))
  {
    NewPath(a.remaining, k, rival);
    ServedAlone(clean, a, 1, twice);
    ServedAlone(clean, a, 1, other);
    DoneStep(clean, a, 1, deepest);
    FixedIsDone(clean, Round(clean, a, 1), 2, deepest, twice.path, Candidate(clean, twice, 1));
    FixedIsDone(clean, Round(clean, a, 1), 2, deepest, other.path, Candidate(clean, other, 1));
  }

  /** After the contested round the two of them still wait, and the name is still free. */
  lemma AfterContest(clean: string -> string, a: Alloc, k: nat, twice: Import, other: Import, rival: Import)
    requires Shape(clean, a, k, twice, other, rival)
    ensures var b := Round(clean, With(a, k, rival), 1);
      && Fixed(b, other.path, Candidate(clean, other, 1)) && DistinctPaths(b.remaining) && twice in b.remaining
      && (forall i :: i in b.remaining ==> i == twice || i == rival)
      && Candidate(clean, twice, 1) !in b.used
  {
    var c := With(a, k, rival);
    var b, x := Round(clean, c, 1), Candidate(clean, twice, 1);
    NewPath(a.remaining, k, rival);
    forall i ensures i in c.remaining <==> i in a.remaining || i == rival {
      InsertedHolds(a.remaining, k, rival, i);
    }
    ServedAlone(clean, c, 1, other);
    WinsWith(clean, a, k, 1, rival, twice);
    RoundPaths(clean, c, 1);
    forall i ensures i in b.remaining <==> i in c.remaining && !Wins(clean, c, 1, i) {
      KeptIff(c.remaining, Loser(clean, c, 1), i);
    }
    forall p | p in WonIn(clean, c, 1) ensures WonIn(clean, c, 1)[p] != x {
      var i := WonBy(clean, c, 1, p);
      RivalLoses(clean, a, k, twice, other, rival);
    }
  }

  lemma RivalLoses(clean: string -> string, a: Alloc, k: nat, twice: Import, other: Import, rival: Import)
    requires Shape(clean, a, k, twice, other, rival)
    ensures !Stands(clean, a, 1, rival) && !Wins(clean, With(a, k, rival), 1, rival)
  {
    var same := ByCandidate(clean, 1, Candidate(clean, rival, 1));
    NewcomerWins(clean, a, k, 1, rival);
    CountPositive(a.remaining, same);
    assert twice in a.remaining;
    var n :| 0 <= n < |a.remaining| && a.remaining[n] == twice;
    assert same(a.remaining[n]);
  }

  /** With the rival the contested one waits a round and is served with the same name. */
  lemma WithRival(clean: string -> string, a: Alloc, k: nat, twice: Import, other: Import, rival: Import, deepest: nat)
    requires Shape(clean, a, k, twice, other, rival) && deepest >= 2
    ensures BothHave(
      Done(clean, With(a, k, rival), 1, deepest), twice, Candidate(clean, twice, 1), other, Candidate(clean, other, 1))
  {
    var b := Round(clean, With(a, k, rival), 1);
    AfterContest(clean, a, k, twice, other, rival);
    ServedAlone(clean, b, 2, twice);
    DoneStep(clean, With(a, k, rival), 1, deepest);
    DoneStep(clean, b, 2, deepest);
    FixedIsDone(clean, b, 2, deepest, other.path, Candidate(clean, other, 1));
    FixedIsDone(clean, Round(clean, b, 2), 3, deepest, twice.path, Candidate(clean, twice, 1));
  }

  lemma Rejoins(
    clean: string -> string, a: Alloc, k: nat, twice: Import, other: Import, rival: Import, deepest: nat, taken: set<string>)
    requires Ready(a, k, rival, taken) && a.aliases == map[] && Shape(clean, a, k, twice, other, rival) && deepest >= 2
    ensures SameEnd(clean, a, k, rival, 1, deepest) && !Undisturbed(clean, a, k, rival, 1, deepest)
  {
    RejoinsInTheEnd(clean, a, k, twice, other, rival, deepest, taken);
    IsContested(clean, a, k, twice, other, rival);
  }

  lemma RejoinsInTheEnd(
    clean: string -> string, a: Alloc, k: nat, twice: Import, other: Import, rival: Import, deepest: nat, taken: set<string>)
    requires Ready(a, k, rival, taken) && a.aliases == map[] && Shape(clean, a, k, twice, other, rival) && deepest >= 2
    ensures SameEnd(clean, a, k, rival, 1, deepest)
  {
    var was, now := Done(clean, a, 1, deepest), Done(clean, With(a, k, rival), 1, deepest);
    WithoutRival(clean, a, k, twice, other, rival, deepest);
    WithRival(clean, a, k, twice, other, rival, deepest);
    TheyAllEnd(clean, a, k, twice, other, rival, deepest, taken);
    NewPath(a.remaining, k, rival);
    assert twice in a.remaining && other in a.remaining;
    SameForBoth(was, now, twice, Candidate(clean, twice, 1), other, Candidate(clean, other, 1), rival);
  }

  lemma TheyAllEnd(
    clean: string -> string, a: Alloc, k: nat, twice: Import, other: Import, rival: Import, deepest: nat, taken: set<string>)
    requires Ready(a, k, rival, taken) && a.aliases == map[] && forall i :: i in a.remaining <==> i == twice || i == other
    ensures Done(clean, a, 1, deepest).Keys == {twice.path, other.path}
    ensures Done(clean, With(a, k, rival), 1, deepest).Keys == {twice.path, other.path, rival.path}
  {
    ReadyWith(a, k, rival, taken);
    DoneIsOk(clean, a, 1, deepest, taken);
    DoneIsOk(clean, With(a, k, rival), 1, deepest, taken);
    TwoPaths(a, k, twice, other, rival);
  }

  lemma IsContested(clean: string -> string, a: Alloc, k: nat, twice: Import, other: Import, rival: Import)
    requires DistinctPaths(a.remaining) && Shape(clean, a, k, twice, other, rival)
    ensures !Stands(clean, a, 1, rival) && Contests(clean, a, 1, rival)
  {
    RivalLoses(clean, a, k, twice, other, rival);
    ServedAlone(clean, a, 1, twice);
    WinnersName(clean, a, 1, twice);
  }

  lemma TwoPaths(a: Alloc, k: nat, twice: Import, other: Import, rival: Import)
    requires k <= |a.remaining| && (forall i :: i in a.remaining <==> i == twice || i == other)
    ensures PathsOf(a.remaining) == {twice.path, other.path}
    ensures PathsOf(With(a, k, rival).remaining) == {twice.path, other.path, rival.path}
  {
    assert twice in a.remaining && other in a.remaining;
    forall i ensures i in With(a, k, rival).remaining <==> i == twice || i == other || i == rival {
      InsertedHolds(a.remaining, k, rival, i);
    }
    assert twice in With(a, k, rival).remaining && other in With(a, k, rival).remaining && rival in With(a, k, rival).remaining;
  }

  // ---- an input of that shape ----------------------------------------------------------------------------------

  const Twice := Import("x", "a//d")
  const Other := Import("x", "q/r")
  const Rival := Import("x", "z/d")

  lemma OneMore(c: char, rest: string, parts: seq<string>)
    requires c != '/' && Segments(rest) == parts
    ensures Segments([c] + rest) == [[c] + parts[0]] + parts[1..]
    ensures Segments(['/'] + rest) == [""] + parts
  {
    assert ([c] + rest)[1..] == rest && (['/'] + rest)[1..] == rest;
  }

  lemma Split(c: char, e: char)
    requires c != '/' && e != '/'
    ensures Segments([c, '/', e]) == [[c], [e]] && Segments([c, '/', '/', e]) == [[c], "", [e]]
  {
    OneMore(e, "", [""]);
    assert [e] + "" == [e] && [""][1..] == [];
    OneMore(c, [e], [[e]]);
    OneMore(c, ['/', e], ["", [e]]);
    assert ['/'] + [e] == ['/', e] && ['/'] + ['/', e] == ['/', '/', e];
    assert [c] + ['/', e] == [c, '/', e] && ["", [e]][1..] == [[e]] && [c] + "" == [c];
    OneMore(c, ['/', '/', e], ["", "", [e]]);
    assert [c] + ['/', '/', e] == [c, '/', '/', e] && ["", "", [e]][1..] == ["", [e]];
  }

  lemma JoinTwo(a: string, b: string)
    ensures Join([b]) == b && Join([a, b]) == a + b
  {
    assert [b][1..] == [] && b + [] == b;
    assert [a, b][1..] == [b];
  }

  lemma LastParts(i: Import, a: string, b: string)
    requires Segments(i.path) == [a, b]
    ensures Candidate(Plain, i, 1) == b && Candidate(Plain, i, 2) == a + b
  {
    JoinTwo(a, b);
    assert [a, b][1..] == [b] && [a, b][0..] == [a, b];
  }

  lemma Proposed()
    ensures Candidate(Plain, Twice, 1) == "d" && Candidate(Plain, Twice, 2) == "d"
    ensures Candidate(Plain, Other, 1) == "r"
    ensures Candidate(Plain, Rival, 1) == "d" && Candidate(Plain, Rival, 2) == "zd"
    ensures |Segments(Twice.path)| == 3
  {
    Split('a', 'd');
    Split('q', 'r');
    Split('z', 'd');
    assert Other.path == ['q', '/', 'r'] && Rival.path == ['z', '/', 'd'] && Twice.path == ['a', '/', '/', 'd'];
    LastParts(Other, "q", "r");
    LastParts(Rival, "z", "d");
    JoinTwo("", "d");
    assert ["a", "", "d"][2..] == ["d"] && ["a", "", "d"][1..] == ["", "d"];
  }

  lemma PathsDiffer()
    ensures Twice.path != Other.path && Twice.path != Rival.path && Other.path != Rival.path
    ensures DistinctPaths([Twice, Other] + [Rival]) && DistinctPaths([Twice, Other])
  {
    assert Twice.path[0] != Other.path[0] && Twice.path[0] != Rival.path[0] && Other.path[0] != Rival.path[0];
  }

  lemma AllRegular()
    ensures WellFormed([Twice, Other] + [Rival], Own) && WellFormed([Twice, Other], Own)
    ensures Standing(Own, Rival) == 0 && Standing(Own, Twice) == 0 && Standing(Own, Other) == 0
  {
    PathsDiffer();
    assert |Twice.path| == 4 && |Other.path| == 3 && |Rival.path| == 3 && |"fmt"| == 3 && Other.path[0] != 'f' && Rival.path[0] != 'f';
  }

  lemma AllCollide()
    ensures Collides([Twice, Other], Own, Twice) && Collides([Twice, Other], Own, Other)
    ensures Collides([Twice, Other] + [Rival], Own, Rival)
    ensures NoSoleBearer([Twice, Other], Own, Rival)
  {
    PathsDiffer();
    AllRegular();
    assert Twice in Lines([Twice, Other], Own) && Other in Lines([Twice, Other], Own);
    assert Twice in Lines([Twice, Other] + [Rival], Own);
  }

  lemma BothWait()
    ensures forall i :: i in Start([Twice, Other], Own).remaining <==> i == Twice || i == Other
  {
    TheyConflict();
    AllRegular();
    WaitersAreConflicts([Twice, Other], Own);
  }

  lemma TheyConflict()
    ensures forall i :: i in Conflicts([Twice, Other], Own) <==> i == Twice || i == Other
  {
    AllRegular();
    TheyAreConflicting();
    ConflictsIff([Twice, Other], Own);
  }

  lemma TheyAreConflicting()
    ensures Conflicting([Twice, Other], Own, Twice) && Conflicting([Twice, Other], Own, Other) && Own.name !in Reserved()
  {
    AllRegular();
    AllCollide();
    RegularCollides([Twice, Other], Own, Twice);
    RegularCollides([Twice, Other], Own, Other);
  }

  lemma NamesAreFree()
    ensures "d" !in Taken([Twice, Other], Own) && "r" !in Taken([Twice, Other], Own)
  {
  }

  /** A contest without churn: `a//d` proposes `d` in two rounds, so it gets it although the
      rival `z/d` contests it in the first. */
  lemma ContestedYetUnchurned()
    ensures WellFormed([Twice, Other] + [Rival], Own) && Unchurned(Plain, [Twice, Other], Own, Rival)
    ensures !Harmless(Plain, [Twice, Other], Own, Rival) && !Varied(Plain, Twice)
  {
    var a := Start([Twice, Other], Own);
    var k := Place(Rival, a.remaining);
    var deepest := Deepest(Inserted(a.remaining, k, Rival));
    AllRegular();
    AllCollide();
    BothWait();
    StartWithNewcomer([Twice, Other], Own, Rival);
    ShapeHolds(a, k);
    InsertedHolds(a.remaining, k, Rival, Twice);
    DeepestBounds(Inserted(a.remaining, k, Rival), Twice);
    Proposed();
    Rejoins(Plain, a, k, Twice, Other, Rival, deepest, Taken([Twice, Other], Own));
    UnchurnedIsSameEnd(Plain, [Twice, Other], Own, Rival);
  }

  lemma ShapeHolds(a: Alloc, k: nat)
    requires k <= |a.remaining| && DistinctPaths(Inserted(a.remaining, k, Rival)) && a.used == Taken([Twice, Other], Own)
    requires forall i :: i in a.remaining <==> i == Twice || i == Other
    ensures Shape(Plain, a, k, Twice, Other, Rival)
  {
    PathsDiffer();
    NamesAreFree();
    Proposed();
    assert "d" != "" && "r" != "" && |"zd"| != |"d"| && "r"[0] != "d"[0];
  }
}
