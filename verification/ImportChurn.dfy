/** When adding an import leaves the names of the others alone, for an import whose name
    collides with nothing. The generator means it always to; it does exactly when the new
    name is not one of the aliases in use. Of imports that collide ImportNewcomerLaws tells. */
module ImportChurn {
  import opened Orders
  import opened ImportNames
  import opened ImportLaws

  // ---- one more name in use ----------------------------------------------------------------------

  function WithUsed(a: Alloc, x: string): Alloc {
    a.(used := a.used + {x})
  }

  lemma {:induction false} GainedSame(s: seq<Import>, f: Import -> bool, g: Import -> bool, name: Import -> string)
    requires forall i :: i in s ==> f(i) == g(i)
    ensures Gained(s, f, name) == Gained(s, g, name)
  {
    if s != [] {
      var init := s[..|s| - 1];
      assert forall i :: i in init ==> i in s;
      GainedSame(init, f, g, name);
    }
  }

  lemma {:induction false} KeptSame(s: seq<Import>, f: Import -> bool, g: Import -> bool)
    requires forall i :: i in s ==> f(i) == g(i)
    ensures Kept(s, f) == Kept(s, g)
  {
    if s != [] {
      var init := s[..|s| - 1];
      assert forall i :: i in init ==> i in s;
      KeptSame(init, f, g);
    }
  }

  /** A name that nobody gains in a round may as well have been in use. */
  lemma RoundIgnores(clean: string -> string, a: Alloc, depth: nat, x: string)
    requires DistinctPaths(a.remaining) && x !in WonIn(clean, a, depth).Values
    ensures Round(clean, WithUsed(a, x), depth) == WithUsed(Round(clean, a, depth), x)
  {
    var a' := WithUsed(a, x);
    forall i | i in a.remaining ensures Wins(clean, a', depth, i) == Wins(clean, a, depth, i) {
      if Wins(clean, a, depth, i) {
        GainedValue(a.remaining, Winner(clean, a, depth), Namer(clean, depth), i);
      }
    }
    GainedSame(a.remaining, Winner(clean, a, depth), Winner(clean, a', depth), Namer(clean, depth));
    KeptSame(a.remaining, Loser(clean, a, depth), Loser(clean, a', depth));
  }

  // ---- aliases stay ---------------------------------------------------------------------------------

  /** `p` has its alias for good: nobody of that path waits any more. */
  ghost predicate Fixed(a: Alloc, p: string, alias: string) {
    p in a.aliases && a.aliases[p] == alias && forall i :: i in a.remaining ==> i.path != p
  }

  ghost function FixedAs(p: string, alias: string): Alloc -> bool {
    (a: Alloc) => Fixed(a, p, alias)
  }

  lemma RoundKeepsFixed(clean: string -> string, a: Alloc, depth: nat, p: string, alias: string)
    requires Fixed(a, p, alias)
    ensures Fixed(Round(clean, a, depth), p, alias)
  {
    GainedKey(a.remaining, Winner(clean, a, depth), Namer(clean, depth), p);
    forall i | i in Round(clean, a, depth).remaining ensures i.path != p {
      KeptIff(a.remaining, Loser(clean, a, depth), i);
    }
  }

  lemma RoundsKeepFixed(clean: string -> string, a: Alloc, depth: nat, deepest: nat, p: string, alias: string)
    requires Fixed(a, p, alias)
    ensures Fixed(Rounds(Rounder(clean), a, depth, deepest), p, alias)
  {
    var keeps := FixedAs(p, alias);
    forall x, d | keeps(x) ensures keeps(Rounder(clean)(x, d)) {
      RoundKeepsFixed(clean, x, d, p, alias);
    }
    RoundsKeep(Rounder(clean), keeps, a, depth, deepest);
    assert keeps(Rounds(Rounder(clean), a, depth, deepest));
  }

  lemma {:induction false} NumberedKeepsFixed(a: Alloc, n: nat, p: string, alias: string)
    requires n <= |a.remaining| && Fixed(a, p, alias)
    ensures p in Numbered(a, n).aliases && Numbered(a, n).aliases[p] == alias
  {
    if n > 0 {
      NumberedKeepsFixed(a, n - 1, p, alias);
      assert a.remaining[n - 1] in a.remaining;
    }
  }

  /** Whoever wins a round has its alias for good. */
  lemma WinnerIsFixed(clean: string -> string, a: Alloc, depth: nat, i: Import)
    requires DistinctPaths(a.remaining) && i in a.remaining && Wins(clean, a, depth, i)
    ensures Fixed(Round(clean, a, depth), i.path, Candidate(clean, i, depth))
  {
    GainedValue(a.remaining, Winner(clean, a, depth), Namer(clean, depth), i);
    forall j | j in Round(clean, a, depth).remaining ensures j.path != i.path {
      KeptIff(a.remaining, Loser(clean, a, depth), j);
      if j.path == i.path {
        SamePath(a.remaining, i, j);
      }
    }
  }

  // ---- the whole allocation ignores a name that is no alias ----------------------------------------------

  function Done(clean: string -> string, a: Alloc, depth: nat, deepest: nat): map<string, string> {
    var b := Rounds(Rounder(clean), a, depth, deepest);
    Numbered(b, |b.remaining|).aliases
  }

  lemma FixedIsDone(clean: string -> string, a: Alloc, depth: nat, deepest: nat, p: string, alias: string)
    requires Fixed(a, p, alias)
    ensures p in Done(clean, a, depth, deepest) && Done(clean, a, depth, deepest)[p] == alias
  {
    RoundsKeepFixed(clean, a, depth, deepest, p, alias);
    var b := Rounds(Rounder(clean), a, depth, deepest);
    NumberedKeepsFixed(b, |b.remaining|, p, alias);
  }

  lemma {:induction false} RoundsIgnore(clean: string -> string, a: Alloc, depth: nat, deepest: nat, x: string)
    requires DistinctPaths(a.remaining) && x !in Done(clean, a, depth, deepest).Values
    ensures Rounds(Rounder(clean), WithUsed(a, x), depth, deepest)
         == WithUsed(Rounds(Rounder(clean), a, depth, deepest), x)
    decreases deepest + 1 - depth
  {
    if depth <= deepest {
      var b := Round(clean, a, depth);
      assert Rounds(Rounder(clean), a, depth, deepest) == Rounds(Rounder(clean), b, depth + 1, deepest);
      forall p | p in WonIn(clean, a, depth) ensures WonIn(clean, a, depth)[p] != x {
        var i := WonBy(clean, a, depth, p);
        WinnerIsFixed(clean, a, depth, i);
        FixedIsDone(clean, b, depth + 1, deepest, p, Candidate(clean, i, depth));
      }
      RoundIgnores(clean, a, depth, x);
      RoundPaths(clean, a, depth);
      RoundsIgnore(clean, b, depth + 1, deepest, x);
    }
  }

  lemma {:induction false} SuffixIgnores(used: set<string>, name: string, k: nat, x: string)
    requires Suffixed(name, FreeSuffix(used, name, k)) != x
    ensures FreeSuffix(used + {x}, name, k) == FreeSuffix(used, name, k)
    decreases |Ahead(used, name, k)|
  {
    if Suffixed(name, k) in used {
      AheadShrinks(used, name, k);
      SmallerSet(Ahead(used, name, k + 1), Ahead(used, name, k));
      SuffixIgnores(used, name, k + 1, x);
    }
  }

  /** An alias given by number stays. */
  lemma {:induction false} NumberStays(a: Alloc, k: nat, n: nat)
    requires DistinctPaths(a.remaining) && k < n <= |a.remaining|
    ensures var p := a.remaining[k].path;
      p in Numbered(a, k + 1).aliases && p in Numbered(a, n).aliases
      && Numbered(a, n).aliases[p] == Numbered(a, k + 1).aliases[p]
  {
    if k + 1 < n {
      NumberStays(a, k, n - 1);
      assert a.remaining[k].path != a.remaining[n - 1].path;
    }
  }

  function Served(a: Alloc, p: string, alias: string): Alloc {
    a.(aliases := a.aliases[p := alias], used := a.used + {alias})
  }

  lemma NumberedStep(a: Alloc, n: nat)
    requires n < |a.remaining|
    ensures var b, i := Numbered(a, n), a.remaining[n];
      Numbered(a, n + 1) == Served(b, i.path, Suffixed(i.name, FreeSuffix(b.used, i.name, 2)))
  {
  }

  lemma ServedWithUsed(a: Alloc, x: string, p: string, v: string)
    ensures Served(WithUsed(a, x), p, v) == WithUsed(Served(a, p, v), x)
  {
  }

  /** A name that nobody is given in the end does not change whose turn gives which number. */
  lemma SameNumber(a: Alloc, m: nat, y: string)
    requires m < |a.remaining| && DistinctPaths(a.remaining) && y !in Numbered(a, |a.remaining|).aliases.Values
    ensures var used, name := Numbered(a, m).used, a.remaining[m].name;
      FreeSuffix(used + {y}, name, 2) == FreeSuffix(used, name, 2)
  {
    NumberStays(a, m, |a.remaining|);
    SuffixIgnores(Numbered(a, m).used, a.remaining[m].name, 2, y);
  }

  lemma TurnIgnores(a: Alloc, n: nat, x: string)
    requires n < |a.remaining| && Numbered(WithUsed(a, x), n) == WithUsed(Numbered(a, n), x)
    requires var used, name := Numbered(a, n).used, a.remaining[n].name;
      FreeSuffix(used + {x}, name, 2) == FreeSuffix(used, name, 2)
    ensures Numbered(WithUsed(a, x), n + 1) == WithUsed(Numbered(a, n + 1), x)
  {
    var before, i := Numbered(a, n), a.remaining[n];
    NumberedStep(a, n);
    NumberedStep(WithUsed(a, x), n);
    ServedWithUsed(before, x, i.path, Suffixed(i.name, FreeSuffix(before.used, i.name, 2)));
  }

  lemma {:induction false} NumberedIgnores(a: Alloc, n: nat, x: string)
    requires DistinctPaths(a.remaining) && n <= |a.remaining| && x !in Numbered(a, |a.remaining|).aliases.Values
    ensures Numbered(WithUsed(a, x), n) == WithUsed(Numbered(a, n), x)
  {
    if n > 0 {
      NumberedIgnores(a, n - 1, x);
      SameNumber(a, n - 1, x);
      TurnIgnores(a, n - 1, x);
    }
  }

  lemma DoneIgnores(clean: string -> string, a: Alloc, deepest: nat, x: string)
    requires DistinctPaths(a.remaining) && x !in Done(clean, a, 1, deepest).Values
    ensures Done(clean, WithUsed(a, x), 1, deepest) == Done(clean, a, 1, deepest)
  {
    var b := Rounds(Rounder(clean), a, 1, deepest);
    RoundsIgnore(clean, a, 1, deepest, x);
    RoundsKeepDistinct(clean, a, 1, deepest);
    NumberedIgnores(b, |b.remaining|, x);
  }

  lemma {:induction false} RoundsKeepDistinct(clean: string -> string, a: Alloc, depth: nat, deepest: nat)
    requires DistinctPaths(a.remaining)
    ensures DistinctPaths(Rounds(Rounder(clean), a, depth, deepest).remaining)
    decreases deepest + 1 - depth
  {
    if depth <= deepest {
      RoundPaths(clean, a, depth);
      RoundsKeepDistinct(clean, Round(clean, a, depth), depth + 1, deepest);
    }
  }

  // ---- one more import --------------------------------------------------------------------------------------

  lemma SharingMeansConflict(entries: seq<Import>, source: Import, j: Import, i: Import)
    requires WellFormed(entries + [j], source) && !Collides(entries + [j], source, j) && i in entries
    ensures Conflicting(entries + [j], source, i) <==> Conflicting(entries, source, i)
  {
    var more := entries + [j];
    TemplateFacts();
    assert more[..|entries|] == entries;
    assert CountNamed(more, i.name) == CountNamed(entries, i.name) + if j.name == i.name then 1 else 0;
    if j.name == i.name {
      assert i in Lines(more, source) && i in more && j in more;
      assert i.path != j.path by {
        var k :| 0 <= k < |entries| && entries[k] == i;
        assert more[k] == i && more[|entries|] == j;
      }
      LineOf(more, source, j);
    }
  }

  lemma SameConflictsPlus(entries: seq<Import>, source: Import, j: Import)
    requires WellFormed(entries + [j], source) && !Collides(entries + [j], source, j)
    ensures Conflicts(entries + [j], source) == Conflicts(entries, source)
  {
    var more := entries + [j];
    forall i | i in entries ensures Conflicted(more, source)(i) == Conflicted(entries, source)(i) {
      SharingMeansConflict(entries, source, j, i);
    }
    KeptSame(entries, Conflicted(more, source), Conflicted(entries, source));
    assert more[..|entries|] == entries;
    assert j in more && j in Lines(more, source);
    if Standing(source, j) == 0 {
      RegularCollides(more, source, j);
    }
  }

  lemma StartPlus(entries: seq<Import>, source: Import, j: Import)
    requires WellFormed(entries + [j], source) && !Collides(entries + [j], source, j)
    ensures Start(entries + [j], source) == WithUsed(Start(entries, source), j.name)
  {
    SameConflictsPlus(entries, source, j);
    assert NamesOf(entries + [j]) == NamesOf(entries) + {j.name};
  }

  /** No existing import changes its name. */
  ghost predicate Unchurned(clean: string -> string, entries: seq<Import>, source: Import, j: Import) {
    forall i :: i in Lines(entries, source) ==>
      Effective(Aliases(clean, entries + [j], source), i) == Effective(Aliases(clean, entries, source), i)
  }

  lemma FewerDistinct(entries: seq<Import>, j: Import)
    requires DistinctPaths(entries + [j])
    ensures DistinctPaths(entries)
  {
    forall a, b | 0 <= a < b < |entries| ensures entries[a].path != entries[b].path {
      assert (entries + [j])[a] == entries[a] && (entries + [j])[b] == entries[b];
    }
  }

  lemma TakenAliasMoves(clean: string -> string, entries: seq<Import>, source: Import, j: Import)
    requires WellFormed(entries + [j], source) && !Collides(entries + [j], source, j)
    requires j.name in Aliases(clean, entries, source).Values
    ensures !Unchurned(clean, entries, source, j)
  {
    var was, now := Aliases(clean, entries, source), Aliases(clean, entries + [j], source);
    var p :| p in was && was[p] == j.name;
    FewerDistinct(entries, j);
    AliasesAreFresh(clean, entries, source);
    AliasesAreFresh(clean, entries + [j], source);
    SameConflictsPlus(entries, source, j);
    ConflictsIff(entries, source);
    var i :| i in Conflicts(entries, source) && i.path == p;
    assert i in Lines(entries, source);
    assert j in entries + [j] && j.name in Taken(entries + [j], source);
  }

  /** Adding an import that collides with nothing changes no existing name if and only if
      its own name is not an alias in use. */
  lemma AddingChurnsIff(clean: string -> string, entries: seq<Import>, source: Import, j: Import)
    requires WellFormed(entries + [j], source) && !Collides(entries + [j], source, j)
    ensures Unchurned(clean, entries, source, j) <==> j.name !in Aliases(clean, entries, source).Values
  {
    if j.name in Aliases(clean, entries, source).Values {
      TakenAliasMoves(clean, entries, source, j);
    } else {
      var start := Start(entries, source);
      FewerDistinct(entries, j);
      StartIsOk(entries, source);
      StartPlus(entries, source, j);
      DoneIgnores(clean, start, Deepest(start.remaining), j.name);
    }
  }

  // ---- an input on which it fails -------------------------------------------------------------------------

  function Plain(text: string): string { text }

  const FirstD := Import("d", "a/d")
  const SecondD := Import("d", "b/d")
  const Newcomer := Import("ad", "q/z")
  const Own := Import("p", "p")

  lemma TwoSegments(c: char)
    requires c != '/'
    ensures Segments([c, '/', 'd']) == [[c], "d"]
  {
    assert Segments("") == [""];
    assert "d"[1..] == "" && ['d'] + "" == "d" && [""][1..] == [];
    assert Segments("d") == ["d"];
    assert "/d"[1..] == "d";
    assert Segments("/d") == ["", "d"];
    assert [c, '/', 'd'][1..] == "/d" && ["", "d"][1..] == ["d"] && [c] + "" == [c];
  }

  lemma Candidates()
    ensures Candidate(Plain, FirstD, 1) == "d" && Candidate(Plain, SecondD, 1) == "d"
    ensures Candidate(Plain, FirstD, 2) == "ad" && Candidate(Plain, SecondD, 2) == "bd"
    ensures |Segments("a/d")| == 2 && |Segments("b/d")| == 2
  {
    TwoSegments('a');
    TwoSegments('b');
    assert "a/d" == ['a', '/', 'd'] && "b/d" == ['b', '/', 'd'];
    assert Join(["d"]) == "d" && Join(["a", "d"]) == "ad" && Join(["b", "d"]) == "bd";
    assert ["a", "d"][1..] == ["d"] && ["b", "d"][1..] == ["d"];
    assert ["a", "d"][0..] == ["a", "d"] && ["b", "d"][0..] == ["b", "d"];
  }

  lemma ThreeAreFine()
    ensures WellFormed([FirstD, SecondD] + [Newcomer], Own) && DistinctPaths([FirstD, SecondD])
    ensures !Collides([FirstD, SecondD] + [Newcomer], Own, Newcomer)
  {
    assert FirstD.path[0] != SecondD.path[0] && FirstD.path[0] != Newcomer.path[0] && SecondD.path[0] != Newcomer.path[0];
  }

  lemma BothConflict()
    ensures forall i :: i in Conflicts([FirstD, SecondD], Own) <==> i == FirstD || i == SecondD
    ensures DistinctPaths(Conflicts([FirstD, SecondD], Own))
  {
    var entries := [FirstD, SecondD];
    ThreeAreFine();
    CountNamedMany(entries, FirstD);
    assert SecondD in entries && FirstD.path != SecondD.path;
    assert CountNamed(entries, "d") > 1;
    ConflictsIff(entries, Own);
  }

  /** Two packages `d` are told apart as `ad` and `bd`; a third one, whose own name is
      `ad`, collides with nothing and yet takes the first one's alias away. */
  lemma NewcomerTakesAlias()
    ensures var entries := [FirstD, SecondD];
      && WellFormed(entries + [Newcomer], Own) && !Collides(entries + [Newcomer], Own, Newcomer)
      && "a/d" in Aliases(Plain, entries, Own) && Aliases(Plain, entries, Own)["a/d"] == "ad"
      && !Unchurned(Plain, entries, Own, Newcomer)
  {
    ThreeAreFine();
    OldAlias();
    assert Newcomer.name in Aliases(Plain, [FirstD, SecondD], Own).Values;
    TakenAliasMoves(Plain, [FirstD, SecondD], Own, Newcomer);
  }

  lemma WaitingAreTwo()
    ensures var a := Start([FirstD, SecondD], Own);
      DistinctPaths(a.remaining) && forall i :: i in a.remaining <==> i == FirstD || i == SecondD
  {
    var conflicts := Conflicts([FirstD, SecondD], Own);
    BothConflict();
    PathOrder();
    SortSorts(PathLess, conflicts);
    PermutedPaths(conflicts, Sort(PathLess, conflicts));
  }

  lemma NamesTaken()
    ensures "d" in Taken([FirstD, SecondD], Own) && "ad" !in Taken([FirstD, SecondD], Own)
  {
    assert FirstD in [FirstD, SecondD];
  }

  lemma OldAlias()
    ensures var aliases := Aliases(Plain, [FirstD, SecondD], Own); "a/d" in aliases && aliases["a/d"] == "ad"
  {
    var a := Start([FirstD, SecondD], Own);
    WaitingAreTwo();
    NamesTaken();
    assert FirstD in a.remaining;
    DeepestIsTwo(a.remaining);
    FirstRoundFails(a);
    SecondRoundServes(a);
    var b := Round(Plain, a, 2);
    TwoRounds(a, b);
    FixedIsDone(Plain, b, 3, 2, "a/d", "ad");
  }

  lemma TwoRounds(a: Alloc, b: Alloc)
    requires Round(Plain, a, 1) == a && Round(Plain, a, 2) == b
    ensures Rounds(Rounder(Plain), a, 1, 2) == b && Rounds(Rounder(Plain), b, 3, 2) == b
  {
    assert Rounds(Rounder(Plain), a, 1, 2) == Rounds(Rounder(Plain), a, 2, 2);
    assert Rounds(Rounder(Plain), a, 2, 2) == Rounds(Rounder(Plain), b, 3, 2);
  }

  lemma FirstRoundFails(a: Alloc)
    requires "d" in a.used && forall i :: i in a.remaining ==> i == FirstD || i == SecondD
    ensures Round(Plain, a, 1) == a
  {
    Candidates();
    forall i | i in a.remaining ensures !Winner(Plain, a, 1)(i) && Loser(Plain, a, 1)(i) {
      assert Candidate(Plain, i, 1) == "d";
    }
    NothingGained(a.remaining, Winner(Plain, a, 1), Namer(Plain, 1));
    AllKept(a.remaining, Loser(Plain, a, 1));
    NothingAdded(a.aliases, a.used);
  }

  lemma NothingAdded(aliases: map<string, string>, used: set<string>)
    ensures var none: map<string, string> := map[]; aliases + none == aliases && used + none.Values == used
  {
  }

  lemma {:induction false} NothingGained(s: seq<Import>, wins: Import -> bool, name: Import -> string)
    requires forall i :: i in s ==> !wins(i)
    ensures Gained(s, wins, name) == map[]
  {
    if s != [] {
      LastOf(s, s[|s| - 1]);
      assert forall i :: i in s[..|s| - 1] ==> i in s;
      NothingGained(s[..|s| - 1], wins, name);
    }
  }

  lemma {:induction false} AllKept(s: seq<Import>, p: Import -> bool)
    requires forall i :: i in s ==> p(i)
    ensures Kept(s, p) == s
  {
    if s != [] {
      var init, last := s[..|s| - 1], s[|s| - 1];
      forall i | i in init ensures p(i) {
        LastOf(s, i);
      }
      AllKept(init, p);
      assert p(last) && s == init + [last];
    }
  }

  lemma SecondRoundServes(a: Alloc)
    requires DistinctPaths(a.remaining) && "ad" !in a.used
    requires forall i :: i in a.remaining <==> i == FirstD || i == SecondD
    ensures Fixed(Round(Plain, a, 2), "a/d", "ad")
  {
    Candidates();
    assert FirstD in a.remaining;
    var k :| 0 <= k < |a.remaining| && a.remaining[k] == FirstD;
    WinsIffAlone(Plain, a, 2, k);
    assert "ad" != "" && "ad" != "bd";
    WinnerIsFixed(Plain, a, 2, FirstD);
  }

  lemma {:induction false} DeepestIsTwo(s: seq<Import>)
    requires forall i :: i in s ==> i == FirstD || i == SecondD
    ensures Deepest(s) == if s == [] then 0 else 2
  {
    Candidates();
    if s != [] {
      var init := s[..|s| - 1];
      forall i | i in init ensures i == FirstD || i == SecondD {
        LastOf(s, i);
      }
      assert s[|s| - 1] in s;
      DeepestIsTwo(init);
    }
  }
}
