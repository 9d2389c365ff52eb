/** Import names never clash, only colliding imports are renamed, and the outcome does
    not depend on the order in which the import map is enumerated. */
module ImportLaws {
  import opened Orders
  import opened ImportNames

  ghost predicate DistinctPaths(s: seq<Import>) {
    forall i, j :: 0 <= i < j < |s| ==> s[i].path != s[j].path
  }

  /** Two elements with the same path are the same element, at the same place. */
  lemma SamePath(s: seq<Import>, x: Import, y: Import)
    requires DistinctPaths(s) && x in s && y in s && x.path == y.path
    ensures x == y
  {
    var i :| 0 <= i < |s| && s[i] == x;
    var j :| 0 <= j < |s| && s[j] == y;
    assert i == j;
  }

  lemma DistinctByPath(s: seq<Import>)
    requires DistinctPaths(s)
    ensures Distinct(s)
  {
  }

  /** Sorting keeps the paths distinct. */
  lemma PermutedPaths(s: seq<Import>, t: seq<Import>)
    requires DistinctPaths(s) && multiset(s) == multiset(t)
    ensures DistinctPaths(t) && PathsOf(t) == PathsOf(s)
    ensures forall x :: x in t <==> x in s
  {
    DistinctByPath(s);
    DistinctCounts(s);
    forall x ensures x in t <==> x in s {
      assert x in t <==> x in multiset(t);
      assert x in s <==> x in multiset(s);
    }
    DistinctCounts(t);
    forall i, j | 0 <= i < j < |t| ensures t[i].path != t[j].path {
      if t[i].path == t[j].path {
        SamePath(s, t[i], t[j]);
      }
    }
  }

  lemma PathOrder()
    ensures StrictWeak(PathLess)
  {
    StringOrder();
    TotalIsWeak(StringLess);
    forall a: Import, b: Import, c: Import | PathLess(a, c) ensures PathLess(a, b) || PathLess(b, c) {
      assert StringLess(a.path, c.path);
    }
  }

  // ---- rounds ----------------------------------------------------------------------------------------

  ghost predicate Injective(m: map<string, string>) {
    forall p, q :: p in m && q in m && p != q ==> m[p] != m[q]
  }

  /** Aliases are distinct, in use, and none of the names that were taken at the start. */
  ghost predicate NamesOk(aliases: map<string, string>, used: set<string>, taken: set<string>) {
    && taken <= used
    && (forall p :: p in aliases ==> aliases[p] in used && aliases[p] !in taken)
    && Injective(aliases)
  }

  ghost predicate AllocOk(a: Alloc, taken: set<string>) {
    NamesOk(a.aliases, a.used, taken) && DistinctPaths(a.remaining)
  }

  /** An import is served in a round exactly when its candidate is free and nobody else
      who still waits proposes the same one: no import is favoured by its position. */
  lemma WinsIffAlone(clean: string -> string, a: Alloc, depth: nat, k: nat)
    requires DistinctPaths(a.remaining) && k < |a.remaining|
    ensures var i := a.remaining[k]; var c := Candidate(clean, i, depth);
      Wins(clean, a, depth, i) <==>
        && c != "" && c !in a.used
        && forall j :: j in a.remaining && j.path != i.path ==> Candidate(clean, j, depth) != c
  {
    var i := a.remaining[k];
    var same := ByCandidate(clean, depth, Candidate(clean, i, depth));
    CountMany(a.remaining, same, k);
    if j :| j in a.remaining && j.path != i.path && same(j) {
      var l :| 0 <= l < |a.remaining| && a.remaining[l] == j;
      assert l != k && same(a.remaining[l]);
    }
    if l :| 0 <= l < |a.remaining| && l != k && same(a.remaining[l]) {
      assert a.remaining[l] in a.remaining && a.remaining[l].path != i.path;
    }
  }

  lemma LastOf(s: seq<Import>, i: Import)
    requires s != []
    ensures i in s <==> i in s[..|s| - 1] || i == s[|s| - 1]
  {
    assert s == s[..|s| - 1] + [s[|s| - 1]];
  }

  lemma LastIsApart(s: seq<Import>, i: Import)
    requires s != [] && DistinctPaths(s) && i in s[..|s| - 1]
    ensures i.path != s[|s| - 1].path
  {
  }

  lemma {:induction false} KeptIff(s: seq<Import>, p: Import -> bool, i: Import)
    ensures i in Kept(s, p) <==> i in s && p(i)
  {
    if s != [] {
      KeptIff(s[..|s| - 1], p, i);
      LastOf(s, i);
    }
  }

  lemma {:induction false} KeptDistinct(s: seq<Import>, p: Import -> bool)
    requires DistinctPaths(s)
    ensures DistinctPaths(Kept(s, p))
  {
    if s != [] {
      var init := s[..|s| - 1];
      var kept := Kept(init, p);
      KeptDistinct(init, p);
      forall k | 0 <= k < |kept| ensures kept[k].path != s[|s| - 1].path {
        KeptIff(init, p, kept[k]);
        LastIsApart(s, kept[k]);
      }
    }
  }

  /** Exactly the winners gain a name. */
  lemma {:induction false} GainedKey(s: seq<Import>, wins: Import -> bool, name: Import -> string, p: string)
    ensures p in Gained(s, wins, name) <==> exists i :: i in s && wins(i) && i.path == p
  {
    if s != [] {
      var init, last := s[..|s| - 1], s[|s| - 1];
      GainedKey(init, wins, name, p);
      forall i ensures i in s <==> i in init || i == last {
        LastOf(s, i);
      }
    }
  }

  lemma {:induction false} GainedValue(s: seq<Import>, wins: Import -> bool, name: Import -> string, i: Import)
    requires DistinctPaths(s) && i in s && wins(i)
    ensures i.path in Gained(s, wins, name) && Gained(s, wins, name)[i.path] == name(i)
  {
    LastOf(s, i);
    if i != s[|s| - 1] {
      GainedValue(s[..|s| - 1], wins, name, i);
      LastIsApart(s, i);
    }
  }

  function WonIn(clean: string -> string, a: Alloc, depth: nat): map<string, string> {
    Gained(a.remaining, Winner(clean, a, depth), Namer(clean, depth))
  }

  /** Whose alias it is. */
  lemma WonBy(clean: string -> string, a: Alloc, depth: nat, p: string) returns (i: Import)
    requires DistinctPaths(a.remaining) && p in WonIn(clean, a, depth)
    ensures i in a.remaining && i.path == p && Wins(clean, a, depth, i)
    ensures WonIn(clean, a, depth)[p] == Candidate(clean, i, depth)
  {
    GainedKey(a.remaining, Winner(clean, a, depth), Namer(clean, depth), p);
    i :| i in a.remaining && Winner(clean, a, depth)(i) && i.path == p;
    GainedValue(a.remaining, Winner(clean, a, depth), Namer(clean, depth), i);
  }

  lemma WonIsFresh(clean: string -> string, a: Alloc, depth: nat, p: string)
    requires DistinctPaths(a.remaining) && p in WonIn(clean, a, depth)
    ensures WonIn(clean, a, depth)[p] !in a.used && p in PathsOf(a.remaining)
  {
    var i := WonBy(clean, a, depth, p);
  }

  lemma WonIsInjective(clean: string -> string, a: Alloc, depth: nat, p: string, q: string)
    requires DistinctPaths(a.remaining) && p in WonIn(clean, a, depth) && q in WonIn(clean, a, depth) && p != q
    ensures WonIn(clean, a, depth)[p] != WonIn(clean, a, depth)[q]
  {
    var i := WonBy(clean, a, depth, p);
    var j := WonBy(clean, a, depth, q);
    var k :| 0 <= k < |a.remaining| && a.remaining[k] == i;
    WinsIffAlone(clean, a, depth, k);
  }

  lemma RoundPaths(clean: string -> string, a: Alloc, depth: nat)
    requires DistinctPaths(a.remaining)
    ensures var b := Round(clean, a, depth);
      && b.aliases.Keys + PathsOf(b.remaining) == a.aliases.Keys + PathsOf(a.remaining)
      && DistinctPaths(b.remaining)
      && (forall i :: i in b.remaining ==> i in a.remaining && i.path !in WonIn(clean, a, depth))
  {
    var b, won := Round(clean, a, depth), WonIn(clean, a, depth);
    KeptDistinct(a.remaining, Loser(clean, a, depth));
    forall i ensures i in b.remaining <==> i in a.remaining && !Wins(clean, a, depth, i) {
      KeptIff(a.remaining, Loser(clean, a, depth), i);
    }
    forall i | i in a.remaining ensures i.path in won <==> Wins(clean, a, depth, i) {
      if i.path in won {
        var j := WonBy(clean, a, depth, i.path);
        SamePath(a.remaining, i, j);
      }
      if Wins(clean, a, depth, i) {
        GainedValue(a.remaining, Winner(clean, a, depth), Namer(clean, depth), i);
      }
    }
    forall p | p in won ensures p in PathsOf(a.remaining) {
      WonIsFresh(clean, a, depth, p);
    }
  }

  lemma RoundKeepsOk(clean: string -> string, a: Alloc, depth: nat, taken: set<string>)
    requires AllocOk(a, taken)
    ensures AllocOk(Round(clean, a, depth), taken)
  {
    var b, won := Round(clean, a, depth), WonIn(clean, a, depth);
    RoundPaths(clean, a, depth);
    forall p | p in won ensures won[p] !in a.used && won[p] in won.Values {
      WonIsFresh(clean, a, depth, p);
    }
    forall p, q | p in won && q in won && p != q ensures won[p] != won[q] {
      WonIsInjective(clean, a, depth, p, q);
    }
    MergedNamesOk(a.aliases, won, a.used, taken);
  }

  lemma MergedNamesOk(aliases: map<string, string>, won: map<string, string>, used: set<string>, taken: set<string>)
    requires NamesOk(aliases, used, taken) && Injective(won) && forall p :: p in won ==> won[p] !in used
    ensures NamesOk(aliases + won, used + won.Values, taken)
  {
  }

  /** What every round keeps holds after all of them. */
  lemma {:induction false} RoundsKeep(
    round: (Alloc, nat) -> Alloc, keeps: Alloc -> bool, a: Alloc, depth: nat, deepest: nat)
    requires keeps(a) && forall x, d :: keeps(x) ==> keeps(round(x, d))
    ensures keeps(Rounds(round, a, depth, deepest))
    decreases deepest + 1 - depth
  {
    if depth <= deepest {
      RoundsKeep(round, keeps, round(a, depth), depth + 1, deepest);
    }
  }

  function Everybody(a: Alloc): set<string> {
    a.aliases.Keys + PathsOf(a.remaining)
  }

  /** The allocation is in order and nobody was dropped. */
  ghost function InOrder(taken: set<string>, everybody: set<string>): Alloc -> bool {
    (a: Alloc) => AllocOk(a, taken) && Everybody(a) == everybody
  }

  lemma RoundsKeepOk(clean: string -> string, a: Alloc, deepest: nat, taken: set<string>)
    requires AllocOk(a, taken)
    ensures var b := Rounds(Rounder(clean), a, 1, deepest); AllocOk(b, taken) && Everybody(b) == Everybody(a)
  {
    var keeps := InOrder(taken, Everybody(a));
    forall x, d | keeps(x) ensures keeps(Rounder(clean)(x, d)) {
      RoundKeepsOk(clean, x, d, taken);
      RoundPaths(clean, x, d);
    }
    RoundsKeep(Rounder(clean), keeps, a, 1, deepest);
    assert keeps(Rounds(Rounder(clean), a, 1, deepest));
  }

  // ---- suffixes ---------------------------------------------------------------------------------------

  lemma PathsAppend(s: seq<Import>, i: Import)
    ensures PathsOf(s + [i]) == PathsOf(s) + {i.path}
  {
  }

  lemma AddedKeepsOk(m: map<string, string>, used: set<string>, taken: set<string>, p: string, alias: string)
    requires NamesOk(m, used, taken) && alias !in used
    ensures NamesOk(m[p := alias], used + {alias}, taken)
  {
  }

  lemma {:induction false} NumberedKeepsNames(a: Alloc, n: nat, taken: set<string>)
    requires NamesOk(a.aliases, a.used, taken) && n <= |a.remaining|
    ensures NamesOk(Numbered(a, n).aliases, Numbered(a, n).used, taken)
  {
    if n > 0 {
      NumberedKeepsNames(a, n - 1, taken);
      var before, i := Numbered(a, n - 1), a.remaining[n - 1];
      AddedKeepsOk(before.aliases, before.used, taken, i.path, Suffixed(i.name, FreeSuffix(before.used, i.name, 2)));
    }
  }

  lemma {:induction false} NumberedServes(a: Alloc, n: nat)
    requires n <= |a.remaining|
    ensures Numbered(a, n).aliases.Keys == a.aliases.Keys + PathsOf(a.remaining[..n])
  {
    if n > 0 {
      NumberedServes(a, n - 1);
      assert a.remaining[..n] == a.remaining[..n - 1] + [a.remaining[n - 1]];
      PathsAppend(a.remaining[..n - 1], a.remaining[n - 1]);
    }
  }

  // ---- the whole allocation ----------------------------------------------------------------------------

  lemma ConflictsIff(entries: seq<Import>, source: Import)
    requires DistinctPaths(entries)
    ensures forall i :: i in Conflicts(entries, source) <==>
      (i in entries && Conflicting(entries, source, i)) || (i == source && source.name in Reserved())
    ensures DistinctPaths(Conflicts(entries, source))
  {
    var p := Conflicted(entries, source);
    var kept := Kept(entries, p);
    forall i ensures i in kept <==> i in entries && Conflicting(entries, source, i) {
      KeptIff(entries, p, i);
    }
    KeptDistinct(entries, p);
    forall k | 0 <= k < |kept| ensures kept[k].path != source.path {
      assert kept[k] in kept;
    }
  }

  lemma StartIsOk(entries: seq<Import>, source: Import)
    requires DistinctPaths(entries)
    ensures AllocOk(Start(entries, source), Taken(entries, source))
    ensures PathsOf(Start(entries, source).remaining) == PathsOf(Conflicts(entries, source))
  {
    ConflictsIff(entries, source);
    PathOrder();
    SortSorts(PathLess, Conflicts(entries, source));
    PermutedPaths(Conflicts(entries, source), Sort(PathLess, Conflicts(entries, source)));
  }

  /** What the allocation achieves: exactly the conflicting imports get an alias,
      aliases are distinct, and none is a name that was taken. */
  lemma AliasesAreFresh(clean: string -> string, entries: seq<Import>, source: Import)
    requires DistinctPaths(entries)
    ensures var aliases := Aliases(clean, entries, source);
      && aliases.Keys == PathsOf(Conflicts(entries, source))
      && Injective(aliases)
      && forall p :: p in aliases ==> aliases[p] !in Taken(entries, source)
  {
    var start, taken := Start(entries, source), Taken(entries, source);
    StartIsOk(entries, source);
    RoundsKeepOk(clean, start, Deepest(start.remaining), taken);
    var a := Settled(clean, entries, source);
    NumberedKeepsNames(a, |a.remaining|, taken);
    NumberedServes(a, |a.remaining|);
    assert a.remaining[..|a.remaining|] == a.remaining;
  }

  // ---- main results -------------------------------------------------------------------------------------

  /** What the loader promises: an import is its package's, and the template's imports
      carry their own names. */
  ghost predicate WellFormed(entries: seq<Import>, source: Import) {
    && DistinctPaths(entries) && source.path !in TemplatePaths()
    && forall i :: i in entries ==> (i.path == source.path ==> i == source) && (i.path in TemplatePaths() ==> i in Templates)
  }

  /** Every import line the generated file may have. */
  function Lines(entries: seq<Import>, source: Import): seq<Import> {
    entries + [source] + Templates
  }

  /** Who yields on a collision: signature imports to everybody, the source package to
      the template only, the template's imports to nobody. */
  function Standing(source: Import, i: Import): nat {
    if i.path in TemplatePaths() then 2 else if i.path == source.path then 1 else 0
  }

  ghost predicate Collides(entries: seq<Import>, source: Import, i: Import) {
    exists j :: j in Lines(entries, source) && j.path != i.path && j.name == i.name
                && Standing(source, j) >= Standing(source, i)
  }

  lemma CountNamedMany(entries: seq<Import>, i: Import)
    requires DistinctPaths(entries) && i in entries
    ensures CountNamed(entries, i.name) > 1 <==> exists j :: j in entries && j.path != i.path && j.name == i.name
  {
    var k :| 0 <= k < |entries| && entries[k] == i;
    CountMany(entries, ByName(i.name), k);
    if j :| j in entries && j.path != i.path && j.name == i.name {
      var l :| 0 <= l < |entries| && entries[l] == j;
      assert l != k && ByName(i.name)(entries[l]);
    }
    if l :| 0 <= l < |entries| && l != k && ByName(i.name)(entries[l]) {
      assert entries[l] in entries && entries[l].path != i.path;
    }
  }

  lemma TemplateFacts()
    ensures forall name :: name in Reserved() <==> exists t :: t in Templates && t.name == name
    ensures forall t :: t in Templates ==> t.path in TemplatePaths()
    ensures forall t, u :: t in Templates && u in Templates && (t.name == u.name || t.path == u.path) ==> t == u
  {
    assert Templates[0] in Templates && Templates[1] in Templates && Templates[2] in Templates;
    assert Templates[0].name == "context" && Templates[1].name == "fmt" && Templates[2].name == "gor";
  }

  lemma LineOf(entries: seq<Import>, source: Import, x: Import)
    requires WellFormed(entries, source) && x in Lines(entries, source)
    ensures x.path in TemplatePaths() ==> x in Templates
    ensures x.path == source.path ==> x == source
    ensures Standing(source, x) == 0 ==> x in entries
  {
    TemplateFacts();
  }

  lemma SameLine(entries: seq<Import>, source: Import, x: Import, y: Import)
    requires WellFormed(entries, source) && x in Lines(entries, source) && y in Lines(entries, source)
    requires x.path == y.path
    ensures x == y
  {
    LineOf(entries, source, x);
    LineOf(entries, source, y);
    TemplateFacts();
    if Standing(source, x) == 0 {
      SamePath(entries, x, y);
    }
  }

  lemma RegularCollides(entries: seq<Import>, source: Import, i: Import)
    requires WellFormed(entries, source) && i in entries && Standing(source, i) == 0
    ensures Collides(entries, source, i) <==> Conflicting(entries, source, i)
  {
    TemplateFacts();
    CountNamedMany(entries, i);
    if j :| j in Lines(entries, source) && j.path != i.path && j.name == i.name {
      LineOf(entries, source, j);
    }
    if Conflicting(entries, source, i) {
      if i.name in Reserved() {
        var t :| t in Templates && t.name == i.name;
        assert t in Lines(entries, source);
      } else if i.name == source.name {
        assert source in Lines(entries, source);
      } else {
        var j :| j in entries && j.path != i.path && j.name == i.name;
        assert j in Lines(entries, source);
      }
    }
  }

  lemma SourceCollides(entries: seq<Import>, source: Import)
    requires WellFormed(entries, source)
    ensures Collides(entries, source, source) <==> source.name in Reserved()
  {
    TemplateFacts();
    if j :| j in Lines(entries, source) && j.path != source.path && j.name == source.name && Standing(source, j) >= 1 {
      LineOf(entries, source, j);
    }
    if source.name in Reserved() {
      var t :| t in Templates && t.name == source.name;
      assert t in Lines(entries, source) && Standing(source, t) == 2;
    }
  }

  lemma TemplateNeverCollides(entries: seq<Import>, source: Import, i: Import)
    requires WellFormed(entries, source) && i in Lines(entries, source) && i.path in TemplatePaths()
    ensures !Collides(entries, source, i)
  {
    TemplateFacts();
    LineOf(entries, source, i);
    forall j | j in Lines(entries, source) && j.path in TemplatePaths() ensures j in Templates {
      LineOf(entries, source, j);
    }
  }

  lemma AliasedIffConflicting(clean: string -> string, entries: seq<Import>, source: Import, i: Import)
    requires WellFormed(entries, source) && i in Lines(entries, source)
    ensures i.path in Aliases(clean, entries, source) <==> i in Conflicts(entries, source)
  {
    AliasesAreFresh(clean, entries, source);
    ConflictsIff(entries, source);
    var conflicts := Conflicts(entries, source);
    if i.path in PathsOf(conflicts) {
      var c :| c in conflicts && c.path == i.path;
      SameLine(entries, source, i, c);
    }
  }

  /** Only what collides is renamed: an import has an alias if and only if it shares its
      name with a line it must yield to. */
  lemma RenamedIffColliding(clean: string -> string, entries: seq<Import>, source: Import, i: Import)
    requires WellFormed(entries, source) && i in Lines(entries, source)
    ensures i.path in Aliases(clean, entries, source) <==> Collides(entries, source, i)
  {
    AliasedIffConflicting(clean, entries, source, i);
    ConflictsIff(entries, source);
    LineOf(entries, source, i);
    if Standing(source, i) == 0 {
      RegularCollides(entries, source, i);
    } else if Standing(source, i) == 1 {
      SourceCollides(entries, source);
    } else {
      TemplateNeverCollides(entries, source, i);
    }
  }

  /** Distinct imports appear under distinct names; in particular nothing but the
      template's own imports is called `context`, `fmt` or `gor`. */
  lemma NamesAreDistinct(clean: string -> string, entries: seq<Import>, source: Import, x: Import, y: Import)
    requires WellFormed(entries, source) && x in Lines(entries, source) && y in Lines(entries, source)
    requires x.path != y.path
    ensures var aliases := Aliases(clean, entries, source); Effective(aliases, x) != Effective(aliases, y)
  {
    AliasesAreFresh(clean, entries, source);
    TemplateFacts();
    forall l | l in Lines(entries, source) ensures l.name in Taken(entries, source) { }
    if x.name == y.name {
      RenamedIffColliding(clean, entries, source, x);
      RenamedIffColliding(clean, entries, source, y);
      assert Collides(entries, source, x) || Collides(entries, source, y);
    }
  }

  // ---- order of enumeration -------------------------------------------------------------------------------

  lemma SameMultiset(a: seq<Import>, b: seq<Import>)
    requires Distinct(a) && Distinct(b) && forall x :: x in a <==> x in b
    ensures multiset(a) == multiset(b)
  {
    DistinctCounts(a);
    DistinctCounts(b);
    forall x ensures multiset(a)[x] == multiset(b)[x] {
      assert x in a <==> x in multiset(a);
      assert x in b <==> x in multiset(b);
    }
  }

  lemma SameConflicts(a: seq<Import>, b: seq<Import>, source: Import)
    requires DistinctPaths(a) && DistinctPaths(b) && forall x :: x in a <==> x in b
    ensures multiset(Conflicts(a, source)) == multiset(Conflicts(b, source))
  {
    ConflictsIff(a, source);
    ConflictsIff(b, source);
    forall i | i in a ensures Conflicting(a, source, i) <==> Conflicting(b, source, i) {
      CountNamedMany(a, i);
      CountNamedMany(b, i);
    }
    DistinctByPath(Conflicts(a, source));
    DistinctByPath(Conflicts(b, source));
    SameMultiset(Conflicts(a, source), Conflicts(b, source));
  }

  /** The aliases are a function of the import set: the order in which the map is
      enumerated does not matter. */
  lemma AliasesIgnoreOrder(clean: string -> string, a: seq<Import>, b: seq<Import>, source: Import)
    requires DistinctPaths(a) && DistinctPaths(b) && forall x :: x in a <==> x in b
    ensures Aliases(clean, a, source) == Aliases(clean, b, source)
  {
    SameConflicts(a, b, source);
    ConflictsIff(a, source);
    PathOrder();
    var conflicts := Conflicts(a, source);
    forall x, y | x in conflicts && y in conflicts && x != y ensures PathLess(x, y) || PathLess(y, x) {
      if x.path == y.path {
        SamePath(conflicts, x, y);
      }
      StringConnected(x.path, y.path);
    }
    SortIgnoresOrder(PathLess, conflicts, Conflicts(b, source));
    assert Taken(a, source) == Taken(b, source);
  }
}
