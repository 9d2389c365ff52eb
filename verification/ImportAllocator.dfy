/** The allocation as the generator performs it: loops that update the names in use,
    the aliases and what remains. `entries` is the order in which the map is ranged. */
module ImportAllocator {
  import opened Orders
  import opened ImportNames
  import opened ImportLaws

  method CountImportsNamed(entries: seq<Import>, name: string) returns (count: nat)
    ensures count == CountNamed(entries, name)
  {
    count := 0;
    for k := 0 to |entries|
      invariant count == CountNamed(entries[..k], name)
    {
      assert entries[..k + 1][..k] == entries[..k];
      if entries[k].name == name {
        count := count + 1;
      }
    }
    assert entries[..|entries|] == entries;
  }

  /** The imports that need an alias, in path order. */
  method Collect(entries: seq<Import>, source: Import) returns (conflicting: seq<Import>)
    requires DistinctPaths(entries)
    ensures conflicting == Sort(PathLess, Conflicts(entries, source))
    ensures DistinctPaths(conflicting)
  {
    conflicting := [];
    for k := 0 to |entries|
      invariant conflicting == Kept(entries[..k], Conflicted(entries, source))
    {
      assert entries[..k + 1][..k] == entries[..k];
      if entries[k].path in TemplatePaths() || entries[k].path == source.path {
        continue;
      }
      var count := CountImportsNamed(entries, entries[k].name);
      if entries[k].name in Reserved() || entries[k].name == source.name || count > 1 {
        conflicting := conflicting + [entries[k]];
      }
    }
    assert entries[..|entries|] == entries;
    if source.name in Reserved() {
      conflicting := conflicting + [source];
    }
    assert conflicting == Conflicts(entries, source);
    StartIsOk(entries, source);
    conflicting := Sort(PathLess, conflicting);
    assert conflicting == Start(entries, source).remaining;
  }

  /** How many of the remaining imports propose each candidate. */
  method Propose(clean: string -> string, remaining: seq<Import>, depth: nat) returns (proposed: map<string, nat>)
    ensures forall i :: i in remaining && Candidate(clean, i, depth) != "" ==>
      var c := Candidate(clean, i, depth); c in proposed && proposed[c] == Proposals(clean, remaining, depth, c)
  {
    proposed := map[];
    for k := 0 to |remaining|
      invariant forall c :: c != "" && c in proposed ==> proposed[c] == Proposals(clean, remaining[..k], depth, c)
      invariant forall c :: c != "" && c !in proposed ==> Proposals(clean, remaining[..k], depth, c) == 0
    {
      var candidate := Candidate(clean, remaining[k], depth);
      forall c ensures Proposals(clean, remaining[..k + 1], depth, c)
                    == Proposals(clean, remaining[..k], depth, c) + if c == candidate then 1 else 0
      {
        CountStep(remaining, ByCandidate(clean, depth, c), k);
      }
      if candidate != "" {
        proposed := proposed[candidate := 1 + if candidate in proposed then proposed[candidate] else 0];
      }
    }
    assert remaining[..|remaining|] == remaining;
    forall i | i in remaining && Candidate(clean, i, depth) != ""
      ensures Candidate(clean, i, depth) in proposed
    {
      CountPositive(remaining, ByCandidate(clean, depth, Candidate(clean, i, depth)));
      var k :| 0 <= k < |remaining| && remaining[k] == i;
      assert ByCandidate(clean, depth, Candidate(clean, i, depth))(remaining[k]);
    }
  }

  /** A candidate proposed once is free at its turn exactly if it was free at the
      beginning: what the round handed out before cannot be it. */
  lemma TurnIsFair(clean: string -> string, a: Alloc, depth: nat, k: nat)
    requires DistinctPaths(a.remaining) && k < |a.remaining| && Wins(clean, a, depth, a.remaining[k])
    ensures Candidate(clean, a.remaining[k], depth) !in WonBefore(clean, a, depth, k).Values
    ensures a.remaining[k].path !in WonBefore(clean, a, depth, k)
  {
    var earlier, won := a.remaining[..k], WonBefore(clean, a, depth, k);
    WinsIffAlone(clean, a, depth, k);
    forall p | p in won ensures won[p] != Candidate(clean, a.remaining[k], depth) && p != a.remaining[k].path {
      GainedKey(earlier, Winner(clean, a, depth), Namer(clean, depth), p);
      var i :| i in earlier && Winner(clean, a, depth)(i) && i.path == p;
      GainedValue(earlier, Winner(clean, a, depth), Namer(clean, depth), i);
      var l :| 0 <= l < k && a.remaining[l] == i;
    }
  }

  /** What the round has handed out before its turn `k`. */
  function WonBefore(clean: string -> string, a: Alloc, depth: nat, k: nat): map<string, string>
    requires k <= |a.remaining|
  {
    Gained(a.remaining[..k], Winner(clean, a, depth), Namer(clean, depth))
  }

  /** The allocation after `k` turns of the round; `remaining` collects the losers. */
  function Turned(clean: string -> string, a: Alloc, depth: nat, k: nat): Alloc
    requires k <= |a.remaining|
  {
    var won := WonBefore(clean, a, depth, k);
    Alloc(a.aliases + won, a.used + won.Values, Kept(a.remaining[..k], Loser(clean, a, depth)))
  }

  lemma FirstTurn(clean: string -> string, a: Alloc, depth: nat)
    ensures Turned(clean, a, depth, 0) == a.(remaining := [])
  {
    assert WonBefore(clean, a, depth, 0).Values == {};
  }

  lemma LastTurn(clean: string -> string, a: Alloc, depth: nat)
    ensures Turned(clean, a, depth, |a.remaining|) == Round(clean, a, depth)
  {
    assert a.remaining[..|a.remaining|] == a.remaining;
  }

  lemma AddedValue(m: map<string, string>, key: string, value: string)
    requires key !in m
    ensures m[key := value].Values == m.Values + {value}
  {
    var m' := m[key := value];
    assert m'[key] == value;
    forall v | v in m.Values ensures v in m'.Values {
      var k :| k in m && m[k] == v;
      assert m'[k] == v;
    }
  }

  lemma GainedStep(s: seq<Import>, wins: Import -> bool, name: Import -> string, k: nat)
    requires k < |s|
    ensures Gained(s[..k + 1], wins, name) ==
            if wins(s[k]) then Gained(s[..k], wins, name)[s[k].path := name(s[k])] else Gained(s[..k], wins, name)
  {
    assert s[..k + 1][..k] == s[..k];
  }

  lemma KeptStep(s: seq<Import>, p: Import -> bool, k: nat)
    requires k < |s|
    ensures Kept(s[..k + 1], p) == Kept(s[..k], p) + if p(s[k]) then [s[k]] else []
  {
    assert s[..k + 1][..k] == s[..k];
  }

  lemma Merged(aliases: map<string, string>, used: set<string>, won: map<string, string>, key: string, value: string)
    requires key !in won
    ensures aliases + won[key := value] == (aliases + won)[key := value]
    ensures used + won[key := value].Values == used + won.Values + {value}
  {
    AddedValue(won, key, value);
  }

  lemma WinningTurn(clean: string -> string, a: Alloc, depth: nat, k: nat)
    requires DistinctPaths(a.remaining) && k < |a.remaining| && Wins(clean, a, depth, a.remaining[k])
    ensures var i := a.remaining[k]; var c := Candidate(clean, i, depth); var now := Turned(clean, a, depth, k);
      && c !in now.used
      && Turned(clean, a, depth, k + 1) == now.(aliases := now.aliases[i.path := c], used := now.used + {c})
  {
    TurnIsFair(clean, a, depth, k);
    GainedStep(a.remaining, Winner(clean, a, depth), Namer(clean, depth), k);
    KeptStep(a.remaining, Loser(clean, a, depth), k);
    Merged(a.aliases, a.used, WonBefore(clean, a, depth, k), a.remaining[k].path, Candidate(clean, a.remaining[k], depth));
  }

  lemma LosingTurn(clean: string -> string, a: Alloc, depth: nat, k: nat)
    requires k < |a.remaining| && !Wins(clean, a, depth, a.remaining[k])
    ensures var now := Turned(clean, a, depth, k);
      Turned(clean, a, depth, k + 1) == now.(remaining := now.remaining + [a.remaining[k]])
  {
    GainedStep(a.remaining, Winner(clean, a, depth), Namer(clean, depth), k);
    KeptStep(a.remaining, Loser(clean, a, depth), k);
  }

  /** One round; its sequential updates amount to a simultaneous one. */
  method RunRound(clean: string -> string, a: Alloc, depth: nat) returns (b: Alloc)
    requires DistinctPaths(a.remaining)
    ensures b == Round(clean, a, depth) && DistinctPaths(b.remaining)
  {
    var proposed := Propose(clean, a.remaining, depth);
    b := a.(remaining := []);
    FirstTurn(clean, a, depth);
    for k := 0 to |a.remaining|
      invariant b == Turned(clean, a, depth, k)
    {
      var i := a.remaining[k];
      var candidate := Candidate(clean, i, depth);
      if Wins(clean, a, depth, i) {
        WinningTurn(clean, a, depth, k);
      } else {
        LosingTurn(clean, a, depth, k);
      }
      if candidate == "" || proposed[candidate] > 1 || candidate in b.used {
        b := b.(remaining := b.remaining + [i]);
        continue;
      }
      b := b.(aliases := b.aliases[i.path := candidate], used := b.used + {candidate});
    }
    LastTurn(clean, a, depth);
    RoundPaths(clean, a, depth);
  }

  /** The search for a numeric suffix, which always ends. */
  method SearchSuffix(used: set<string>, name: string) returns (candidate: string)
    ensures candidate == Suffixed(name, FreeSuffix(used, name, 2))
    ensures candidate !in used
  {
    var suffix := 2;
    candidate := Suffixed(name, suffix);
    while candidate in used
      invariant suffix >= 2 && candidate == Suffixed(name, suffix)
      invariant FreeSuffix(used, name, 2) == FreeSuffix(used, name, suffix)
      decreases |Ahead(used, name, suffix)|
    {
      AheadShrinks(used, name, suffix);
      SmallerSet(Ahead(used, name, suffix + 1), Ahead(used, name, suffix));
      suffix := suffix + 1;
      candidate := Suffixed(name, suffix);
    }
  }

  method Depth(imports: seq<Import>) returns (deepest: nat)
    ensures deepest == Deepest(imports)
  {
    deepest := 0;
    for k := 0 to |imports|
      invariant deepest == Deepest(imports[..k])
    {
      assert imports[..k + 1][..k] == imports[..k];
      var depth := |Segments(imports[k].path)|;
      if depth > deepest {
        deepest := depth;
      }
    }
    assert imports[..|imports|] == imports;
  }

  lemma EmptyRound(clean: string -> string, a: Alloc, depth: nat)
    requires a.remaining == []
    ensures Round(clean, a, depth) == a
  {
    assert WonIn(clean, a, depth).Values == {};
  }

  /** Rounds when nothing remains change nothing. */
  lemma {:induction false} NothingRemains(clean: string -> string, a: Alloc, depth: nat, deepest: nat)
    requires a.remaining == []
    ensures Rounds(Rounder(clean), a, depth, deepest) == a
    decreases deepest + 1 - depth
  {
    if depth <= deepest {
      EmptyRound(clean, a, depth);
      NothingRemains(clean, a, depth + 1, deepest);
    }
  }

  method RunRounds(clean: string -> string, start: Alloc, deepest: nat) returns (a: Alloc)
    requires DistinctPaths(start.remaining)
    ensures a == Rounds(Rounder(clean), start, 1, deepest)
  {
    a := start;
    var depth := 1;
    while depth <= deepest && |a.remaining| > 0
      invariant 1 <= depth <= deepest + 1
      invariant Rounds(Rounder(clean), a, depth, deepest) == Rounds(Rounder(clean), start, 1, deepest)
      invariant DistinctPaths(a.remaining)
      decreases deepest + 1 - depth
    {
      a := RunRound(clean, a, depth);
      depth := depth + 1;
    }
    if depth <= deepest {
      NothingRemains(clean, a, depth, deepest);
    }
  }

  method NumberRest(a: Alloc) returns (done: Alloc)
    ensures done == Numbered(a, |a.remaining|)
  {
    done := a;
    for k := 0 to |a.remaining|
      invariant done == Numbered(a, k)
    {
      var i := a.remaining[k];
      var candidate := SearchSuffix(done.used, i.name);
      done := done.(aliases := done.aliases[i.path := candidate], used := done.used + {candidate});
    }
  }

  method NamesInUse(entries: seq<Import>, source: Import) returns (used: set<string>)
    ensures used == Taken(entries, source)
  {
    used := Reserved() + {source.name};
    for k := 0 to |entries|
      invariant used == Reserved() + {source.name} + NamesOf(entries[..k])
    {
      assert entries[..k + 1] == entries[..k] + [entries[k]];
      used := used + {entries[k].name};
    }
    assert entries[..|entries|] == entries;
  }

  /** The name is the template's, the source package's, or another import's. */
  ghost predicate Clashes(entries: seq<Import>, source: Import, i: Import) {
    || i.name in {"context", "fmt", "gor"} || i.name == source.name
    || exists j :: j in entries && j.path != i.path && j.name == i.name
  }

  lemma AliasedMeans(entries: seq<Import>, source: Import, i: Import)
    requires DistinctPaths(entries) && i in entries
    ensures i.path in PathsOf(Conflicts(entries, source)) <==>
      || (i.path == source.path && source.name in {"context", "fmt", "gor"})
      || (i.path !in {"context", "fmt", "github.com/suraciii/gor"} && i.path != source.path && Clashes(entries, source, i))
  {
    ConflictsIff(entries, source);
    CountNamedMany(entries, i);
    assert source.name in Reserved() ==> source in Conflicts(entries, source);
    if j :| j in Conflicts(entries, source) && j.path == i.path && j != source {
      SamePath(entries, i, j);
    }
  }

  lemma AliasesMean(clean: string -> string, entries: seq<Import>, source: Import)
    requires DistinctPaths(entries)
    ensures var aliases := Aliases(clean, entries, source);
      && (forall i :: i in entries ==> (i.path in aliases <==>
            || (i.path == source.path && source.name in {"context", "fmt", "gor"})
            || (i.path !in {"context", "fmt", "github.com/suraciii/gor"} && i.path != source.path && Clashes(entries, source, i))))
      && (source.name in {"context", "fmt", "gor"} ==> source.path in aliases)
      && (forall p :: p in aliases ==>
            && aliases[p] !in {"context", "fmt", "gor"} && aliases[p] != source.name
            && forall i :: i in entries ==> aliases[p] != i.name)
      && (forall p, q :: p in aliases && q in aliases && p != q ==> aliases[p] != aliases[q])
  {
    var aliases := Aliases(clean, entries, source);
    AliasesAreFresh(clean, entries, source);
    ConflictsIff(entries, source);
    assert source.name in Reserved() ==> source in Conflicts(entries, source);
    forall i | i in entries ensures i.path in aliases <==>
      || (i.path == source.path && source.name in {"context", "fmt", "gor"})
      || (i.path !in {"context", "fmt", "github.com/suraciii/gor"} && i.path != source.path && Clashes(entries, source, i))
    {
      AliasedMeans(entries, source, i);
    }
    forall p | p in aliases ensures forall i :: i in entries ==> aliases[p] != i.name {
      forall i | i in entries ensures aliases[p] != i.name {
        assert i.name in Taken(entries, source);
      }
    }
  }

  method EffectiveImportNames(clean: string -> string, entries: seq<Import>, source: Import)
    returns (aliases: map<string, string>)
    requires DistinctPaths(entries)
    ensures forall i :: i in entries ==> (i.path in aliases <==>
      || (i.path == source.path && source.name in {"context", "fmt", "gor"})
      || (i.path !in {"context", "fmt", "github.com/suraciii/gor"} && i.path != source.path && Clashes(entries, source, i)))
    ensures source.name in {"context", "fmt", "gor"} ==> source.path in aliases
    ensures forall p :: p in aliases ==>
      && aliases[p] !in {"context", "fmt", "gor"} && aliases[p] != source.name
      && forall i :: i in entries ==> aliases[p] != i.name
    ensures forall p, q :: p in aliases && q in aliases && p != q ==> aliases[p] != aliases[q]
    ensures aliases == Aliases(clean, entries, source)
  {
    AliasesMean(clean, entries, source);
    var used := NamesInUse(entries, source);
    var conflicting := Collect(entries, source);
    var deepest := Depth(conflicting);
    var a := RunRounds(clean, Alloc(map[], used, conflicting), deepest);
    var done := NumberRest(a);
    aliases := done.aliases;
  }
}
