/** When one more import that collides with others leaves their names alone.

    A newcomer that shares its name with an import that had no alias so far takes that
    one's own name away. Otherwise it only joins those who wait for an alias, and the
    question is whether it gets in their way. */
module ImportNewcomer {
  import opened Orders
  import opened ImportNames
  import opened ImportLaws
  import opened ImportChurn

  // ---- one more among those who wait -------------------------------------------------------------

  function Inserted(s: seq<Import>, k: nat, j: Import): seq<Import>
    requires k <= |s|
  {
    s[..k] + [j] + s[k..]
  }

  function With(a: Alloc, k: nat, j: Import): Alloc
    requires k <= |a.remaining|
  {
    a.(remaining := Inserted(a.remaining, k, j))
  }

  lemma {:induction false} KeptSplits(s: seq<Import>, t: seq<Import>, p: Import -> bool)
    ensures Kept(s + t, p) == Kept(s, p) + Kept(t, p)
  {
    if t == [] {
      assert s + t == s;
    } else {
      var init := t[..|t| - 1];
      KeptSplits(s, init, p);
      assert (s + t)[..|s + t| - 1] == s + init;
    }
  }

  lemma {:induction false} CountSplits(s: seq<Import>, t: seq<Import>, p: Import -> bool)
    ensures Count(s + t, p) == Count(s, p) + Count(t, p)
  {
    if t == [] {
      assert s + t == s;
    } else {
      var init := t[..|t| - 1];
      CountSplits(s, init, p);
      assert (s + t)[..|s + t| - 1] == s + init;
    }
  }

  lemma {:induction false} GainedSplits(s: seq<Import>, t: seq<Import>, wins: Import -> bool, name: Import -> string)
    ensures Gained(s + t, wins, name) == Gained(s, wins, name) + Gained(t, wins, name)
  {
    if t == [] {
      assert s + t == s;
    } else {
      var init := t[..|t| - 1];
      GainedSplits(s, init, wins, name);
      assert (s + t)[..|s + t| - 1] == s + init;
    }
  }

  lemma CountInserted(s: seq<Import>, k: nat, j: Import, p: Import -> bool)
    requires k <= |s|
    ensures Count(Inserted(s, k, j), p) == Count(s, p) + if p(j) then 1 else 0
  {
    assert s == s[..k] + s[k..];
    CountParts(s, s[..k], j, s[k..], Inserted(s, k, j), p);
  }

  lemma CountParts(s: seq<Import>, t: seq<Import>, j: Import, u: seq<Import>, r: seq<Import>, p: Import -> bool)
    requires s == t + u && r == t + [j] + u
    ensures Count(r, p) == Count(s, p) + if p(j) then 1 else 0
  {
    CountAround(t, j, u, p);
  }

  lemma CountAround(s: seq<Import>, j: Import, t: seq<Import>, p: Import -> bool)
    ensures Count(s + [j] + t, p) == Count(s + t, p) + if p(j) then 1 else 0
  {
    CountSplits(s + [j], t, p);
    CountSplits(s, t, p);
    assert (s + [j])[..|s|] == s;
  }

  lemma KeptInserted(s: seq<Import>, k: nat, j: Import, p: Import -> bool)
    requires k <= |s|
    ensures |Kept(s[..k], p)| <= |Kept(s, p)|
    ensures Kept(Inserted(s, k, j), p) ==
            if p(j) then Inserted(Kept(s, p), |Kept(s[..k], p)|, j) else Kept(s, p)
  {
    KeptSplits(s[..k], [j], p);
    KeptSplits(s[..k] + [j], s[k..], p);
    KeptSplits(s[..k], s[k..], p);
    assert s[..k] + s[k..] == s && [j][..0] == [];
    assert Kept([j], p) == if p(j) then [j] else [];
  }

  lemma InsertedHolds(s: seq<Import>, k: nat, j: Import, i: Import)
    requires k <= |s|
    ensures i in Inserted(s, k, j) <==> i in s || i == j
  {
    assert s == s[..k] + s[k..];
  }

  lemma GainedInserted(s: seq<Import>, k: nat, j: Import, wins: Import -> bool, name: Import -> string)
    requires k <= |s| && DistinctPaths(Inserted(s, k, j))
    ensures j.path !in Gained(s, wins, name)
    ensures Gained(Inserted(s, k, j), wins, name) ==
            if wins(j) then Gained(s, wins, name)[j.path := name(j)] else Gained(s, wins, name)
  {
    var f, g := Gained(s[..k], wins, name), Gained(s[k..], wins, name);
    GainedSplits(s[..k], [j], wins, name);
    GainedSplits(s[..k] + [j], s[k..], wins, name);
    GainedSplits(s[..k], s[k..], wins, name);
    assert s[..k] + s[k..] == s && [j][..0] == [];
    assert Gained([j], wins, name) == if wins(j) then map[][j.path := name(j)] else map[];
    NewPath(s, k, j);
    GainedKey(s, wins, name, j.path);
    MergeAround(f, g, j.path, name(j));
  }

  lemma MergeAround(f: map<string, string>, g: map<string, string>, p: string, v: string)
    requires p !in f + g
    ensures f + map[] + g == f + g && f + map[][p := v] + g == (f + g)[p := v]
  {
  }

  lemma NewPath(s: seq<Import>, k: nat, j: Import)
    requires k <= |s| && DistinctPaths(Inserted(s, k, j))
    ensures forall i :: i in s ==> i.path != j.path
    ensures DistinctPaths(s)
  {
    var t := Inserted(s, k, j);
    assert t[k] == j;
    assert forall n :: 0 <= n < k ==> t[n] == s[n];
    assert forall n :: k <= n < |s| ==> t[n + 1] == s[n];
    forall i | i in s ensures i.path != j.path {
      var n :| 0 <= n < |s| && s[n] == i;
      assert t[if n < k then n else n + 1] == i;
    }
    forall m, n | 0 <= m < n < |s| ensures s[m].path != s[n].path {
      assert t[if m < k then m else m + 1] == s[m] && t[if n < k then n else n + 1] == s[n];
    }
  }

  // ---- one round with the newcomer --------------------------------------------------------------------

  /** The newcomer would be served: its candidate is free and nobody who waits proposes it. */
  predicate Stands(clean: string -> string, a: Alloc, depth: nat, j: Import) {
    var c := Candidate(clean, j, depth);
    c != "" && c !in a.used && Proposals(clean, a.remaining, depth, c) == 0
  }

  /** The newcomer proposes what somebody is served in this round. */
  predicate Contests(clean: string -> string, a: Alloc, depth: nat, j: Import) {
    Candidate(clean, j, depth) in WonIn(clean, a, depth).Values
  }

  /** Where the newcomer stands among those who lose the round. */
  function Moved(clean: string -> string, a: Alloc, depth: nat, k: nat): nat
    requires k <= |a.remaining|
  {
    |Kept(a.remaining[..k], Loser(clean, a, depth))|
  }

  lemma WinsWith(clean: string -> string, a: Alloc, k: nat, depth: nat, j: Import, i: Import)
    requires k <= |a.remaining| && DistinctPaths(a.remaining) && i in a.remaining
    ensures Wins(clean, With(a, k, j), depth, i) <==>
      Wins(clean, a, depth, i) && Candidate(clean, i, depth) != Candidate(clean, j, depth)
  {
    var c := Candidate(clean, i, depth);
    var same := ByCandidate(clean, depth, c);
    CountInserted(a.remaining, k, j, same);
    CountPositive(a.remaining, same);
    var n :| 0 <= n < |a.remaining| && a.remaining[n] == i;
    assert same(a.remaining[n]);
  }

  lemma NewcomerWins(clean: string -> string, a: Alloc, k: nat, depth: nat, j: Import)
    requires k <= |a.remaining|
    ensures Wins(clean, With(a, k, j), depth, j) <==> Stands(clean, a, depth, j)
  {
    CountInserted(a.remaining, k, j, ByCandidate(clean, depth, Candidate(clean, j, depth)));
  }

  /** Who is served in the round has that name for it. */
  lemma WinnersName(clean: string -> string, a: Alloc, depth: nat, i: Import)
    requires DistinctPaths(a.remaining) && i in a.remaining && Wins(clean, a, depth, i)
    ensures Candidate(clean, i, depth) in WonIn(clean, a, depth).Values
  {
    GainedValue(a.remaining, Winner(clean, a, depth), Namer(clean, depth), i);
  }

  lemma OthersWinAlike(clean: string -> string, a: Alloc, k: nat, depth: nat, j: Import, i: Import)
    requires k <= |a.remaining| && DistinctPaths(a.remaining) && i in a.remaining && !Contests(clean, a, depth, j)
    ensures Wins(clean, With(a, k, j), depth, i) <==> Wins(clean, a, depth, i)
  {
    WinsWith(clean, a, k, depth, j, i);
    if Wins(clean, a, depth, i) {
      WinnersName(clean, a, depth, i);
    }
  }

  /** A newcomer that neither stands nor contests just goes on waiting. */
  lemma RoundWaits(clean: string -> string, a: Alloc, k: nat, depth: nat, j: Import)
    requires k <= |a.remaining| && DistinctPaths(Inserted(a.remaining, k, j))
    requires !Stands(clean, a, depth, j) && !Contests(clean, a, depth, j)
    ensures Moved(clean, a, depth, k) <= |Round(clean, a, depth).remaining|
    ensures Round(clean, With(a, k, j), depth) == With(Round(clean, a, depth), Moved(clean, a, depth, k), j)
  {
    var b := With(a, k, j);
    NewPath(a.remaining, k, j);
    NewcomerWins(clean, a, k, depth, j);
    forall i | i in a.remaining ensures Wins(clean, b, depth, i) == Wins(clean, a, depth, i) {
      OthersWinAlike(clean, a, k, depth, j, i);
    }
    GainedSame(a.remaining, Winner(clean, a, depth), Winner(clean, b, depth), Namer(clean, depth));
    GainedInserted(a.remaining, k, j, Winner(clean, b, depth), Namer(clean, depth));
    KeptSame(a.remaining, Loser(clean, a, depth), Loser(clean, b, depth));
    PrefixKept(a.remaining, k, Loser(clean, a, depth), Loser(clean, b, depth));
    KeptInserted(a.remaining, k, j, Loser(clean, b, depth));
  }

  lemma PrefixKept(s: seq<Import>, k: nat, f: Import -> bool, g: Import -> bool)
    requires k <= |s| && forall i :: i in s ==> f(i) == g(i)
    ensures Kept(s[..k], f) == Kept(s[..k], g)
  {
    assert forall i :: i in s[..k] ==> i in s;
    KeptSame(s[..k], f, g);
  }

  /** The newcomer has its alias `c`. */
  function Crowned(a: Alloc, j: Import, c: string): Alloc {
    Alloc(a.aliases[j.path := c], a.used + {c}, a.remaining)
  }

  lemma NobodyProposes(clean: string -> string, a: Alloc, depth: nat, j: Import)
    requires Stands(clean, a, depth, j) && DistinctPaths(a.remaining)
    ensures !Contests(clean, a, depth, j)
  {
    var c := Candidate(clean, j, depth);
    if c in WonIn(clean, a, depth).Values {
      var p :| p in WonIn(clean, a, depth) && WonIn(clean, a, depth)[p] == c;
      var i := WonBy(clean, a, depth, p);
      CountPositive(a.remaining, ByCandidate(clean, depth, c));
    }
  }

  /** A newcomer that stands is served, and the others fare as without it. */
  lemma RoundCrowns(clean: string -> string, a: Alloc, k: nat, depth: nat, j: Import)
    requires k <= |a.remaining| && DistinctPaths(Inserted(a.remaining, k, j)) && Stands(clean, a, depth, j)
    ensures Round(clean, With(a, k, j), depth) == Crowned(Round(clean, a, depth), j, Candidate(clean, j, depth))
  {
    var b, c := With(a, k, j), Candidate(clean, j, depth);
    NewPath(a.remaining, k, j);
    NewcomerWins(clean, a, k, depth, j);
    NobodyProposes(clean, a, depth, j);
    forall i | i in a.remaining ensures Wins(clean, b, depth, i) == Wins(clean, a, depth, i) {
      OthersWinAlike(clean, a, k, depth, j, i);
    }
    GainedSame(a.remaining, Winner(clean, a, depth), Winner(clean, b, depth), Namer(clean, depth));
    GainedInserted(a.remaining, k, j, Winner(clean, b, depth), Namer(clean, depth));
    KeptSame(a.remaining, Loser(clean, a, depth), Loser(clean, b, depth));
    KeptInserted(a.remaining, k, j, Loser(clean, b, depth));
    CrownMerges(a.aliases, a.used, WonIn(clean, a, depth), j.path, c);
  }

  lemma CrownMerges(aliases: map<string, string>, used: set<string>, won: map<string, string>, p: string, c: string)
    requires p !in won
    ensures aliases + won[p := c] == (aliases + won)[p := c]
    ensures used + won[p := c].Values == used + won.Values + {c}
  {
    var more := won[p := c];
    assert more[p] == c;
    forall v | v in won.Values ensures v in more.Values {
      var q :| q in won && won[q] == v;
      assert more[q] == v;
    }
  }

  // ---- the rest of the allocation, once the newcomer has its alias -------------------------------------

  function Plus(a: Alloc, p: string, alias: string): Alloc {
    a.(aliases := a.aliases[p := alias])
  }

  ghost predicate Waits(a: Alloc, p: string) {
    exists i :: i in a.remaining && i.path == p
  }

  lemma RoundPlus(clean: string -> string, a: Alloc, depth: nat, p: string, alias: string)
    requires !Waits(a, p)
    ensures Round(clean, Plus(a, p, alias), depth) == Plus(Round(clean, a, depth), p, alias)
    ensures !Waits(Round(clean, a, depth), p)
  {
    var b := Plus(a, p, alias);
    forall i | i in a.remaining ensures Wins(clean, b, depth, i) == Wins(clean, a, depth, i) { }
    GainedSame(a.remaining, Winner(clean, a, depth), Winner(clean, b, depth), Namer(clean, depth));
    KeptSame(a.remaining, Loser(clean, a, depth), Loser(clean, b, depth));
    GainedKey(a.remaining, Winner(clean, a, depth), Namer(clean, depth), p);
    forall i | i in Round(clean, a, depth).remaining ensures i.path != p {
      KeptIff(a.remaining, Loser(clean, a, depth), i);
    }
    PlusMerges(a.aliases, WonIn(clean, a, depth), p, alias);
  }

  lemma PlusMerges(aliases: map<string, string>, won: map<string, string>, p: string, alias: string)
    requires p !in won
    ensures aliases[p := alias] + won == (aliases + won)[p := alias]
  {
  }

  function Adding(p: string, alias: string): Alloc -> Alloc {
    (a: Alloc) => Plus(a, p, alias)
  }

  ghost function Unwaited(p: string): Alloc -> bool {
    (a: Alloc) => !Waits(a, p)
  }

  /** What commutes with a round commutes with the rounds. */
  lemma {:induction false} RoundsCommute(
    round: (Alloc, nat) -> Alloc, f: Alloc -> Alloc, keeps: Alloc -> bool, a: Alloc, depth: nat, deepest: nat)
    requires keeps(a) && (forall x, d :: keeps(x) ==> keeps(round(x, d)))
    requires forall x, d :: keeps(x) ==> round(f(x), d) == f(round(x, d))
    ensures Rounds(round, f(a), depth, deepest) == f(Rounds(round, a, depth, deepest))
    ensures keeps(Rounds(round, a, depth, deepest))
    decreases deepest + 1 - depth
  {
    if depth <= deepest {
      RoundsCommute(round, f, keeps, round(a, depth), depth + 1, deepest);
    }
  }

  lemma RoundsPlus(clean: string -> string, a: Alloc, depth: nat, deepest: nat, p: string, alias: string)
    requires !Waits(a, p)
    ensures Rounds(Rounder(clean), Plus(a, p, alias), depth, deepest) == Plus(Rounds(Rounder(clean), a, depth, deepest), p, alias)
    ensures !Waits(Rounds(Rounder(clean), a, depth, deepest), p)
  {
    var round, f, keeps := Rounder(clean), Adding(p, alias), Unwaited(p);
    forall x, d | keeps(x) ensures keeps(round(x, d)) && round(f(x), d) == f(round(x, d)) {
      RoundPlus(clean, x, d, p, alias);
    }
    RoundsCommute(round, f, keeps, a, depth, deepest);
    assert f(a) == Plus(a, p, alias);
    assert keeps(Rounds(round, a, depth, deepest));
  }

  lemma {:induction false} NumberedPlus(a: Alloc, n: nat, p: string, alias: string)
    requires !Waits(a, p) && n <= |a.remaining|
    ensures Numbered(Plus(a, p, alias), n) == Plus(Numbered(a, n), p, alias)
  {
    if n > 0 {
      var i, b := a.remaining[n - 1], Numbered(a, n - 1);
      NumberedPlus(a, n - 1, p, alias);
      NumberedStep(a, n - 1);
      NumberedStep(Plus(a, p, alias), n - 1);
      assert i in a.remaining;
      PlusServed(b, p, alias, i.path, Suffixed(i.name, FreeSuffix(b.used, i.name, 2)));
    }
  }

  lemma PlusServed(a: Alloc, p: string, alias: string, q: string, v: string)
    requires p != q
    ensures Served(Plus(a, p, alias), q, v) == Plus(Served(a, q, v), p, alias)
  {
    assert a.aliases[p := alias][q := v] == a.aliases[q := v][p := alias];
  }

  lemma DonePlus(clean: string -> string, a: Alloc, depth: nat, deepest: nat, p: string, alias: string)
    requires !Waits(a, p)
    ensures Done(clean, Plus(a, p, alias), depth, deepest) == Done(clean, a, depth, deepest)[p := alias]
  {
    var b := Rounds(Rounder(clean), a, depth, deepest);
    RoundsPlus(clean, a, depth, deepest, p, alias);
    NumberedPlus(b, |b.remaining|, p, alias);
  }

  lemma DoneIgnoresFrom(clean: string -> string, a: Alloc, depth: nat, deepest: nat, x: string)
    requires DistinctPaths(a.remaining) && x !in Done(clean, a, depth, deepest).Values
    ensures Done(clean, WithUsed(a, x), depth, deepest) == Done(clean, a, depth, deepest)
  {
    var b := Rounds(Rounder(clean), a, depth, deepest);
    RoundsIgnore(clean, a, depth, deepest, x);
    RoundsKeepDistinct(clean, a, depth, deepest);
    NumberedIgnores(b, |b.remaining|, x);
  }

  /** Aliases in the end are distinct, and everybody has one. */
  lemma DoneIsOk(clean: string -> string, a: Alloc, depth: nat, deepest: nat, taken: set<string>)
    requires AllocOk(a, taken)
    ensures Injective(Done(clean, a, depth, deepest)) && Done(clean, a, depth, deepest).Keys == Everybody(a)
  {
    var keeps := InOrder(taken, Everybody(a));
    forall x, d | keeps(x) ensures keeps(Rounder(clean)(x, d)) {
      RoundKeepsOk(clean, x, d, taken);
      RoundPaths(clean, x, d);
    }
    RoundsKeep(Rounder(clean), keeps, a, depth, deepest);
    var b := Rounds(Rounder(clean), a, depth, deepest);
    assert keeps(b);
    NumberedKeepsNames(b, |b.remaining|, taken);
    NumberedServes(b, |b.remaining|);
    assert b.remaining[..|b.remaining|] == b.remaining;
  }

  /** The others have the aliases they would have without the newcomer. */
  predicate SameForOthers(without: map<string, string>, aliases: map<string, string>, j: Import) {
    aliases - {j.path} == without
  }

  /** Two cannot bear one name: if the newcomer has what `p` had, `p` has changed. */
  lemma TheftShows(was: map<string, string>, now: map<string, string>, j: Import, c: string)
    requires Injective(now) && c in was.Values && j.path !in was && j.path in now && now[j.path] == c
    ensures !SameForOthers(was, now, j)
  {
    var p :| p in was && was[p] == c;
    assert p in now ==> now[p] != c;
  }

  lemma CrownedIsHarmless(clean: string -> string, b: Alloc, j: Import, c: string, depth: nat, deepest: nat, taken: set<string>)
    requires AllocOk(b, taken) && !Waits(b, j.path) && j.path !in b.aliases
    requires c !in Done(clean, b, depth, deepest).Values
    ensures Done(clean, Crowned(b, j, c), depth, deepest) == Done(clean, b, depth, deepest)[j.path := c]
  {
    assert Crowned(b, j, c) == Plus(WithUsed(b, c), j.path, c);
    DoneIgnoresFrom(clean, b, depth, deepest, c);
    DonePlus(clean, WithUsed(b, c), depth, deepest, j.path, c);
  }

  /** A newcomer crowned with `c` is in the others' way exactly if they would be given `c`. */
  lemma CrownedTheft(clean: string -> string, b: Alloc, j: Import, c: string, depth: nat, deepest: nat, taken: set<string>)
    requires AllocOk(b, taken) && !Waits(b, j.path) && j.path !in b.aliases && c !in b.used && c !in taken
    ensures SameForOthers(Done(clean, b, depth, deepest), Done(clean, Crowned(b, j, c), depth, deepest), j)
      <==> c !in Done(clean, b, depth, deepest).Values
  {
    var was, now := Done(clean, b, depth, deepest), Done(clean, Crowned(b, j, c), depth, deepest);
    DoneIsOk(clean, b, depth, deepest, taken);
    assert j.path !in was;
    if c !in was.Values {
      CrownedIsHarmless(clean, b, j, c, depth, deepest, taken);
    } else {
      AddedKeepsOk(b.aliases, b.used, taken, j.path, c);
      DoneIsOk(clean, Crowned(b, j, c), depth, deepest, taken);
      FixedIsDone(clean, Crowned(b, j, c), depth, deepest, j.path, c);
      TheftShows(was, now, j, c);
    }
  }

  // ---- numbers ------------------------------------------------------------------------------------------

  /** The number the newcomer gets when nothing else served it. */
  function NumberFor(a: Alloc, k: nat, j: Import): string
    requires k <= |a.remaining|
  {
    Suffixed(j.name, FreeSuffix(Numbered(a, k).used, j.name, 2))
  }

  lemma {:induction false} NumberedBefore(a: Alloc, k: nat, j: Import, n: nat)
    requires n <= k <= |a.remaining|
    ensures var b := Numbered(a, n);
      Numbered(With(a, k, j), n) == With(a, k, j).(aliases := b.aliases, used := b.used)
  {
    if n > 0 {
      NumberedBefore(a, k, j, n - 1);
      assert With(a, k, j).remaining[n - 1] == a.remaining[n - 1];
    }
  }

  /** The newcomer's own turn. */
  lemma NumberedAt(a: Alloc, k: nat, j: Import)
    requires k <= |a.remaining|
    ensures var b := Numbered(a, k); var y := NumberFor(a, k, j);
      Numbered(With(a, k, j), k + 1) == With(a, k, j).(aliases := b.aliases[j.path := y], used := b.used + {y})
  {
    NumberedBefore(a, k, j, k);
    assert With(a, k, j).remaining[k] == j;
  }

  lemma ServedCommute(a: Alloc, p: string, v: string, q: string, u: string)
    requires p != q
    ensures Served(Served(a, p, v), q, u) == Served(Served(a, q, u), p, v)
  {
    assert a.aliases[p := v][q := u] == a.aliases[q := u][p := v];
    assert a.used + {v} + {u} == a.used + {u} + {v};
  }

  /** The turns after it, when its number is nobody else's. */
  lemma {:induction false} NumberedAfter(a: Alloc, k: nat, j: Import, m: nat)
    requires k <= m <= |a.remaining| && DistinctPaths(Inserted(a.remaining, k, j))
    requires NumberFor(a, k, j) !in Numbered(a, |a.remaining|).aliases.Values
    ensures Ahead(Numbered(a, m), Numbered(With(a, k, j), m + 1), j.path, NumberFor(a, k, j), With(a, k, j))
    decreases m
  {
    if m == k {
      NumberedAt(a, k, j);
    } else {
      NumberedAfter(a, k, j, m - 1);
      TurnIsAnothers(a, k, j, m - 1);
      SameNumber(a, m - 1, NumberFor(a, k, j));
      TurnAfter(a, With(a, k, j), m - 1, j.path, NumberFor(a, k, j));
    }
  }

  lemma TurnIsAnothers(a: Alloc, k: nat, j: Import, m: nat)
    requires k <= m < |a.remaining| && DistinctPaths(Inserted(a.remaining, k, j))
    ensures With(a, k, j).remaining[m + 1] == a.remaining[m] && a.remaining[m].path != j.path && DistinctPaths(a.remaining)
  {
    NewPath(a.remaining, k, j);
    assert a.remaining[m] in a.remaining;
  }

  /** `c` has what `a` has, and `p` its number `y`. */
  predicate Ahead(a: Alloc, c: Alloc, p: string, y: string, turned: Alloc) {
    c == turned.(aliases := a.aliases[p := y], used := a.used + {y})
  }

  /** One turn after the newcomer's. */
  lemma TurnAfter(a: Alloc, c: Alloc, m: nat, p: string, y: string)
    requires m < |a.remaining| && m + 1 < |c.remaining| && c.remaining[m + 1] == a.remaining[m] && a.remaining[m].path != p
    requires Ahead(Numbered(a, m), Numbered(c, m + 1), p, y, c)
    requires var used, name := Numbered(a, m).used, a.remaining[m].name;
      FreeSuffix(used + {y}, name, 2) == FreeSuffix(used, name, 2)
    ensures Ahead(Numbered(a, m + 1), Numbered(c, m + 2), p, y, c)
  {
    var i, before := a.remaining[m], Numbered(a, m);
    NumberedStep(a, m);
    NumberedStep(c, m + 1);
    ServedCommute(before, i.path, Suffixed(i.name, FreeSuffix(before.used, i.name, 2)), p, y);
  }

  lemma NumberStaysWith(a: Alloc, k: nat, j: Import)
    requires k <= |a.remaining| && DistinctPaths(Inserted(a.remaining, k, j))
    ensures var all := Numbered(With(a, k, j), |a.remaining| + 1).aliases;
      j.path in all && all[j.path] == NumberFor(a, k, j)
  {
    NumberedAt(a, k, j);
    NumberStays(With(a, k, j), k, |a.remaining| + 1);
    assert With(a, k, j).remaining[k] == j;
  }

  /** The newcomer's number is in the others' way exactly if one of them would get it. */
  lemma NumberTheft(a: Alloc, k: nat, j: Import, taken: set<string>)
    requires k <= |a.remaining| && AllocOk(a, taken) && AllocOk(With(a, k, j), taken) && j.path !in a.aliases
    ensures var was := Numbered(a, |a.remaining|).aliases; var now := Numbered(With(a, k, j), |a.remaining| + 1).aliases;
      SameForOthers(was, now, j) <==> NumberFor(a, k, j) !in was.Values
  {
    if NumberFor(a, k, j) !in Numbered(a, |a.remaining|).aliases.Values {
      NumberIsHarmless(a, k, j);
    } else {
      NumberSteals(a, k, j, taken);
    }
  }

  lemma NobodysNumber(a: Alloc, k: nat, j: Import)
    requires k <= |a.remaining| && DistinctPaths(Inserted(a.remaining, k, j)) && j.path !in a.aliases
    ensures j.path !in Numbered(a, |a.remaining|).aliases
  {
    NewPath(a.remaining, k, j);
    NumberedServes(a, |a.remaining|);
    assert a.remaining[..|a.remaining|] == a.remaining;
  }

  lemma NumberIsHarmless(a: Alloc, k: nat, j: Import)
    requires k <= |a.remaining| && DistinctPaths(Inserted(a.remaining, k, j)) && j.path !in a.aliases
    requires NumberFor(a, k, j) !in Numbered(a, |a.remaining|).aliases.Values
    ensures SameForOthers(Numbered(a, |a.remaining|).aliases, Numbered(With(a, k, j), |a.remaining| + 1).aliases, j)
  {
    NobodysNumber(a, k, j);
    NumberedAfter(a, k, j, |a.remaining|);
  }

  lemma NumberSteals(a: Alloc, k: nat, j: Import, taken: set<string>)
    requires k <= |a.remaining| && AllocOk(With(a, k, j), taken) && j.path !in a.aliases
    requires NumberFor(a, k, j) in Numbered(a, |a.remaining|).aliases.Values
    ensures !SameForOthers(Numbered(a, |a.remaining|).aliases, Numbered(With(a, k, j), |a.remaining| + 1).aliases, j)
  {
    var now := Numbered(With(a, k, j), |a.remaining| + 1).aliases;
    NobodysNumber(a, k, j);
    NumberedKeepsNames(With(a, k, j), |a.remaining| + 1, taken);
    NumberStaysWith(a, k, j);
    TheftShows(Numbered(a, |a.remaining|).aliases, now, j, NumberFor(a, k, j));
  }

  // ---- the course of the allocation ------------------------------------------------------------------------

  /** Told from the allocation without it: as long as the newcomer waits it proposes
      nothing that somebody is served with in that round, and the name it is given, by a
      round or by number, is one that nobody is given. */
  predicate Undisturbed(clean: string -> string, a: Alloc, k: nat, j: Import, depth: nat, deepest: nat)
    requires k <= |a.remaining|
    decreases deepest + 1 - depth
  {
    if depth > deepest then NumberFor(a, k, j) !in Numbered(a, |a.remaining|).aliases.Values
    else if Stands(clean, a, depth, j) then Candidate(clean, j, depth) !in Done(clean, a, depth, deepest).Values
    else
      && !Contests(clean, a, depth, j)
      && (MovedFits(clean, a, depth, k);
          Undisturbed(clean, Round(clean, a, depth), Moved(clean, a, depth, k), j, depth + 1, deepest))
  }

  lemma MovedFits(clean: string -> string, a: Alloc, depth: nat, k: nat)
    requires k <= |a.remaining|
    ensures Moved(clean, a, depth, k) <= |Round(clean, a, depth).remaining|
  {
    PrefixIsShorter(a.remaining, k, Loser(clean, a, depth));
  }

  lemma PrefixIsShorter(s: seq<Import>, k: nat, p: Import -> bool)
    requires k <= |s|
    ensures |Kept(s[..k], p)| <= |Kept(s, p)|
  {
    KeptSplits(s[..k], s[k..], p);
    assert s[..k] + s[k..] == s;
  }

  // ---- the exact law, round by round ---------------------------------------------------------------------

  /** Whoever waits has no alias yet. */
  ghost predicate Clear(a: Alloc) {
    forall i :: i in a.remaining ==> i.path !in a.aliases
  }

  /** What the course of an allocation with the newcomer starts from. */
  ghost predicate Ready(a: Alloc, k: nat, j: Import, taken: set<string>) {
    && k <= |a.remaining| && AllocOk(a, taken) && DistinctPaths(Inserted(a.remaining, k, j))
    && Clear(a) && j.path !in a.aliases
  }

  lemma ReadyWith(a: Alloc, k: nat, j: Import, taken: set<string>)
    requires Ready(a, k, j, taken)
    ensures AllocOk(With(a, k, j), taken) && !Waits(a, j.path)
  {
    NewPath(a.remaining, k, j);
  }

  /** The state without the newcomer after a round. */
  lemma RoundIsReady(clean: string -> string, a: Alloc, k: nat, j: Import, depth: nat, taken: set<string>)
    requires Ready(a, k, j, taken)
    ensures var b := Round(clean, a, depth);
      AllocOk(b, taken) && Clear(b) && j.path !in b.aliases && !Waits(b, j.path)
  {
    ReadyWith(a, k, j, taken);
    RoundKeepsOk(clean, a, depth, taken);
    RoundPaths(clean, a, depth);
    GainedKey(a.remaining, Winner(clean, a, depth), Namer(clean, depth), j.path);
  }

  lemma StillReady(clean: string -> string, a: Alloc, k: nat, j: Import, depth: nat, taken: set<string>)
    requires Ready(a, k, j, taken) && !Stands(clean, a, depth, j) && !Contests(clean, a, depth, j)
    ensures Ready(Round(clean, a, depth), Moved(clean, a, depth, k), j, taken)
    ensures Round(clean, With(a, k, j), depth) == With(Round(clean, a, depth), Moved(clean, a, depth, k), j)
  {
    RoundWaits(clean, a, k, depth, j);
    RoundIsReady(clean, a, k, j, depth, taken);
    RoundPaths(clean, With(a, k, j), depth);
  }

  /** After every round, and in the end, the others have the aliases they would have. */
  predicate SameCourse(clean: string -> string, a: Alloc, a': Alloc, j: Import, depth: nat, deepest: nat)
    decreases deepest + 1 - depth
  {
    && SameForOthers(a.aliases, a'.aliases, j)
    && if depth > deepest
       then SameForOthers(Numbered(a, |a.remaining|).aliases, Numbered(a', |a'.remaining|).aliases, j)
       else SameCourse(clean, Round(clean, a, depth), Round(clean, a', depth), j, depth + 1, deepest)
  }

  lemma {:induction false} CourseEnds(clean: string -> string, a: Alloc, a': Alloc, j: Import, depth: nat, deepest: nat)
    requires SameCourse(clean, a, a', j, depth, deepest)
    ensures SameForOthers(Done(clean, a, depth, deepest), Done(clean, a', depth, deepest), j)
    decreases deepest + 1 - depth
  {
    if depth > deepest {
      DoneEnd(clean, a, depth, deepest);
      DoneEnd(clean, a', depth, deepest);
    } else {
      DoneStep(clean, a, depth, deepest);
      DoneStep(clean, a', depth, deepest);
      CourseEnds(clean, Round(clean, a, depth), Round(clean, a', depth), j, depth + 1, deepest);
    }
  }

  lemma {:induction false} CrownedCourse(
    clean: string -> string, b: Alloc, j: Import, c: string, depth: nat, deepest: nat, taken: set<string>)
    requires AllocOk(b, taken) && !Waits(b, j.path) && j.path !in b.aliases && c !in Done(clean, b, depth, deepest).Values
    ensures SameCourse(clean, b, Crowned(b, j, c), j, depth, deepest)
    decreases deepest + 1 - depth
  {
    if depth > deepest {
      CrownedAtEnd(clean, b, j, c, depth, deepest, taken);
    } else {
      var d := Round(clean, b, depth);
      CrownedRound(clean, b, j, c, depth, deepest);
      RoundKeepsOk(clean, b, depth, taken);
      DoneStep(clean, b, depth, deepest);
      CrownedCourse(clean, d, j, c, depth + 1, deepest, taken);
      AddedIsOther(b.aliases, j, c);
      CourseStep(clean, b, Crowned(b, j, c), j, depth, deepest, d, Crowned(d, j, c));
    }
  }

  lemma CrownedAtEnd(clean: string -> string, b: Alloc, j: Import, c: string, depth: nat, deepest: nat, taken: set<string>)
    requires AllocOk(b, taken) && !Waits(b, j.path) && j.path !in b.aliases && c !in Done(clean, b, depth, deepest).Values
    requires depth > deepest
    ensures SameCourse(clean, b, Crowned(b, j, c), j, depth, deepest)
  {
    CrownedIsHarmless(clean, b, j, c, depth, deepest, taken);
    DoneIsOk(clean, b, depth, deepest, taken);
    DoneEnd(clean, b, depth, deepest);
    DoneEnd(clean, Crowned(b, j, c), depth, deepest);
    AddedIsOther(b.aliases, j, c);
    AddedIsOther(Done(clean, b, depth, deepest), j, c);
    CourseStops(clean, b, Crowned(b, j, c), j, depth, deepest);
  }

  /** Giving the newcomer its alias is nothing to the others. */
  lemma AddedIsOther(aliases: map<string, string>, j: Import, c: string)
    requires j.path !in aliases
    ensures SameForOthers(aliases, aliases[j.path := c], j)
  {
  }

  lemma CourseStops(clean: string -> string, a: Alloc, a': Alloc, j: Import, depth: nat, deepest: nat)
    requires depth > deepest && SameForOthers(a.aliases, a'.aliases, j)
    requires SameForOthers(Numbered(a, |a.remaining|).aliases, Numbered(a', |a'.remaining|).aliases, j)
    ensures SameCourse(clean, a, a', j, depth, deepest)
  {
  }

  lemma CourseStep(clean: string -> string, a: Alloc, a': Alloc, j: Import, depth: nat, deepest: nat, b: Alloc, b': Alloc)
    requires depth <= deepest && b == Round(clean, a, depth) && b' == Round(clean, a', depth)
    requires SameForOthers(a.aliases, a'.aliases, j) && SameCourse(clean, b, b', j, depth + 1, deepest)
    ensures SameCourse(clean, a, a', j, depth, deepest)
  {
  }

  lemma CrownedRound(clean: string -> string, b: Alloc, j: Import, c: string, depth: nat, deepest: nat)
    requires depth <= deepest && DistinctPaths(b.remaining) && !Waits(b, j.path) && j.path !in b.aliases
    requires c !in Done(clean, b, depth, deepest).Values
    ensures Round(clean, Crowned(b, j, c), depth) == Crowned(Round(clean, b, depth), j, c)
    ensures !Waits(Round(clean, b, depth), j.path) && j.path !in Round(clean, b, depth).aliases
  {
    forall p | p in WonIn(clean, b, depth) ensures WonIn(clean, b, depth)[p] != c {
      var i := WonBy(clean, b, depth, p);
      WinnerIsFixed(clean, b, depth, i);
      FixedIsDone(clean, Round(clean, b, depth), depth + 1, deepest, p, Candidate(clean, i, depth));
    }
    assert Crowned(b, j, c) == Plus(WithUsed(b, c), j.path, c);
    RoundIgnores(clean, b, depth, c);
    RoundPlus(clean, WithUsed(b, c), depth, j.path, c);
    RoundPlus(clean, b, depth, j.path, c);
    GainedKey(b.remaining, Winner(clean, b, depth), Namer(clean, depth), j.path);
  }

  /** A contested winner goes without its name in that round. */
  lemma ContestShows(clean: string -> string, a: Alloc, k: nat, j: Import, depth: nat, taken: set<string>) returns (i: Import)
    requires Ready(a, k, j, taken) && Contests(clean, a, depth, j)
    ensures i in a.remaining && Wins(clean, a, depth, i) && Candidate(clean, i, depth) == Candidate(clean, j, depth)
    ensures Fixed(Round(clean, a, depth), i.path, Candidate(clean, i, depth)) && i.path != j.path
    ensures i in Round(clean, With(a, k, j), depth).remaining && i.path !in Round(clean, With(a, k, j), depth).aliases
    ensures !SameForOthers(Round(clean, a, depth).aliases, Round(clean, With(a, k, j), depth).aliases, j)
  {
    var p :| p in WonIn(clean, a, depth) && WonIn(clean, a, depth)[p] == Candidate(clean, j, depth);
    NewPath(a.remaining, k, j);
    i := WonBy(clean, a, depth, p);
    WinnerIsFixed(clean, a, depth, i);
    WinsWith(clean, a, k, depth, j, i);
    var b := With(a, k, j);
    InsertedHolds(a.remaining, k, j, i);
    KeptIff(b.remaining, Loser(clean, b, depth), i);
    RoundPaths(clean, b, depth);
  }

  lemma CourseAtEnd(clean: string -> string, a: Alloc, k: nat, j: Import, depth: nat, deepest: nat, taken: set<string>)
    requires Ready(a, k, j, taken) && depth > deepest
    ensures SameCourse(clean, a, With(a, k, j), j, depth, deepest) <==> Undisturbed(clean, a, k, j, depth, deepest)
  {
    ReadyWith(a, k, j, taken);
    NumberTheft(a, k, j, taken);
    CourseStopsIff(clean, a, With(a, k, j), j, depth, deepest);
    UndisturbedAtEnd(clean, a, k, j, depth, deepest);
  }

  lemma UndisturbedAtEnd(clean: string -> string, a: Alloc, k: nat, j: Import, depth: nat, deepest: nat)
    requires k <= |a.remaining| && depth > deepest
    ensures Undisturbed(clean, a, k, j, depth, deepest) <==> NumberFor(a, k, j) !in Numbered(a, |a.remaining|).aliases.Values
    ensures |With(a, k, j).remaining| == |a.remaining| + 1 && With(a, k, j).aliases == a.aliases
  {
  }

  lemma CourseStopsIff(clean: string -> string, a: Alloc, a': Alloc, j: Import, depth: nat, deepest: nat)
    requires depth > deepest && a'.aliases == a.aliases && j.path !in a.aliases
    ensures SameCourse(clean, a, a', j, depth, deepest) <==>
      SameForOthers(Numbered(a, |a.remaining|).aliases, Numbered(a', |a'.remaining|).aliases, j)
  {
    assert SameForOthers(a.aliases, a'.aliases, j);
  }

  lemma CourseWhenStanding(clean: string -> string, a: Alloc, k: nat, j: Import, depth: nat, deepest: nat, taken: set<string>)
    requires Ready(a, k, j, taken) && depth <= deepest && Stands(clean, a, depth, j)
    ensures SameCourse(clean, a, With(a, k, j), j, depth, deepest) <==> Undisturbed(clean, a, k, j, depth, deepest)
  {
    StandingCourse(clean, a, k, j, depth, deepest, taken);
    assert SameForOthers(a.aliases, With(a, k, j).aliases, j);
  }

  lemma CourseWhenContested(clean: string -> string, a: Alloc, k: nat, j: Import, depth: nat, deepest: nat, taken: set<string>)
    requires Ready(a, k, j, taken) && depth <= deepest && !Stands(clean, a, depth, j) && Contests(clean, a, depth, j)
    ensures !SameCourse(clean, a, With(a, k, j), j, depth, deepest) && !Undisturbed(clean, a, k, j, depth, deepest)
  {
    var i := ContestShows(clean, a, k, j, depth, taken);
    var b, b' := Round(clean, a, depth), Round(clean, With(a, k, j), depth);
    assert !SameCourse(clean, b, b', j, depth + 1, deepest);
  }

  lemma CourseWhenWaiting(clean: string -> string, a: Alloc, k: nat, j: Import, depth: nat, deepest: nat, b: Alloc, n: nat)
    requires k <= |a.remaining| && j.path !in a.aliases && depth <= deepest
    requires !Stands(clean, a, depth, j) && !Contests(clean, a, depth, j)
    requires b == Round(clean, a, depth) && n == Moved(clean, a, depth, k) <= |b.remaining|
    requires Round(clean, With(a, k, j), depth) == With(b, n, j)
    ensures SameCourse(clean, a, With(a, k, j), j, depth, deepest) <==> SameCourse(clean, b, With(b, n, j), j, depth + 1, deepest)
    ensures Undisturbed(clean, a, k, j, depth, deepest) <==> Undisturbed(clean, b, n, j, depth + 1, deepest)
  {
    assert SameForOthers(a.aliases, With(a, k, j).aliases, j);
  }

  /** For every import list: the others go the same way, round by round, if and only if the
      newcomer, judged by the allocation without it, does not disturb them. */
  lemma {:induction false} SameCourseIff(
    clean: string -> string, a: Alloc, k: nat, j: Import, depth: nat, deepest: nat, taken: set<string>)
    requires Ready(a, k, j, taken)
    ensures SameCourse(clean, a, With(a, k, j), j, depth, deepest) <==> Undisturbed(clean, a, k, j, depth, deepest)
    decreases deepest + 1 - depth
  {
    if depth > deepest {
      CourseAtEnd(clean, a, k, j, depth, deepest, taken);
    } else if Stands(clean, a, depth, j) {
      CourseWhenStanding(clean, a, k, j, depth, deepest, taken);
    } else if Contests(clean, a, depth, j) {
      CourseWhenContested(clean, a, k, j, depth, deepest, taken);
    } else {
      var b, n := Round(clean, a, depth), Moved(clean, a, depth, k);
      StillReady(clean, a, k, j, depth, taken);
      CourseWhenWaiting(clean, a, k, j, depth, deepest, b, n);
      SameCourseIff(clean, b, n, j, depth + 1, deepest, taken);
    }
  }

  lemma CrownIsFree(clean: string -> string, a: Alloc, k: nat, j: Import, depth: nat, taken: set<string>)
    requires Ready(a, k, j, taken) && Stands(clean, a, depth, j)
    ensures var c := Candidate(clean, j, depth); c !in Round(clean, a, depth).used && c !in taken
  {
    NewPath(a.remaining, k, j);
    NobodyProposes(clean, a, depth, j);
  }

  lemma StandingCourse(clean: string -> string, a: Alloc, k: nat, j: Import, depth: nat, deepest: nat, taken: set<string>)
    requires Ready(a, k, j, taken) && depth <= deepest && Stands(clean, a, depth, j)
    ensures var c := Candidate(clean, j, depth); var b := Round(clean, a, depth);
      && Round(clean, With(a, k, j), depth) == Crowned(b, j, c)
      && (SameCourse(clean, b, Crowned(b, j, c), j, depth + 1, deepest) <==> c !in Done(clean, a, depth, deepest).Values)
      && (SameForOthers(Done(clean, a, depth, deepest), Done(clean, With(a, k, j), depth, deepest), j)
          <==> c !in Done(clean, a, depth, deepest).Values)
  {
    var c, b := Candidate(clean, j, depth), Round(clean, a, depth);
    RoundCrowns(clean, a, k, depth, j);
    RoundIsReady(clean, a, k, j, depth, taken);
    CrownIsFree(clean, a, k, j, depth, taken);
    CrownedTheft(clean, b, j, c, depth + 1, deepest, taken);
    DoneStep(clean, a, depth, deepest);
    DoneStep(clean, With(a, k, j), depth, deepest);
    CrownedCourseIff(clean, b, j, c, depth + 1, deepest, taken);
  }

  lemma CrownedCourseIff(clean: string -> string, b: Alloc, j: Import, c: string, depth: nat, deepest: nat, taken: set<string>)
    requires AllocOk(b, taken) && !Waits(b, j.path) && j.path !in b.aliases && c !in b.used && c !in taken
    ensures SameCourse(clean, b, Crowned(b, j, c), j, depth, deepest) <==> c !in Done(clean, b, depth, deepest).Values
  {
    CrownedTheft(clean, b, j, c, depth, deepest, taken);
    if c !in Done(clean, b, depth, deepest).Values {
      CrownedCourse(clean, b, j, c, depth, deepest, taken);
    } else if SameCourse(clean, b, Crowned(b, j, c), j, depth, deepest) {
      CourseEnds(clean, b, Crowned(b, j, c), j, depth, deepest);
    }
  }

  // ---- the exact law for the names in the end ------------------------------------------------------------

  /** The import proposes no name twice, and none that is its own name with a number. */
  ghost predicate Varied(clean: string -> string, i: Import) {
    && (forall d, e :: 1 <= d < e && Candidate(clean, i, d) != "" ==> Candidate(clean, i, e) != Candidate(clean, i, d))
    && (forall d: nat, n: nat :: Candidate(clean, i, d) != Suffixed(i.name, n))
  }

  /** The import proposes `x` in no round from `depth` on, and not by number either. */
  ghost predicate Shuns(clean: string -> string, i: Import, x: string, depth: nat) {
    && (forall e :: e >= depth ==> Candidate(clean, i, e) != x)
    && (forall n: nat :: Suffixed(i.name, n) != x)
  }

  lemma VariedShuns(clean: string -> string, i: Import, depth: nat)
    requires Varied(clean, i) && depth >= 1 && Candidate(clean, i, depth) != ""
    ensures Shuns(clean, i, Candidate(clean, i, depth), depth + 1)
  {
  }

  lemma ShunsOn(clean: string -> string, i: Import, x: string, depth: nat)
    requires Shuns(clean, i, x, depth)
    ensures Shuns(clean, i, x, depth + 1) && Candidate(clean, i, depth) != x
  {
  }

  lemma NumberIsNot(clean: string -> string, a: Alloc, i: Import, x: string, depth: nat)
    requires DistinctPaths(a.remaining) && i in a.remaining && Shuns(clean, i, x, depth)
    ensures var all := Numbered(a, |a.remaining|).aliases; i.path in all && all[i.path] != x
  {
    var k :| 0 <= k < |a.remaining| && a.remaining[k] == i;
    NumberedStep(a, k);
    NumberStays(a, k, |a.remaining|);
  }

  /** Who shuns `x` does not get it. */
  lemma {:induction false} NeverGets(clean: string -> string, a: Alloc, i: Import, x: string, depth: nat, deepest: nat)
    requires DistinctPaths(a.remaining) && i in a.remaining && Shuns(clean, i, x, depth)
    ensures i.path in Done(clean, a, depth, deepest) && Done(clean, a, depth, deepest)[i.path] != x
    decreases deepest + 1 - depth
  {
    if depth > deepest {
      NumberIsNot(clean, a, i, x, depth);
    } else {
      ShunsOn(clean, i, x, depth);
      if Wins(clean, a, depth, i) {
        WinnerIsFixed(clean, a, depth, i);
        FixedIsDone(clean, Round(clean, a, depth), depth + 1, deepest, i.path, Candidate(clean, i, depth));
      } else {
        KeptIff(a.remaining, Loser(clean, a, depth), i);
        RoundPaths(clean, a, depth);
        NeverGets(clean, Round(clean, a, depth), i, x, depth + 1, deepest);
      }
    }
  }

  lemma NameLost(was: map<string, string>, now: map<string, string>, j: Import, p: string, x: string)
    requires p != j.path && p in was && was[p] == x && p in now && now[p] != x
    ensures !SameForOthers(was, now, j)
  {
    assert (now - {j.path})[p] == now[p];
  }

  lemma DoneStep(clean: string -> string, a: Alloc, depth: nat, deepest: nat)
    requires depth <= deepest
    ensures Done(clean, a, depth, deepest) == Done(clean, Round(clean, a, depth), depth + 1, deepest)
  {
  }

  lemma DoneEnd(clean: string -> string, a: Alloc, depth: nat, deepest: nat)
    requires depth > deepest
    ensures Done(clean, a, depth, deepest) == Numbered(a, |a.remaining|).aliases
  {
  }

  /** With and without the newcomer, the others end alike. */
  predicate SameEnd(clean: string -> string, a: Alloc, k: nat, j: Import, depth: nat, deepest: nat)
    requires k <= |a.remaining|
  {
    SameForOthers(Done(clean, a, depth, deepest), Done(clean, With(a, k, j), depth, deepest), j)
  }

  lemma EndWhenWaiting(clean: string -> string, a: Alloc, k: nat, j: Import, depth: nat, deepest: nat, b: Alloc, n: nat)
    requires k <= |a.remaining| && depth <= deepest
    requires b == Round(clean, a, depth) && n <= |b.remaining| && Round(clean, With(a, k, j), depth) == With(b, n, j)
    ensures SameEnd(clean, a, k, j, depth, deepest) <==> SameEnd(clean, b, n, j, depth + 1, deepest)
  {
    DoneStep(clean, a, depth, deepest);
    DoneStep(clean, With(a, k, j), depth, deepest);
  }

  lemma EndAtEnd(clean: string -> string, a: Alloc, k: nat, j: Import, depth: nat, deepest: nat, taken: set<string>)
    requires Ready(a, k, j, taken) && depth > deepest
    ensures SameEnd(clean, a, k, j, depth, deepest) <==> Undisturbed(clean, a, k, j, depth, deepest)
  {
    ReadyWith(a, k, j, taken);
    NumberTheft(a, k, j, taken);
  }

  lemma EndWhenStanding(clean: string -> string, a: Alloc, k: nat, j: Import, depth: nat, deepest: nat, taken: set<string>)
    requires Ready(a, k, j, taken) && depth <= deepest && Stands(clean, a, depth, j)
    ensures SameEnd(clean, a, k, j, depth, deepest) <==> Undisturbed(clean, a, k, j, depth, deepest)
  {
    StandingCourse(clean, a, k, j, depth, deepest, taken);
  }

  /** A contest at depth `d`: without the newcomer `i` ends with the name it wins there; with
      it, `i` still waits after that round, in the state `b`. */
  ghost predicate Contested(
    clean: string -> string, a: Alloc, k: nat, j: Import, depth: nat, deepest: nat, i: Import, d: nat, b: Alloc)
    requires k <= |a.remaining|
  {
    && depth <= d <= deepest && i in a.remaining && i.path != j.path && Candidate(clean, i, d) != ""
    && i.path in Done(clean, a, depth, deepest) && Done(clean, a, depth, deepest)[i.path] == Candidate(clean, i, d)
    && DistinctPaths(b.remaining) && i in b.remaining
    && Done(clean, With(a, k, j), depth, deepest) == Done(clean, b, d + 1, deepest)
  }

  lemma ContestIsContested(clean: string -> string, a: Alloc, k: nat, j: Import, depth: nat, deepest: nat, taken: set<string>)
    returns (i: Import)
    requires Ready(a, k, j, taken) && depth <= deepest && Contests(clean, a, depth, j)
    ensures Contested(clean, a, k, j, depth, deepest, i, depth, Round(clean, With(a, k, j), depth))
  {
    i := ContestShows(clean, a, k, j, depth, taken);
    FixedIsDone(clean, Round(clean, a, depth), depth + 1, deepest, i.path, Candidate(clean, i, depth));
    RoundPaths(clean, With(a, k, j), depth);
    DoneStep(clean, a, depth, deepest);
    DoneStep(clean, With(a, k, j), depth, deepest);
  }

  lemma ContestedBefore(
    clean: string -> string, a: Alloc, k: nat, j: Import, depth: nat, deepest: nat, b: Alloc, n: nat, i: Import, d: nat, c: Alloc)
    requires k <= |a.remaining| && depth <= deepest && b == Round(clean, a, depth) && n <= |b.remaining|
    requires Round(clean, With(a, k, j), depth) == With(b, n, j)
    requires Contested(clean, b, n, j, depth + 1, deepest, i, d, c)
    ensures Contested(clean, a, k, j, depth, deepest, i, d, c)
  {
    KeptIff(a.remaining, Loser(clean, a, depth), i);
    DoneStep(clean, a, depth, deepest);
    DoneStep(clean, With(a, k, j), depth, deepest);
  }

  /** What else a disturbance can be: names in the end differ, or somebody was contested. */
  lemma {:induction false} DisturbedHow(
    clean: string -> string, a: Alloc, k: nat, j: Import, depth: nat, deepest: nat, taken: set<string>)
    returns (i: Import, d: nat, b: Alloc)
    requires Ready(a, k, j, taken) && !Undisturbed(clean, a, k, j, depth, deepest)
    ensures !SameEnd(clean, a, k, j, depth, deepest) || Contested(clean, a, k, j, depth, deepest, i, d, b)
    decreases deepest + 1 - depth
  {
    i, d, b := j, depth, a;
    if depth > deepest {
      EndAtEnd(clean, a, k, j, depth, deepest, taken);
    } else if Stands(clean, a, depth, j) {
      EndWhenStanding(clean, a, k, j, depth, deepest, taken);
    } else if Contests(clean, a, depth, j) {
      i := ContestIsContested(clean, a, k, j, depth, deepest, taken);
      b := Round(clean, With(a, k, j), depth);
    } else {
      var c, n := Round(clean, a, depth), Moved(clean, a, depth, k);
      StillReady(clean, a, k, j, depth, taken);
      CourseWhenWaiting(clean, a, k, j, depth, deepest, c, n);
      i, d, b := DisturbedHow(clean, c, n, j, depth + 1, deepest, taken);
      EndWhenWaiting(clean, a, k, j, depth, deepest, c, n);
      if SameEnd(clean, a, k, j, depth, deepest) {
        ContestedBefore(clean, a, k, j, depth, deepest, c, n, i, d, b);
      }
    }
  }

  /** For every import list: whom the newcomer does not disturb ends as without it. */
  lemma SameEndIf(clean: string -> string, a: Alloc, k: nat, j: Import, depth: nat, deepest: nat, taken: set<string>)
    requires Ready(a, k, j, taken) && Undisturbed(clean, a, k, j, depth, deepest)
    ensures SameEnd(clean, a, k, j, depth, deepest)
  {
    SameCourseIff(clean, a, k, j, depth, deepest, taken);
    CourseEnds(clean, a, With(a, k, j), j, depth, deepest);
  }

  /** And only then, unless somebody contested proposes the same name again. */
  lemma SameEndOnlyIf(clean: string -> string, a: Alloc, k: nat, j: Import, depth: nat, deepest: nat, taken: set<string>)
    requires Ready(a, k, j, taken) && depth >= 1 && (forall i :: i in a.remaining ==> Varied(clean, i))
    requires !Undisturbed(clean, a, k, j, depth, deepest)
    ensures !SameEnd(clean, a, k, j, depth, deepest)
  {
    var i, d, b := DisturbedHow(clean, a, k, j, depth, deepest, taken);
    if SameEnd(clean, a, k, j, depth, deepest) {
      VariedShuns(clean, i, d);
      ContestedLoses(clean, a, k, j, depth, deepest, i, d, b);
    }
  }

  lemma ContestedLoses(
    clean: string -> string, a: Alloc, k: nat, j: Import, depth: nat, deepest: nat, i: Import, d: nat, b: Alloc)
    requires k <= |a.remaining| && Contested(clean, a, k, j, depth, deepest, i, d, b)
    requires Shuns(clean, i, Candidate(clean, i, d), d + 1)
    ensures !SameEnd(clean, a, k, j, depth, deepest)
  {
    NeverGets(clean, b, i, Candidate(clean, i, d), d + 1, deepest);
    NameLost(Done(clean, a, depth, deepest), Done(clean, With(a, k, j), depth, deepest), j, i.path, Candidate(clean, i, d));
  }
}
