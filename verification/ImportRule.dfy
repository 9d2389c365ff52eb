/** The rule behind the aliases, without rounds and without order: everybody who needs an
    alias has a depth, and its alias is the candidate of that depth; the depth is the first at
    which nobody else is in the way. Who has none is numbered. */
module ImportRule {
  import opened Orders
  import opened DecimalStrings
  import opened ImportNames
  import opened ImportLaws
  import opened ImportChurn
  import opened ImportNewcomer

  // ---- candidates, told from the path ----------------------------------------------------------------

  function Slashes(s: string): nat {
    if s == [] then 0 else Slashes(s[1..]) + if s[0] == '/' then 1 else 0
  }

  function WithoutSlashes(s: string): string {
    if s == [] then [] else (if s[0] == '/' then [] else [s[0]]) + WithoutSlashes(s[1..])
  }

  lemma {:induction false} SegmentsAre(path: string)
    ensures |Segments(path)| == Slashes(path) + 1 && Join(Segments(path)) == WithoutSlashes(path)
  {
    if path != [] {
      SegmentsAre(path[1..]);
      var rest := Segments(path[1..]);
      assert rest == [rest[0]] + rest[1..];
      if path[0] == '/' {
        assert ([[]] + rest)[1..] == rest;
      } else {
        assert ([[path[0]] + rest[0]] + rest[1..])[1..] == rest[1..];
      }
    }
  }

  /** The last `d` of the segments. */
  function LastOnes(parts: seq<string>, d: nat): seq<string>
    requires d <= |parts|
  {
    parts[|parts| - d..]
  }

  lemma LastOfPrepended(part: string, rest: seq<string>, d: nat)
    requires d <= |rest|
    ensures LastOnes([part] + rest, d) == LastOnes(rest, d)
  {
  }

  lemma LastOfTail(rest: seq<string>, d: nat)
    requires d < |rest|
    ensures LastOnes(rest[1..], d) == LastOnes(rest, d)
  {
  }

  /** All but the first segment are those of the path without its first character. */
  lemma OneMoreSegment(path: string, d: nat)
    requires path != [] && d < |Segments(path)|
    ensures d <= |Segments(path[1..])| && LastOnes(Segments(path), d) == LastOnes(Segments(path[1..]), d)
  {
    var rest := Segments(path[1..]);
    if path[0] == '/' {
      LastOfPrepended([], rest, d);
    } else {
      LastOfPrepended([path[0]] + rest[0], rest[1..], d);
      LastOfTail(rest, d);
    }
  }

  lemma {:induction false} FewerSlashes(path: string, k: nat)
    requires 0 < k <= |path| && path[k - 1] == '/'
    ensures Slashes(path[k..]) < Slashes(path)
  {
    if k > 1 {
      FewerSlashes(path[1..], k - 1);
      assert path[1..][k - 1..] == path[k..];
    }
  }

  /** Cutting a path after a slash cuts its segments. */
  lemma {:induction false} SegmentsCut(path: string, k: nat, tail: string, d: nat)
    requires k <= |path| && (k == 0 || path[k - 1] == '/') && tail == path[k..] && d == Slashes(tail) + 1
    ensures d <= |Segments(path)| && Join(LastOnes(Segments(path), d)) == WithoutSlashes(tail)
  {
    SegmentsAre(path);
    if k == 0 {
      assert path == tail;
      assert LastOnes(Segments(path), d) == Segments(path);
    } else {
      FewerSlashes(path, k);
      assert tail == path[1..][k - 1..];
      SegmentsCut(path[1..], k - 1, tail, d);
      OneMoreSegment(path, d);
    }
  }

  /** The candidate of depth `d` is what stands after the `d`-th slash from the end, without
      slashes; it is empty when the path has not so many segments. */
  lemma CandidateIs(clean: string -> string, i: Import, d: nat, k: nat)
    requires k <= |i.path| && (k == 0 || i.path[k - 1] == '/') && Slashes(i.path[k..]) == d - 1
    ensures Candidate(clean, i, d) == clean(WithoutSlashes(i.path[k..]))
  {
    SegmentsCut(i.path, k, i.path[k..], d);
  }

  lemma CandidateIsEmpty(clean: string -> string, i: Import, d: nat)
    requires d > Slashes(i.path) + 1
    ensures Candidate(clean, i, d) == ""
  {
    SegmentsAre(i.path);
  }

  // ---- the rule --------------------------------------------------------------------------------------------

  /** At depth `e` nobody is in the way of `i`: its candidate is not in use, not the alias of
      one with a smaller depth, and not proposed by another whose depth is not smaller. */
  ghost predicate Unhindered(clean: string -> string, s: seq<Import>, used: set<string>, ds: map<string, nat>, i: Import, e: nat)
    requires forall j :: j in s ==> j.path in ds
  {
    var c := Candidate(clean, i, e);
    && c != "" && c !in used
    && (forall j :: j in s && 0 < ds[j.path] < e ==> Candidate(clean, j, ds[j.path]) != c)
    && (forall j :: j in s && j.path != i.path && !(0 < ds[j.path] < e) ==> Candidate(clean, j, e) != c)
  }

  /** `name` with a number from two on, the least that is neither in use, nor the alias of one
      that has a depth, nor that of a numbered one with a smaller path. */
  ghost predicate IsNumbered(
    s: seq<Import>, used: set<string>, ds: map<string, nat>, aliases: map<string, string>, i: Import, n: nat)
    requires forall j :: j in s ==> j.path in ds && j.path in aliases
    requires i in s
  {
    && n >= 2 && aliases[i.path] == i.name + Decimal(n)
    && forall m :: 2 <= m < n ==> Blocked(s, used, ds, aliases, i, i.name + Decimal(m))
  }

  ghost predicate Blocked(
    s: seq<Import>, used: set<string>, ds: map<string, nat>, aliases: map<string, string>, i: Import, x: string)
    requires forall j :: j in s ==> j.path in ds && j.path in aliases
  {
    x in used || exists j :: j in s && aliases[j.path] == x && (ds[j.path] > 0 || StringLess(j.path, i.path))
  }

  /** What the rule says of one of those who need an alias. */
  ghost predicate Ruled(
    clean: string -> string, s: seq<Import>, used: set<string>, ds: map<string, nat>, from: nat, to: nat,
    aliases: map<string, string>, i: Import)
    requires forall j :: j in s ==> j.path in ds && j.path in aliases
    requires i in s
  {
    var d := ds[i.path];
    if d > 0 then
      && from <= d <= to && Unhindered(clean, s, used, ds, i, d) && aliases[i.path] == Candidate(clean, i, d)
      && forall e :: from <= e < d ==> !Unhindered(clean, s, used, ds, i, e)
    else
      && (forall e :: from <= e <= to ==> !Unhindered(clean, s, used, ds, i, e))
      && exists n :: IsNumbered(s, used, ds, aliases, i, n)
  }

  ghost predicate Rule(
    clean: string -> string, s: seq<Import>, used: set<string>, ds: map<string, nat>, from: nat, to: nat,
    aliases: map<string, string>)
  {
    && (forall j :: j in s ==> j.path in ds && j.path in aliases)
    && forall i :: i in s ==> Ruled(clean, s, used, ds, from, to, aliases, i)
  }

  // ---- who is left at the end --------------------------------------------------------------------------------

  lemma {:induction false} NumberedUses(a: Alloc, k: nat, x: string)
    requires DistinctPaths(a.remaining) && k <= |a.remaining| && x in Numbered(a, k).used
    ensures x in a.used || exists l :: 0 <= l < k && NumberGiven(a, l, x)
  {
    if k > 0 && x !in a.used {
      NumberedStep(a, k - 1);
      if x in Numbered(a, k - 1).used {
        NumberedUses(a, k - 1, x);
        var l :| 0 <= l < k - 1 && NumberGiven(a, l, x);
        assert NumberGiven(a, l, x);
      } else {
        assert NumberGiven(a, k - 1, x);
      }
    }
  }

  /** The turn of place `l` gives the name `x`. */
  ghost predicate NumberGiven(a: Alloc, l: nat, x: string)
    requires l < |a.remaining|
  {
    x == Suffixed(a.remaining[l].name, FreeSuffix(Numbered(a, l).used, a.remaining[l].name, 2))
  }

  lemma GivenIsAlias(a: Alloc, l: nat, x: string)
    requires DistinctPaths(a.remaining) && l < |a.remaining| && NumberGiven(a, l, x)
    ensures var all := Numbered(a, |a.remaining|).aliases; var p := a.remaining[l].path; p in all && all[p] == x
  {
    NumberedStep(a, l);
    NumberStays(a, l, |a.remaining|);
  }

  function Zeros(s: seq<Import>): map<string, nat> {
    map p | p in PathsOf(s) :: 0
  }

  lemma InPathOrder(s: seq<Import>, l: nat, k: nat)
    requires Sorted(PathLess, s) && DistinctPaths(s) && l < k < |s|
    ensures StringLess(s[l].path, s[k].path)
  {
    assert !PathLess(s[k], s[l]);
    StringConnected(s[l].path, s[k].path);
  }

  lemma EverybodyHasOne(a: Alloc)
    ensures forall j :: j in a.remaining ==> j.path in Numbered(a, |a.remaining|).aliases && j.path in Zeros(a.remaining)
  {
    NumberedServes(a, |a.remaining|);
    assert a.remaining[..|a.remaining|] == a.remaining;
  }

  lemma EverybodyIsNumbered(a: Alloc, i: Import)
    requires DistinctPaths(a.remaining) && Sorted(PathLess, a.remaining) && i in a.remaining
    ensures var all := Numbered(a, |a.remaining|).aliases;
      && (forall j :: j in a.remaining ==> j.path in all)
      && exists n :: IsNumbered(a.remaining, a.used, Zeros(a.remaining), all, i, n)
  {
    var all, ds := Numbered(a, |a.remaining|).aliases, Zeros(a.remaining);
    EverybodyHasOne(a);
    var k :| 0 <= k < |a.remaining| && a.remaining[k] == i;
    var n := FreeSuffix(Numbered(a, k).used, i.name, 2);
    GivenIsAlias(a, k, Suffixed(i.name, n));
    forall m | 2 <= m < n ensures Blocked(a.remaining, a.used, ds, all, i, i.name + Decimal(m)) {
      assert Suffixed(i.name, m) in Numbered(a, k).used;
      UsedBlocks(a, k, all, Suffixed(i.name, m));
    }
    assert IsNumbered(a.remaining, a.used, ds, all, i, n);
  }

  /** What is in use when place `k` has its turn is in its way. */
  lemma UsedBlocks(a: Alloc, k: nat, all: map<string, string>, x: string)
    requires DistinctPaths(a.remaining) && Sorted(PathLess, a.remaining) && k < |a.remaining|
    requires all == Numbered(a, |a.remaining|).aliases && x in Numbered(a, k).used
    requires forall j :: j in a.remaining ==> j.path in all
    ensures Blocked(a.remaining, a.used, Zeros(a.remaining), all, a.remaining[k], x)
  {
    NumberedUses(a, k, x);
    if x !in a.used {
      var l :| 0 <= l < k && NumberGiven(a, l, x);
      GivenIsAlias(a, l, x);
      InPathOrder(a.remaining, l, k);
      assert a.remaining[l] in a.remaining;
    }
  }

  lemma RuleAtEnd(clean: string -> string, a: Alloc, depth: nat, deepest: nat)
    requires DistinctPaths(a.remaining) && Sorted(PathLess, a.remaining) && depth > deepest
    ensures Rule(clean, a.remaining, a.used, Zeros(a.remaining), depth, deepest, Done(clean, a, depth, deepest))
  {
    var all, ds := Numbered(a, |a.remaining|).aliases, Zeros(a.remaining);
    DoneEnd(clean, a, depth, deepest);
    NumberedServes(a, |a.remaining|);
    assert a.remaining[..|a.remaining|] == a.remaining;
    assert forall j :: j in a.remaining ==> j.path in ds && j.path in all;
    forall i | i in a.remaining ensures Ruled(clean, a.remaining, a.used, ds, depth, deepest, all, i) {
      EverybodyIsNumbered(a, i);
    }
  }

  // ---- one round -----------------------------------------------------------------------------------------------

  /** The depths of those who wait before a round, from the depths of those who wait after it. */
  function Deeper(clean: string -> string, a: Alloc, depth: nat, ds: map<string, nat>): map<string, nat> {
    map p | p in PathsOf(a.remaining) :: if p in WonIn(clean, a, depth) then depth else if p in ds then ds[p] else 0
  }

  lemma WonIff(clean: string -> string, a: Alloc, depth: nat, i: Import)
    requires DistinctPaths(a.remaining) && i in a.remaining
    ensures i.path in WonIn(clean, a, depth) <==> Wins(clean, a, depth, i)
    ensures Wins(clean, a, depth, i) ==> WonIn(clean, a, depth)[i.path] == Candidate(clean, i, depth)
    ensures i in Round(clean, a, depth).remaining <==> !Wins(clean, a, depth, i)
  {
    KeptIff(a.remaining, Loser(clean, a, depth), i);
    if Wins(clean, a, depth, i) {
      GainedValue(a.remaining, Winner(clean, a, depth), Namer(clean, depth), i);
    }
    if i.path in WonIn(clean, a, depth) {
      var j := WonBy(clean, a, depth, i.path);
      SamePath(a.remaining, i, j);
    }
  }

  /** What a round leaves behind, told of everybody who waited. */
  ghost predicate Passed(clean: string -> string, a: Alloc, b: Alloc, depth: nat) {
    && DistinctPaths(a.remaining) && DistinctPaths(b.remaining)
    && (forall i :: i in b.remaining <==> i in a.remaining && !Wins(clean, a, depth, i))
    && (forall x :: x in b.used <==>
          x in a.used || exists j :: j in a.remaining && Wins(clean, a, depth, j) && Candidate(clean, j, depth) == x)
  }

  lemma RoundPasses(clean: string -> string, a: Alloc, depth: nat)
    requires DistinctPaths(a.remaining)
    ensures Passed(clean, a, Round(clean, a, depth), depth)
  {
    var b, won := Round(clean, a, depth), WonIn(clean, a, depth);
    RoundPaths(clean, a, depth);
    forall i ensures i in b.remaining <==> i in a.remaining && !Wins(clean, a, depth, i) {
      KeptIff(a.remaining, Loser(clean, a, depth), i);
    }
    forall x ensures x in won.Values <==> exists j :: j in a.remaining && Wins(clean, a, depth, j) && Candidate(clean, j, depth) == x {
      if x in won.Values {
        var p :| p in won && won[p] == x;
        var j := WonBy(clean, a, depth, p);
      }
      if j :| j in a.remaining && Wins(clean, a, depth, j) && Candidate(clean, j, depth) == x {
        WonIff(clean, a, depth, j);
      }
    }
  }

  /** The depths before and after a round. */
  ghost predicate Deepens(
    clean: string -> string, a: Alloc, b: Alloc, depth: nat, ds: map<string, nat>, ds1: map<string, nat>)
  {
    && (forall j :: j in a.remaining ==> j.path in ds)
    && (forall j :: j in b.remaining ==> j.path in ds1)
    && (forall j :: j in a.remaining && Wins(clean, a, depth, j) ==> ds[j.path] == depth)
    && (forall j :: j in b.remaining ==> j.path in ds && ds[j.path] == ds1[j.path] && (ds1[j.path] == 0 || ds1[j.path] > depth))
  }

  lemma UnhinderedNow(clean: string -> string, a: Alloc, b: Alloc, depth: nat, ds: map<string, nat>, ds1: map<string, nat>, i: Import)
    requires Passed(clean, a, b, depth) && depth > 0 && i in a.remaining
    requires forall j :: j in b.remaining ==> j in a.remaining
    requires Deepens(clean, a, b, depth, ds, ds1)
    ensures Unhindered(clean, a.remaining, a.used, ds, i, depth) <==> Wins(clean, a, depth, i)
  {
    var k :| 0 <= k < |a.remaining| && a.remaining[k] == i;
    WinsIffAlone(clean, a, depth, k);
    forall j | j in a.remaining ensures !(0 < ds[j.path] < depth) {
      assert Wins(clean, a, depth, j) || j in b.remaining;
    }
  }

  lemma UnhinderedLater(
    clean: string -> string, a: Alloc, b: Alloc, depth: nat, ds: map<string, nat>, ds1: map<string, nat>, i: Import, e: nat)
    requires Passed(clean, a, b, depth) && depth > 0 && i in b.remaining && e > depth
    requires Deepens(clean, a, b, depth, ds, ds1)
    ensures Unhindered(clean, a.remaining, a.used, ds, i, e) <==> Unhindered(clean, b.remaining, b.used, ds1, i, e)
  {
    var c := Candidate(clean, i, e);
    if Unhindered(clean, a.remaining, a.used, ds, i, e) {
      forall j | j in a.remaining && Wins(clean, a, depth, j) ensures Candidate(clean, j, depth) != c {
        assert ds[j.path] == depth;
      }
    }
    if Unhindered(clean, b.remaining, b.used, ds1, i, e) {
      forall j | j in a.remaining && 0 < ds[j.path] < e ensures Candidate(clean, j, ds[j.path]) != c {
        assert Wins(clean, a, depth, j) || j in b.remaining;
      }
      forall j | j in a.remaining && j.path != i.path && !(0 < ds[j.path] < e) ensures Candidate(clean, j, e) != c {
        assert Wins(clean, a, depth, j) || j in b.remaining;
      }
    }
  }

  lemma StillNumbered(
    clean: string -> string, a: Alloc, b: Alloc, depth: nat, ds: map<string, nat>, ds1: map<string, nat>,
    aliases: map<string, string>, i: Import, n: nat)
    requires Passed(clean, a, b, depth) && depth > 0 && Deepens(clean, a, b, depth, ds, ds1) && i in b.remaining
    requires forall j :: j in a.remaining ==> j.path in aliases
    requires forall j :: j in a.remaining && Wins(clean, a, depth, j) ==> aliases[j.path] == Candidate(clean, j, depth)
    requires IsNumbered(b.remaining, b.used, ds1, aliases, i, n)
    ensures IsNumbered(a.remaining, a.used, ds, aliases, i, n)
  {
    forall m | 2 <= m < n ensures Blocked(a.remaining, a.used, ds, aliases, i, i.name + Decimal(m)) {
      var x := i.name + Decimal(m);
      assert Blocked(b.remaining, b.used, ds1, aliases, i, x);
      if x in b.used && x !in a.used {
        var j :| j in a.remaining && Wins(clean, a, depth, j) && Candidate(clean, j, depth) == x;
        assert ds[j.path] > 0 && aliases[j.path] == x;
      }
    }
  }

  lemma RuledBefore(
    clean: string -> string, a: Alloc, b: Alloc, depth: nat, deepest: nat, ds: map<string, nat>, ds1: map<string, nat>,
    aliases: map<string, string>, i: Import)
    requires Passed(clean, a, b, depth) && 0 < depth <= deepest && Deepens(clean, a, b, depth, ds, ds1) && i in a.remaining
    requires forall j :: j in a.remaining ==> j.path in aliases
    requires forall j :: j in a.remaining && Wins(clean, a, depth, j) ==> aliases[j.path] == Candidate(clean, j, depth)
    requires Rule(clean, b.remaining, b.used, ds1, depth + 1, deepest, aliases)
    ensures Ruled(clean, a.remaining, a.used, ds, depth, deepest, aliases, i)
  {
    UnhinderedNow(clean, a, b, depth, ds, ds1, i);
    if !Wins(clean, a, depth, i) {
      assert i in b.remaining && Ruled(clean, b.remaining, b.used, ds1, depth + 1, deepest, aliases, i);
      forall e | depth < e ensures
        Unhindered(clean, a.remaining, a.used, ds, i, e) <==> Unhindered(clean, b.remaining, b.used, ds1, i, e)
      {
        UnhinderedLater(clean, a, b, depth, ds, ds1, i, e);
      }
      if ds[i.path] == 0 {
        var n :| IsNumbered(b.remaining, b.used, ds1, aliases, i, n);
        StillNumbered(clean, a, b, depth, ds, ds1, aliases, i, n);
      }
      RuledLater(clean, a, b, depth, deepest, ds, ds1, aliases, i);
    }
  }

  lemma RuledLater(
    clean: string -> string, a: Alloc, b: Alloc, depth: nat, deepest: nat, ds: map<string, nat>, ds1: map<string, nat>,
    aliases: map<string, string>, i: Import)
    requires forall j :: j in a.remaining ==> j.path in ds && j.path in aliases
    requires forall j :: j in b.remaining ==> j.path in ds1 && j.path in aliases
    requires i in a.remaining && i in b.remaining && ds[i.path] == ds1[i.path] && 0 < depth <= deepest
    requires Ruled(clean, b.remaining, b.used, ds1, depth + 1, deepest, aliases, i)
    requires !Unhindered(clean, a.remaining, a.used, ds, i, depth)
    requires forall e :: e > depth ==>
      (Unhindered(clean, a.remaining, a.used, ds, i, e) <==> Unhindered(clean, b.remaining, b.used, ds1, i, e))
    requires ds[i.path] == 0 ==> exists n :: IsNumbered(a.remaining, a.used, ds, aliases, i, n)
    ensures Ruled(clean, a.remaining, a.used, ds, depth, deepest, aliases, i)
  {
  }

  lemma {:induction false} KeptSorted(s: seq<Import>, p: Import -> bool)
    requires Sorted(PathLess, s)
    ensures Sorted(PathLess, Kept(s, p))
  {
    if s != [] {
      var init, last := s[..|s| - 1], s[|s| - 1];
      KeptSorted(init, p);
      forall x | x in Kept(init, p) ensures !PathLess(last, x) {
        KeptIff(init, p, x);
        var k :| 0 <= k < |init| && init[k] == x;
        assert s[k] == x;
      }
    }
  }

  lemma DeeperDeepens(clean: string -> string, a: Alloc, depth: nat, ds1: map<string, nat>)
    requires DistinctPaths(a.remaining) && depth > 0
    requires forall j :: j in Round(clean, a, depth).remaining ==>
      j.path in ds1 && (ds1[j.path] == 0 || ds1[j.path] > depth)
    ensures Deepens(clean, a, Round(clean, a, depth), depth, Deeper(clean, a, depth, ds1), ds1)
  {
    var b, ds := Round(clean, a, depth), Deeper(clean, a, depth, ds1);
    RoundPasses(clean, a, depth);
    forall j | j in a.remaining ensures j.path in ds && (Wins(clean, a, depth, j) ==> ds[j.path] == depth)
      && (!Wins(clean, a, depth, j) && j.path in ds1 ==> ds[j.path] == ds1[j.path])
    {
      WonIff(clean, a, depth, j);
    }
  }

  lemma WinnersKeepTheirs(clean: string -> string, a: Alloc, depth: nat, deepest: nat, j: Import)
    requires DistinctPaths(a.remaining) && depth <= deepest && j in a.remaining && Wins(clean, a, depth, j)
    ensures j.path in Done(clean, a, depth, deepest) && Done(clean, a, depth, deepest)[j.path] == Candidate(clean, j, depth)
  {
    WinnerIsFixed(clean, a, depth, j);
    FixedIsDone(clean, Round(clean, a, depth), depth + 1, deepest, j.path, Candidate(clean, j, depth));
    DoneStep(clean, a, depth, deepest);
  }

  /** Every allocation follows the rule. */
  lemma {:induction false} AllocationFollowsRule(clean: string -> string, a: Alloc, depth: nat, deepest: nat)
    returns (ds: map<string, nat>)
    requires DistinctPaths(a.remaining) && Sorted(PathLess, a.remaining) && depth > 0
    ensures Rule(clean, a.remaining, a.used, ds, depth, deepest, Done(clean, a, depth, deepest))
    decreases deepest + 1 - depth
  {
    if depth > deepest {
      ds := Zeros(a.remaining);
      RuleAtEnd(clean, a, depth, deepest);
    } else {
      var b, aliases := Round(clean, a, depth), Done(clean, a, depth, deepest);
      RoundPasses(clean, a, depth);
      KeptSorted(a.remaining, Loser(clean, a, depth));
      var ds1 := AllocationFollowsRule(clean, b, depth + 1, deepest);
      DoneStep(clean, a, depth, deepest);
      forall j | j in b.remaining ensures j.path in ds1 && (ds1[j.path] == 0 || ds1[j.path] > depth) {
        assert Ruled(clean, b.remaining, b.used, ds1, depth + 1, deepest, aliases, j);
      }
      ds := Deeper(clean, a, depth, ds1);
      DeeperDeepens(clean, a, depth, ds1);
      forall j | j in a.remaining
        ensures j.path in aliases && (Wins(clean, a, depth, j) ==> aliases[j.path] == Candidate(clean, j, depth))
      {
        if Wins(clean, a, depth, j) {
          WinnersKeepTheirs(clean, a, depth, deepest, j);
        } else {
          assert j in b.remaining;
        }
      }
      forall i | i in a.remaining ensures Ruled(clean, a.remaining, a.used, ds, depth, deepest, aliases, i) {
        RuledBefore(clean, a, b, depth, deepest, ds, ds1, aliases, i);
      }
    }
  }

  /** For every import list: each import that needs an alias has a depth or is numbered. One with
      a depth is named by the candidate of that depth, the first at which it is not in use,
      not the alias of one with a smaller depth and not proposed by another that has no smaller
      depth; a numbered one finds no such depth. No round and no order is part of the rule. */
  lemma AliasesFollowRule(clean: string -> string, entries: seq<Import>, source: Import) returns (ds: map<string, nat>)
    requires DistinctPaths(entries)
    ensures var s := Start(entries, source).remaining;
      && (forall i :: i in s <==> i in Conflicts(entries, source))
      && Rule(clean, s, Taken(entries, source), ds, 1, Deepest(s), Aliases(clean, entries, source))
  {
    var a := Start(entries, source);
    StartIsOk(entries, source);
    ConflictsIff(entries, source);
    PathOrder();
    SortSorts(PathLess, Conflicts(entries, source));
    PermutedPaths(Conflicts(entries, source), a.remaining);
    ds := AllocationFollowsRule(clean, a, 1, Deepest(a.remaining));
  }
}
