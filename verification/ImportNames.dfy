/** The names under which a generated file imports packages: a package keeps its own
    name unless it collides, and colliding ones get aliases, in rounds that look one
    path segment deeper each time, and at last by a numeric suffix.

    `clean` stands for the rewriting of a string into an identifier. */
module ImportNames {
  import opened Orders
  import opened DecimalStrings

  datatype Import = Import(name: string, path: string)

  /** The imports every generated file has; their names are fixed. */
  const Templates: seq<Import> :=
    [Import("context", "context"), Import("fmt", "fmt"), Import("gor", "github.com/suraciii/gor")]

  function Reserved(): set<string> { {"context", "fmt", "gor"} }

  function TemplatePaths(): set<string> { {"context", "fmt", "github.com/suraciii/gor"} }

  // ---- candidates ----------------------------------------------------------------------------------

  /** `strings.Split(path, "/")`. */
  function Segments(path: string): (parts: seq<string>)
    ensures |parts| > 0
  {
    if path == [] then [[]]
    else
      var rest := Segments(path[1..]);
      if path[0] == '/' then [[]] + rest else [[path[0]] + rest[0]] + rest[1..]
  }

  function Join(parts: seq<string>): string {
    if parts == [] then [] else parts[0] + Join(parts[1..])
  }

  /** `aliasCandidate`: the last `depth` segments, or nothing when there are fewer. */
  function Candidate(clean: string -> string, i: Import, depth: nat): string {
    var parts := Segments(i.path);
    if depth > |parts| then "" else clean(Join(parts[|parts| - depth..]))
  }

  // ---- collisions -----------------------------------------------------------------------------------

  function ByName(name: string): Import -> bool {
    (i: Import) => i.name == name
  }

  function CountNamed(entries: seq<Import>, name: string): nat {
    Count(entries, ByName(name))
  }

  function NamesOf(entries: seq<Import>): set<string> {
    set i | i in entries :: i.name
  }

  function PathsOf(entries: seq<Import>): set<string> {
    set i | i in entries :: i.path
  }

  predicate Conflicting(entries: seq<Import>, source: Import, i: Import) {
    && i.path !in TemplatePaths() && i.path != source.path
    && (i.name in Reserved() || i.name == source.name || CountNamed(entries, i.name) > 1)
  }

  function Conflicted(entries: seq<Import>, source: Import): Import -> bool {
    (i: Import) => Conflicting(entries, source, i)
  }

  /** The imports that satisfy `p`, in order. */
  function Kept(imports: seq<Import>, p: Import -> bool): seq<Import> {
    if imports == [] then []
    else
      var last := imports[|imports| - 1];
      Kept(imports[..|imports| - 1], p) + if p(last) then [last] else []
  }

  /** Everything that needs an alias; the source package only when its name is reserved. */
  function Conflicts(entries: seq<Import>, source: Import): seq<Import> {
    Kept(entries, Conflicted(entries, source)) + if source.name in Reserved() then [source] else []
  }

  predicate PathLess(a: Import, b: Import) {
    StringLess(a.path, b.path)
  }

  // ---- allocation ------------------------------------------------------------------------------------

  datatype Alloc = Alloc(aliases: map<string, string>, used: set<string>, remaining: seq<Import>)

  function ByCandidate(clean: string -> string, depth: nat, candidate: string): Import -> bool {
    (i: Import) => Candidate(clean, i, depth) == candidate
  }

  /** How many of the imports propose the candidate. */
  function Proposals(clean: string -> string, imports: seq<Import>, depth: nat, candidate: string): nat {
    Count(imports, ByCandidate(clean, depth, candidate))
  }

  /** In a round an import gets its candidate when it has one, it is proposed once, and
      it was not in use when the round began. */
  predicate Wins(clean: string -> string, a: Alloc, depth: nat, i: Import) {
    var candidate := Candidate(clean, i, depth);
    candidate != "" && candidate !in a.used && Proposals(clean, a.remaining, depth, candidate) <= 1
  }

  function Winner(clean: string -> string, a: Alloc, depth: nat): Import -> bool {
    (i: Import) => Wins(clean, a, depth, i)
  }

  function Loser(clean: string -> string, a: Alloc, depth: nat): Import -> bool {
    (i: Import) => !Wins(clean, a, depth, i)
  }

  function Namer(clean: string -> string, depth: nat): Import -> string {
    (i: Import) => Candidate(clean, i, depth)
  }

  /** The names that the winners among the imports get, by path. */
  function Gained(imports: seq<Import>, wins: Import -> bool, name: Import -> string): map<string, string> {
    if imports == [] then map[]
    else
      var last := imports[|imports| - 1];
      var before := Gained(imports[..|imports| - 1], wins, name);
      if wins(last) then before[last.path := name(last)] else before
  }

  function Round(clean: string -> string, a: Alloc, depth: nat): Alloc {
    var won := Gained(a.remaining, Winner(clean, a, depth), Namer(clean, depth));
    Alloc(a.aliases + won, a.used + won.Values, Kept(a.remaining, Loser(clean, a, depth)))
  }

  function Rounder(clean: string -> string): (Alloc, nat) -> Alloc {
    (a: Alloc, depth: nat) => Round(clean, a, depth)
  }

  /** The rounds from `depth` to `deepest`. */
  function Rounds(round: (Alloc, nat) -> Alloc, a: Alloc, depth: nat, deepest: nat): Alloc
    decreases deepest + 1 - depth
  {
    if depth > deepest then a else Rounds(round, round(a, depth), depth + 1, deepest)
  }

  function Deepest(imports: seq<Import>): nat {
    if imports == [] then 0
    else
      var d := |Segments(imports[|imports| - 1].path)|;
      var before := Deepest(imports[..|imports| - 1]);
      if d > before then d else before
  }

  // ---- numeric suffixes --------------------------------------------------------------------------------

  function Suffixed(name: string, k: nat): string {
    name + Decimal(k)
  }

  /** The names in use that the search from `k` on can still run into. */
  ghost function Ahead(used: set<string>, name: string, k: nat): set<string> {
    set u | u in used && exists n: nat :: n >= k && u == Suffixed(name, n)
  }

  /** A name that is taken is left behind for good, so the search ends. */
  lemma AheadShrinks(used: set<string>, name: string, k: nat)
    requires Suffixed(name, k) in used
    ensures Ahead(used, name, k + 1) < Ahead(used, name, k)
  {
    var taken := Suffixed(name, k);
    assert taken in Ahead(used, name, k);
    assert taken !in Ahead(used, name, k + 1) by {
      forall n: nat | n >= k + 1 ensures Suffixed(name, n) != taken {
        assert Suffixed(name, n)[|name|..] == Decimal(n) && taken[|name|..] == Decimal(k);
        if Decimal(n) == Decimal(k) {
          DecimalIsInjective(n, k);
        }
      }
    }
  }

  lemma SmallerSet(a: set<string>, b: set<string>)
    requires a < b
    ensures |a| < |b|
  {
    assert |b| == |a| + |b - a| && b - a != {} by { assert b == a + (b - a); }
  }

  function FreeSuffix(used: set<string>, name: string, k: nat): (n: nat)
    ensures n >= k && Suffixed(name, n) !in used
    ensures forall m :: k <= m < n ==> Suffixed(name, m) in used
    decreases |Ahead(used, name, k)|
  {
    if Suffixed(name, k) !in used then k
    else
      AheadShrinks(used, name, k);
      SmallerSet(Ahead(used, name, k + 1), Ahead(used, name, k));
      FreeSuffix(used, name, k + 1)
  }

  /** The first `n` of the imports that no round could serve. */
  function Numbered(a: Alloc, n: nat): Alloc
    requires n <= |a.remaining|
  {
    if n == 0 then a
    else
      var before := Numbered(a, n - 1);
      var i := a.remaining[n - 1];
      var alias := Suffixed(i.name, FreeSuffix(before.used, i.name, 2));
      before.(aliases := before.aliases[i.path := alias], used := before.used + {alias})
  }

  // ---- the whole ----------------------------------------------------------------------------------------

  function Taken(entries: seq<Import>, source: Import): set<string> {
    Reserved() + {source.name} + NamesOf(entries)
  }

  function Start(entries: seq<Import>, source: Import): Alloc {
    Alloc(map[], Taken(entries, source), Sort(PathLess, Conflicts(entries, source)))
  }

  function Settled(clean: string -> string, entries: seq<Import>, source: Import): Alloc {
    var start := Start(entries, source);
    Rounds(Rounder(clean), start, 1, Deepest(start.remaining))
  }

  /** `effectiveImportNames`, for one order in which the import map is enumerated. */
  function Aliases(clean: string -> string, entries: seq<Import>, source: Import): map<string, string> {
    var a := Settled(clean, entries, source);
    Numbered(a, |a.remaining|).aliases
  }

  function Effective(aliases: map<string, string>, i: Import): string {
    if i.path in aliases then aliases[i.path] else i.name
  }
}
