/** Concurrent activations of one Grain, on any nodes, writing one record.

    An update reads the activation's own cells, computes a value from them and
    rewrites the record under the ETag it last saw. Writes may succeed, conflict,
    fail unapplied, fail although applied, or stay in flight and land later. */
module UpdateChain {
  import opened Basics
  import opened Persistence

  /** A value computed from the cells an activation holds; `None` clears the state. */
  type Change<!V> = Document<V> -> Option<V>

  /** A committed version; `ticket` numbers the update that produced it. */
  datatype Version<!V> = Version(doc: Document<V>, names: set<string>, name: string, change: Change<V>, ticket: nat)

  /** What an activation holds: the states it registered, their values, the ETag. */
  datatype Held<V> = Held(names: set<string>, cells: Document<V>, etag: nat)

  datatype Late<!V> = Late(version: Version<V>, expected: nat, settled: bool)

  /** A confirmed update: the ETag it produced and the value it stored. */
  datatype Ack<V> = Ack(ticket: nat, etag: nat, value: Option<V>)

  datatype World<!V> = World(
    record: Record<V>,
    history: seq<Version<V>>,
    activations: map<nat, Held<V>>,
    late: seq<Late<V>>,
    acks: seq<Ack<V>>,
    clock: nat)

  datatype Step<!V> =
    | Activate(a: nat, names: set<string>)
    | Update(a: nat, name: string, change: Change<V>, fault: Fault)
    | Lose(a: nat, name: string, change: Change<V>)
    | Land(i: nat)

  ghost function Start<V>(): World<V> {
    World(Record(map[], 0), [], map[], [], [], 0)
  }

  ghost function Proposed<V>(h: Held<V>, name: string, change: Change<V>, ticket: nat): Version<V> {
    Version(Changed(h.cells, name, change(h.cells)), h.names, name, change, ticket)
  }

  ghost function Committed<V>(w: World<V>, v: Version<V>): World<V> {
    w.(record := Record(v.doc, w.record.etag + 1), history := w.history + [v])
  }

  ghost function Updated<V>(w: World<V>, a: nat, name: string, change: Change<V>, fault: Fault): World<V>
    requires a in w.activations
  {
    var h := w.activations[a];
    var v := Proposed(h, name, change, w.clock);
    var r := if Applies(w.record.etag, h.etag, fault) then Committed(w, v) else w;
    if !Outcome(w.record.etag, h.etag, fault).Written? then r
    else r.(activations := w.activations[a := Held(h.names, v.doc, h.etag + 1)],
            acks := w.acks + [Ack(w.clock, h.etag + 1, change(h.cells))])
  }

  ghost function Landed<V>(w: World<V>, i: nat): World<V>
    requires i < |w.late|
  {
    var write := w.late[i];
    var r := if write.expected == w.record.etag then Committed(w, write.version) else w;
    r.(late := w.late[i := write.(settled := true)])
  }

  ghost function Effect<V>(w: World<V>, step: Step<V>): World<V> {
    match step
    case Activate(a, names) =>
      w.(activations := w.activations[a := Held(names, Restrict(w.record.doc, names), w.record.etag)])
    case Update(a, name, change, fault) =>
      if a in w.activations && name in w.activations[a].names then Updated(w, a, name, change, fault) else w
    case Lose(a, name, change) =>
      if a in w.activations && name in w.activations[a].names
      then w.(late := w.late + [Late(Proposed(w.activations[a], name, change, w.clock), w.activations[a].etag, false)])
      else w
    case Land(i) => if i < |w.late| && !w.late[i].settled then Landed(w, i) else w
  }

  ghost function Next<V>(w: World<V>, step: Step<V>): World<V> {
    Effect(w, step).(clock := w.clock + 1)
  }

  ghost function Run<V>(steps: seq<Step<V>>): World<V> {
    if steps == [] then Start() else Next(Run(steps[..|steps| - 1]), steps[|steps| - 1])
  }

  // ---- invariant --------------------------------------------------------------------------------

  /** The document with ETag `k`. */
  ghost function DocAt<V>(history: seq<Version<V>>, k: nat): Document<V>
    requires k <= |history|
  {
    if k == 0 then map[] else history[k - 1].doc
  }

  /** `v` was computed from the document with ETag `k`, as its activation sees it. */
  ghost predicate ComputedFrom<V>(history: seq<Version<V>>, k: nat, v: Version<V>) {
    && k <= |history| && v.name in v.names
    && var seen := Restrict(DocAt(history, k), v.names); v.doc == Changed(seen, v.name, v.change(seen))
  }

  /** Version `k` was computed from the version just before it. */
  ghost predicate Linked<V>(history: seq<Version<V>>, k: nat)
    requires k < |history|
  {
    ComputedFrom(history, k, history[k])
  }

  /** An activation's cells are the document of the ETag it holds. */
  ghost predicate Mirrors<V>(history: seq<Version<V>>, h: Held<V>) {
    h.etag <= |history| && h.cells == Restrict(DocAt(history, h.etag), h.names)
  }

  ghost predicate AckOk<V>(w: World<V>, ack: Ack<V>) {
    && 0 < ack.etag <= |w.history|
    && var v := w.history[ack.etag - 1];
       v.ticket == ack.ticket && ack.value == v.change(Restrict(DocAt(w.history, ack.etag - 1), v.names))
  }

  ghost predicate Inv<V>(w: World<V>) {
    && w.record == Record(DocAt(w.history, |w.history|), |w.history|)
    && (forall k :: 0 <= k < |w.history| ==> Linked(w.history, k))
    && (forall a :: a in w.activations ==> Mirrors(w.history, w.activations[a]))
    && (forall i :: 0 <= i < |w.late| ==> ComputedFrom(w.history, w.late[i].expected, w.late[i].version))
    && (forall i :: 0 <= i < |w.acks| ==> AckOk(w, w.acks[i]))
  }

  lemma ComputedGrows<V>(history: seq<Version<V>>, v: Version<V>, k: nat, u: Version<V>)
    requires ComputedFrom(history, k, u)
    ensures ComputedFrom(history + [v], k, u)
  {
    assert DocAt(history + [v], k) == DocAt(history, k);
  }

  lemma CommitKeepsInv<V>(w: World<V>, v: Version<V>)
    requires Inv(w) && ComputedFrom(w.history, |w.history|, v)
    ensures Inv(Committed(w, v))
  {
    var w' := Committed(w, v);
    forall k | 0 <= k < |w'.history| ensures Linked(w'.history, k) {
      if k < |w.history| {
        assert Linked(w.history, k);
        ComputedGrows(w.history, v, k, w.history[k]);
      } else {
        ComputedGrows(w.history, v, k, v);
      }
    }
    forall i | 0 <= i < |w.late| ensures ComputedFrom(w'.history, w.late[i].expected, w.late[i].version) {
      ComputedGrows(w.history, v, w.late[i].expected, w.late[i].version);
    }
    forall a | a in w.activations ensures Mirrors(w'.history, w.activations[a]) {
      MirrorsGrows(w.history, v, w.activations[a]);
    }
    forall i | 0 <= i < |w.acks| ensures AckOk(w', w.acks[i]) {
      AckGrows(w, v, w.acks[i]);
    }
  }

  lemma MirrorsGrows<V>(history: seq<Version<V>>, v: Version<V>, h: Held<V>)
    requires Mirrors(history, h)
    ensures Mirrors(history + [v], h)
  {
    assert DocAt(history + [v], h.etag) == DocAt(history, h.etag);
  }

  lemma AckGrows<V>(w: World<V>, v: Version<V>, ack: Ack<V>)
    requires AckOk(w, ack)
    ensures AckOk(Committed(w, v), ack)
  {
    assert DocAt(w.history + [v], ack.etag - 1) == DocAt(w.history, ack.etag - 1);
  }

  /** Restricting again what was computed from a restriction changes nothing. */
  lemma ChangedStaysRestricted<V>(doc: Document<V>, names: set<string>, name: string, value: Option<V>)
    requires name in names
    ensures var d := Changed(Restrict(doc, names), name, value); Restrict(d, names) == d
  {
  }

  /** A confirmed update leaves its activation mirroring the version it wrote. */
  lemma AckedOk<V>(w: World<V>, h: Held<V>, name: string, change: Change<V>)
    requires Inv(w) && Mirrors(w.history, h) && h.etag == |w.history| && name in h.names
    ensures var v := Proposed(h, name, change, w.clock);
      && ComputedFrom(w.history, h.etag, v)
      && Mirrors(w.history + [v], Held(h.names, v.doc, h.etag + 1))
      && AckOk(Committed(w, v), Ack(w.clock, h.etag + 1, change(h.cells)))
  {
    var v := Proposed(h, name, change, w.clock);
    ChangedStaysRestricted(DocAt(w.history, h.etag), h.names, name, change(h.cells));
    assert DocAt(w.history + [v], h.etag) == DocAt(w.history, h.etag);
  }

  lemma UpdateKeepsInv<V>(w: World<V>, a: nat, name: string, change: Change<V>, fault: Fault)
    requires Inv(w) && a in w.activations && name in w.activations[a].names
    ensures Inv(Updated(w, a, name, change, fault))
  {
    var h := w.activations[a];
    if Applies(w.record.etag, h.etag, fault) {
      AckedOk(w, h, name, change);
      CommitKeepsInv(w, Proposed(h, name, change, w.clock));
    }
  }

  lemma LandKeepsInv<V>(w: World<V>, i: nat)
    requires Inv(w) && i < |w.late|
    ensures Inv(Landed(w, i))
  {
    if w.late[i].expected == w.record.etag {
      CommitKeepsInv(w, w.late[i].version);
    }
  }

  lemma {:induction false} RunInv<V>(steps: seq<Step<V>>)
    ensures Inv(Run(steps)) && Run(steps).clock == |steps|
  {
    if steps != [] {
      var w, step := Run(steps[..|steps| - 1]), steps[|steps| - 1];
      RunInv(steps[..|steps| - 1]);
      match step {
        case Update(a, name, change, fault) =>
          if a in w.activations && name in w.activations[a].names { UpdateKeepsInv(w, a, name, change, fault); }
        case Land(i) =>
          if i < |w.late| && !w.late[i].settled { LandKeepsInv(w, i); }
        case _ =>
      }
    }
  }

  // ---- no lost update ------------------------------------------------------------------------------

  /** Every committed record was computed, by the update of some step and its activation's
      registered states, from the record immediately before it, and a confirmed update
      stored exactly the value it computed from there. */
  lemma NoLostUpdate<V>(steps: seq<Step<V>>, k: nat)
    requires k < |Run(steps).history|
    ensures Origin(steps, Run(steps).history[k])
    ensures var w := Run(steps); Linked(w.history, k) && w.record == Record(w.history[|w.history| - 1].doc, |w.history|)
    ensures var w := Run(steps); forall i :: 0 <= i < |w.acks| ==> AckOk(w, w.acks[i])
  {
    RunInv(steps);
    RunTraced(steps);
  }

  /** A committed record, name by name: its writer saw the registered states of the record
      before; the updated state is there exactly when the update gave it a value, with that
      value, and every other state is as it was seen. */
  lemma CommitIs<V>(steps: seq<Step<V>>, k: nat) returns (seen: Document<V>)
    requires k < |Run(steps).history|
    ensures var h := Run(steps).history; var before := if k == 0 then map[] else h[k - 1].doc;
      forall name :: (name in seen <==> name in h[k].names && name in before) && (name in seen ==> seen[name] == before[name])
    ensures var v := Run(steps).history[k]; var value := v.change(seen);
      && (v.name in v.doc <==> value.Some?) && (value.Some? ==> v.doc[v.name] == value.value)
      && forall name :: name != v.name ==>
        (name in v.doc <==> name in seen) && (name in seen ==> v.doc[name] == seen[name])
  {
    RunInv(steps);
    var h := Run(steps).history;
    assert Linked(h, k);
    seen := Restrict(DocAt(h, k), h[k].names);
    forall name ensures var v := h[k];
      name != v.name ==> (name in v.doc <==> name in seen) && (name in seen ==> v.doc[name] == seen[name])
    {
      ChangedIs(seen, h[k].name, h[k].change(seen), name);
    }
    ChangedIs(seen, h[k].name, h[k].change(seen), h[k].name);
  }

  /** Every activation registers the states `names`. */
  ghost predicate Uniform<V>(steps: seq<Step<V>>, names: set<string>) {
    forall i :: 0 <= i < |steps| && steps[i].Activate? ==> steps[i].names == names
  }

  ghost predicate AllNamed<V>(w: World<V>, names: set<string>) {
    && (forall a :: a in w.activations ==> w.activations[a].names == names)
    && (forall k :: 0 <= k < |w.history| ==> w.history[k].names == names)
    && (forall i :: 0 <= i < |w.late| ==> w.late[i].version.names == names)
  }

  lemma NextNamed<V>(w: World<V>, step: Step<V>, names: set<string>)
    requires AllNamed(w, names) && (step.Activate? ==> step.names == names)
    ensures AllNamed(Next(w, step), names)
  {
  }

  lemma {:induction false} UniformNames<V>(steps: seq<Step<V>>, names: set<string>)
    requires Uniform(steps, names)
    ensures AllNamed(Run(steps), names)
  {
    if steps != [] {
      UniformNames(steps[..|steps| - 1], names);
      NextNamed(Run(steps[..|steps| - 1]), steps[|steps| - 1], names);
    }
  }

  /** When all activations register the same states, an update changes its own state
      and carries every other one over unchanged. */
  lemma OtherStatesSurvive<V>(steps: seq<Step<V>>, names: set<string>, k: nat)
    requires Uniform(steps, names) && k < |Run(steps).history|
    ensures var h := Run(steps).history;
      h[k].doc == Changed(DocAt(h, k), h[k].name, h[k].change(DocAt(h, k)))
  {
    RunInv(steps);
    UniformNames(steps, names);
    var h := Run(steps).history;
    assert Linked(h, k);
    if k > 0 {
      assert Linked(h, k - 1);
      var seen := Restrict(DocAt(h, k - 1), names);
      ChangedStaysRestricted(DocAt(h, k - 1), names, h[k - 1].name, h[k - 1].change(seen));
    }
    assert Restrict(DocAt(h, k), names) == DocAt(h, k);
  }

  // ---- each update commits at most once ---------------------------------------------------------------

  /** The states activation `a` registered when it last started before step `t`. */
  ghost function LastNames<V>(steps: seq<Step<V>>, a: nat, t: nat): Option<set<string>>
    requires t <= |steps|
  {
    if t == 0 then None
    else if steps[t - 1].Activate? && steps[t - 1].a == a then Some(steps[t - 1].names)
    else LastNames(steps, a, t - 1)
  }

  /** The version is the one the update at step `v.ticket` computed: its state, its change,
      and the states its activation had registered. */
  ghost predicate Origin<V>(steps: seq<Step<V>>, v: Version<V>) {
    && v.ticket < |steps|
    && var s := steps[v.ticket];
       (s.Update? || s.Lose?) && s.name == v.name && s.change == v.change
       && LastNames(steps, s.a, v.ticket) == Some(v.names)
  }

  ghost predicate Traced<V>(steps: seq<Step<V>>, w: World<V>) {
    && w.clock <= |steps|
    && (forall k :: 0 <= k < |w.history| ==> Origin(steps, w.history[k]))
    && (forall i :: 0 <= i < |w.late| ==> Origin(steps, w.late[i].version))
    && (forall a :: a in w.activations ==> LastNames(steps, a, w.clock) == Some(w.activations[a].names))
  }

  ghost predicate Unique<V>(w: World<V>) {
    && (forall k :: 0 <= k < |w.history| ==> w.history[k].ticket < w.clock)
    && (forall i :: 0 <= i < |w.late| ==> w.late[i].version.ticket < w.clock)
    && (forall j, k :: 0 <= j < k < |w.history| ==> w.history[j].ticket != w.history[k].ticket)
    && (forall i, j :: 0 <= i < j < |w.late| ==> w.late[i].version.ticket != w.late[j].version.ticket)
    && (forall i, k :: 0 <= i < |w.late| && !w.late[i].settled && 0 <= k < |w.history| ==>
          w.late[i].version.ticket != w.history[k].ticket)
  }

  lemma CommittedTraced<V>(steps: seq<Step<V>>, w: World<V>, v: Version<V>)
    requires Traced(steps, w) && Origin(steps, v)
    ensures Traced(steps, Committed(w, v))
  {
  }

  lemma EffectTraced<V>(steps: seq<Step<V>>, w: World<V>, step: Step<V>)
    requires Traced(steps, w) && w.clock < |steps| && steps[w.clock] == step
    ensures Traced(steps, Next(w, step))
  {
    match step {
      case Update(a, name, change, fault) =>
        if a in w.activations && name in w.activations[a].names {
          CommittedTraced(steps, w, Proposed(w.activations[a], name, change, w.clock));
        }
      case Land(i) =>
        if i < |w.late| {
          CommittedTraced(steps, w, w.late[i].version);
        }
      case _ =>
    }
  }

  lemma NextUnique<V>(w: World<V>, step: Step<V>)
    requires Unique(w)
    ensures Unique(Next(w, step))
  {
    match step {
      case Activate(_, _) =>
      case Update(a, name, change, fault) =>
        if a in w.activations && name in w.activations[a].names { UpdatedUnique(w, a, name, change, fault); }
      case Lose(a, name, change) => LostUnique(w, a, name, change);
      case Land(i) => if i < |w.late| && !w.late[i].settled { LandedUnique(w, i); }
    }
  }

  lemma UpdatedUnique<V>(w: World<V>, a: nat, name: string, change: Change<V>, fault: Fault)
    requires Unique(w) && a in w.activations
    ensures Unique(Updated(w, a, name, change, fault).(clock := w.clock + 1))
  {
  }

  lemma LostUnique<V>(w: World<V>, a: nat, name: string, change: Change<V>)
    requires Unique(w)
    ensures Unique(Next(w, Lose(a, name, change)))
  {
  }

  lemma LandedUnique<V>(w: World<V>, i: nat)
    requires Unique(w) && i < |w.late| && !w.late[i].settled
    ensures Unique(Landed(w, i).(clock := w.clock + 1))
  {
  }

  lemma {:induction false} LastNamesGrow<V>(steps: seq<Step<V>>, n: nat, a: nat, t: nat)
    requires t <= n <= |steps|
    ensures LastNames(steps[..n], a, t) == LastNames(steps, a, t)
  {
    if t > 0 {
      LastNamesGrow(steps, n, a, t - 1);
    }
  }

  lemma OriginGrows<V>(steps: seq<Step<V>>, n: nat, v: Version<V>)
    requires n <= |steps| && Origin(steps[..n], v)
    ensures Origin(steps, v)
  {
    LastNamesGrow(steps, n, steps[v.ticket].a, v.ticket);
  }

  lemma TracedGrows<V>(steps: seq<Step<V>>, n: nat, w: World<V>)
    requires n <= |steps| && Traced(steps[..n], w)
    ensures Traced(steps, w)
  {
    forall k | 0 <= k < |w.history| ensures Origin(steps, w.history[k]) {
      OriginGrows(steps, n, w.history[k]);
    }
    forall i | 0 <= i < |w.late| ensures Origin(steps, w.late[i].version) {
      OriginGrows(steps, n, w.late[i].version);
    }
    forall a | a in w.activations ensures LastNames(steps, a, w.clock) == Some(w.activations[a].names) {
      LastNamesGrow(steps, n, a, w.clock);
    }
  }

  lemma {:induction false} RunTraced<V>(steps: seq<Step<V>>)
    ensures Traced(steps, Run(steps)) && Unique(Run(steps))
  {
    if steps != [] {
      var init := steps[..|steps| - 1];
      RunTraced(init);
      RunInv(init);
      TracedGrows(steps, |init|, Run(init));
      EffectTraced(steps, Run(init), steps[|steps| - 1]);
      NextUnique(Run(init), steps[|steps| - 1]);
    }
  }

  /** An update commits at most once, whatever the faults. */
  lemma CommitsAtMostOnce<V>(steps: seq<Step<V>>, j: nat, k: nat)
    requires j < k < |Run(steps).history|
    ensures Run(steps).history[j].ticket != Run(steps).history[k].ticket
    ensures Origin(steps, Run(steps).history[j]) && Origin(steps, Run(steps).history[k])
  {
    RunTraced(steps);
  }

  // ---- which updates commit ------------------------------------------------------------------------------

  lemma RunAppends<V>(steps: seq<Step<V>>, step: Step<V>)
    ensures Run(steps + [step]) == Next(Run(steps), step)
  {
    assert (steps + [step])[..|steps|] == steps;
  }

  /** The next record was committed by the update of step `ticket`. */
  ghost predicate CommitsNext<V>(w: World<V>, w': World<V>, ticket: nat) {
    && |w'.history| == |w.history| + 1 && w'.history[..|w.history|] == w.history
    && w'.history[|w.history|].ticket == ticket
  }

  /** In every run an update of a registered state commits if and only if the store performs
      its write and no other record was committed since its activation last saw one; it is
      confirmed if and only if, in addition, the store says so. */
  lemma UpdateCommitsIff<V>(steps: seq<Step<V>>, a: nat, name: string, change: Change<V>, fault: Fault)
    requires var w := Run(steps); a in w.activations && name in w.activations[a].names
    ensures var w, w' := Run(steps), Run(steps + [Update(a, name, change, fault)]);
      var current := fault != FailBefore && fault != CancelBefore && w.activations[a].etag == |w.history|;
      && (if current then CommitsNext(w, w', |steps|) else w'.history == w.history)
      && (if current && fault == NoFault
          then |w'.acks| == |w.acks| + 1 && w'.acks[|w.acks|].ticket == |steps| && w'.acks[|w.acks|].etag == |w'.history|
            && w'.activations[a].etag == |w'.history| && w'.activations[a].cells == w'.record.doc
          else w'.acks == w.acks && w'.activations == w.activations)
  {
    RunInv(steps);
    RunAppends(steps, Update(a, name, change, fault));
  }

  /** A write that stayed in flight commits if and only if no record was committed since its
      activation last saw one, and lands at most once. */
  lemma LateCommitsIff<V>(steps: seq<Step<V>>, i: nat)
    requires i < |Run(steps).late|
    ensures var w, w' := Run(steps), Run(steps + [Land(i)]); var write := w.late[i];
      && (if !write.settled && write.expected == |w.history|
          then CommitsNext(w, w', write.version.ticket) else w'.history == w.history)
      && w'.late[i].settled
  {
    RunInv(steps);
    RunAppends(steps, Land(i));
  }

  /** A new activation holds the states it registers of the current record. */
  lemma ActivationIsCurrent<V>(steps: seq<Step<V>>, a: nat, names: set<string>)
    ensures var w, w' := Run(steps), Run(steps + [Activate(a, names)]);
      && a in w'.activations && w'.activations[a].names == names && w'.activations[a].etag == |w.history|
      && (forall name :: name in w'.activations[a].cells <==> name in names && name in w.record.doc)
      && (forall name :: name in w'.activations[a].cells ==> w'.activations[a].cells[name] == w.record.doc[name])
      && w'.record == w.record && w'.history == w.history
  {
    RunInv(steps);
    RunAppends(steps, Activate(a, names));
  }

  // ---- counters ---------------------------------------------------------------------------------------

  function Count(doc: Document<int>, name: string): int {
    if name in doc then doc[name] else 0
  }

  /** The body of `Add`: get, add, set. */
  ghost function Adding(name: string, delta: int): Change<int> {
    doc => Some(Count(doc, name) + delta)
  }

  /** All updates of the run are additions to one counter; step `i` adds `deltas[i]`. */
  ghost predicate CounterRun(steps: seq<Step<int>>, name: string, deltas: seq<int>) {
    && |deltas| == |steps|
    && forall i :: 0 <= i < |steps| && (steps[i].Update? || steps[i].Lose?) ==>
      steps[i].name == name && steps[i].change == Adding(name, deltas[i])
  }

  /** Sum of the deltas committed up to ETag `k`. */
  ghost function CommittedSum(history: seq<Version<int>>, deltas: seq<int>, k: nat): int
    requires k <= |history| && forall i :: 0 <= i < |history| ==> history[i].ticket < |deltas|
  {
    if k == 0 then 0 else CommittedSum(history, deltas, k - 1) + deltas[history[k - 1].ticket]
  }

  /** Every version was computed by an update of the run from the version before it. */
  ghost predicate Chained(steps: seq<Step<int>>, h: seq<Version<int>>) {
    forall i: nat :: i < |h| ==> ChainedAt(steps, h, i)
  }

  ghost predicate ChainedAt(steps: seq<Step<int>>, h: seq<Version<int>>, i: nat)
    requires i < |h|
  {
    Origin(steps, h[i]) && Linked(h, i)
  }

  lemma LinkAdds(steps: seq<Step<int>>, name: string, deltas: seq<int>, h: seq<Version<int>>, k: nat)
    requires CounterRun(steps, name, deltas) && k < |h| && Origin(steps, h[k]) && Linked(h, k)
    ensures h[k].ticket < |deltas|
    ensures Count(DocAt(h, k + 1), name) == Count(DocAt(h, k), name) + deltas[h[k].ticket]
  {
    var v := h[k];
    var seen := Restrict(DocAt(h, k), v.names);
    assert Count(seen, name) == Count(DocAt(h, k), name);
    assert v.change(seen) == Some(Count(seen, name) + deltas[v.ticket]);
  }

  lemma {:induction false} LinksSum(steps: seq<Step<int>>, name: string, deltas: seq<int>, h: seq<Version<int>>, k: nat)
    requires CounterRun(steps, name, deltas) && Chained(steps, h) && k <= |h|
    ensures forall i :: 0 <= i < |h| ==> h[i].ticket < |deltas|
    ensures Count(DocAt(h, k), name) == CommittedSum(h, deltas, k)
  {
    forall i | 0 <= i < |h| ensures h[i].ticket < |deltas| {
      assert ChainedAt(steps, h, i);
    }
    if k > 0 {
      LinksSum(steps, name, deltas, h, k - 1);
      assert ChainedAt(steps, h, k - 1);
      LinkAdds(steps, name, deltas, h, k - 1);
    }
  }

  lemma CounterIsSum(steps: seq<Step<int>>, name: string, deltas: seq<int>, k: nat)
    requires CounterRun(steps, name, deltas) && k <= |Run(steps).history|
    ensures forall i :: 0 <= i < |Run(steps).history| ==> Run(steps).history[i].ticket < |deltas|
    ensures var h := Run(steps).history; Count(DocAt(h, k), name) == CommittedSum(h, deltas, k)
  {
    RunTraced(steps);
    RunInv(steps);
    var h := Run(steps).history;
    forall i: nat | i < |h| ensures ChainedAt(steps, h, i) {
      assert Origin(steps, h[i]) && Linked(h, i);
    }
    LinksSum(steps, name, deltas, h, k);
  }

  /** The stored counter is the sum of the committed deltas, and a confirmed `Add`
      returned exactly the sum up to and including its own commit. */
  lemma AddReturnsItsPrefixSum(steps: seq<Step<int>>, name: string, deltas: seq<int>, i: nat)
    requires CounterRun(steps, name, deltas) && i < |Run(steps).acks|
    ensures forall k :: 0 <= k < |Run(steps).history| ==> Run(steps).history[k].ticket < |deltas|
    ensures var w := Run(steps); var ack := w.acks[i];
      && 0 < ack.etag <= |w.history| && w.history[ack.etag - 1].ticket == ack.ticket
      && ack.value == Some(CommittedSum(w.history, deltas, ack.etag))
      && Count(w.record.doc, name) == CommittedSum(w.history, deltas, |w.history|)
  {
    RunInv(steps);
    RunTraced(steps);
    var w := Run(steps);
    var ack := w.acks[i];
    assert AckOk(w, ack);
    var v := w.history[ack.etag - 1];
    assert Origin(steps, v) && Linked(w.history, ack.etag - 1);
    CounterIsSum(steps, name, deltas, ack.etag);
    CounterIsSum(steps, name, deltas, |w.history|);
  }
}
