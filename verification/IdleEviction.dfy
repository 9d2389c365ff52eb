/** When idle eviction, which trusts the call counter, costs an admitted call its body. */
module IdleEviction {
  import M = Mailbox
  import opened CallAccounting

  /** No body's own error wraps a mailbox error. */
  predicate NeverWraps(steps: seq<Step>) {
    forall i :: 0 <= i < |steps| && steps[i].Work? ==> !steps[i].wraps
  }

  ghost predicate Clean(s: State) {
    forall c :: c in s.replies ==> s.replies[c] != Body(true)
  }

  lemma {:induction false} CleanRun(s: State, steps: seq<Step>)
    requires Clean(s) && NeverWraps(steps)
    ensures Clean(Run(s, steps))
    decreases |steps|
  {
    if steps != [] {
      assert steps[0].Work? ==> !steps[0].wraps;
      assert Clean(Next(s, steps[0]));
      assert NeverWraps(steps[1..]);
      CleanRun(Next(s, steps[0]), steps[1..]);
    }
  }

  /** In every run the counter is the number of unfinished calls, less one for each call
      whose own error was taken for a mailbox error; so it is exact when no error is. */
  lemma CounterIsExact(capacity: nat, steps: seq<Step>)
    ensures var s := Run(Started(capacity), steps);
      && s.calls == |Unfinished(s)| - |Doubled(s)|
      && (forall c :: c in Doubled(s) ==> c in s.replies && s.replies[c] == Body(true))
      && (NeverWraps(steps) ==> s.calls == |Unfinished(s)|)
  {
    Reached(capacity, steps);
    var s := Run(Started(capacity), steps);
    if NeverWraps(steps) {
      CleanRun(Started(capacity), steps);
      assert Doubled(s) == {};
    }
  }

  // ---- calls at risk --------------------------------------------------------------------------------

  /** Admitted, but its body has not started: the eviction can still take it away. */
  predicate AtRisk(s: State, c: M.CallId) {
    c in s.callers && (s.callers[c] == Admitted || c in s.box.queue || s.box.worker == M.Holding(c))
  }

  /** The call was turned away: refused by the mailbox, or rejected by the worker. */
  predicate Denied(s: State, c: M.CallId) {
    c in s.callers && s.callers[c] != Admitted && (c in s.box.rejected || c !in s.box.accepted)
  }

  /** Nobody's body is outstanding, and nobody can be admitted any more. */
  ghost predicate Safe(s: State) {
    && !s.active && s.box.queue == [] && s.box.rejected == [] && !s.box.worker.Holding?
    && forall c :: c in s.callers ==> s.callers[c] != Admitted
  }

  lemma StepStaysSafe(s: State, step: Step)
    requires Safe(s)
    ensures Safe(Next(s, step)) && Next(s, step).box.accepted == s.box.accepted
    ensures Next(s, step).callers.Keys == s.callers.Keys
  {
  }

  lemma {:induction false} RunStaysSafe(s: State, steps: seq<Step>)
    requires Safe(s)
    ensures Safe(Run(s, steps)) && Run(s, steps).box.accepted == s.box.accepted
    ensures Run(s, steps).callers.Keys == s.callers.Keys
    decreases |steps|
  {
    if steps != [] {
      StepStaysSafe(s, steps[0]);
      RunStaysSafe(Next(s, steps[0]), steps[1..]);
    }
  }

  lemma {:induction false} RunAppends(s: State, steps: seq<Step>, step: Step)
    ensures Run(s, steps + [step]) == Next(Run(s, steps), step)
    decreases |steps|
  {
    if steps == [] {
      assert [step][1..] == [];
    } else {
      assert (steps + [step])[1..] == steps[1..] + [step];
      RunAppends(Next(s, steps[0]), steps[1..], step);
    }
  }

  // ---- a closed mailbox answers everything ------------------------------------------------------------

  predicate Doomed(s: State, c: M.CallId) {
    c in s.box.queue || s.box.worker == M.Holding(c) || c in s.box.rejected
  }

  function Effort(s: State): nat {
    2 * M.WorkLeft(s.box) + if s.released then 0 else 1
  }

  /** What the worker does next, once nothing else happens. */
  function Onward(s: State): Step {
    if s.box.worker.Executing? && !s.released then BodyReturns else Work(false)
  }

  lemma OnwardDooms(s: State, c: M.CallId)
    requires s.box.closed && Doomed(s, c) && s.box.worker != M.Done
    requires s.released ==> s.box.worker.Executing?
    ensures var s' := Next(s, Onward(s));
      && s'.box.closed && Doomed(s', c) && Effort(s') < Effort(s) && s'.callers == s.callers
  {
  }

  lemma {:induction false} ClosedBoxRejects(s: State, c: M.CallId) returns (steps: seq<Step>)
    requires Inv(s) && s.box.closed && Doomed(s, c)
    ensures Inv(Run(s, steps)) && c in Run(s, steps).box.rejected && Run(s, steps).callers == s.callers
    decreases Effort(s)
  {
    if s.box.worker == M.Done {
      return [];
    }
    OnwardDooms(s, c);
    StepKeepsInv(s, Onward(s));
    var rest := ClosedBoxRejects(Next(s, Onward(s)), c);
    steps := [Onward(s)] + rest;
    assert steps[1..] == rest;
  }

  /** A call at risk can be lost to the eviction. */
  lemma RiskIsReal(s: State, c: M.CallId) returns (more: seq<Step>)
    requires Inv(s) && s.active && s.calls == 0 && AtRisk(s, c)
    ensures Denied(Run(Next(s, Evict), more), c) && !Denied(s, c)
  {
    if s.callers[c] == Admitted {
      more := [] + [CloseBox] + [Offer(c, false)];
      RunAppends(Next(s, Evict), [], CloseBox);
      RunAppends(Next(s, Evict), [] + [CloseBox], Offer(c, false));
      assert Run(Next(s, Evict), more) == Next(Next(Next(s, Evict), CloseBox), Offer(c, false));
    } else {
      more := QueuedRisk(s, c);
    }
  }

  /** A call that waits in the mailbox is rejected once the mailbox is closed. */
  lemma QueuedRisk(s: State, c: M.CallId) returns (more: seq<Step>)
    requires Inv(s) && s.active && s.calls == 0 && AtRisk(s, c) && s.callers[c] != Admitted
    ensures Denied(Run(Next(s, Evict), more), c) && !Denied(s, c)
  {
    var closed := Next(Next(s, Evict), CloseBox);
    StepKeepsInv(s, Evict);
    StepKeepsInv(Next(s, Evict), CloseBox);
    assert CallerOk(s, c);
    if c in s.box.queue {
      QueuedIsOpen(s.box, c);
    } else {
      InHandIsOpen(s.box, c);
    }
    var rest := ClosedBoxRejects(closed, c);
    more := [CloseBox] + rest;
    assert more[1..] == rest;
  }

  /** After the eviction, the steps `more` turn `c` away. */
  predicate EvictionDenies(s: State, c: M.CallId, more: seq<Step>) {
    Denied(Run(Next(s, Evict), more), c) && !Denied(s, c)
  }

  /** Exactly when an idle eviction, at counter zero, can turn an admitted call away. */
  lemma EvictionHurtsIff(capacity: nat, steps: seq<Step>)
    requires var s := Run(Started(capacity), steps); s.active && s.calls == 0
    ensures var s := Run(Started(capacity), steps);
      (exists c, more :: EvictionDenies(s, c, more)) <==> (exists c :: AtRisk(s, c))
  {
    Reached(capacity, steps);
    var s := Run(Started(capacity), steps);
    if c :| AtRisk(s, c) {
      var more := RiskIsReal(s, c);
      assert EvictionDenies(s, c, more);
    } else {
      NoRiskIsSafe(s);
      forall c, more ensures !EvictionDenies(s, c, more) {
        RunStaysSafe(Next(s, Evict), more);
      }
    }
  }

  lemma NoRiskIsSafe(s: State)
    requires Inv(s) && s.active && s.calls == 0 && !exists c :: AtRisk(s, c)
    ensures Safe(Next(s, Evict))
  {
    if s.box.queue != [] {
      QueuedIsOpen(s.box, s.box.queue[0]);
      assert AtRisk(s, s.box.queue[0]);
    }
    if s.box.worker.Holding? {
      InHandIsOpen(s.box, s.box.worker.call);
      assert AtRisk(s, s.box.worker.call);
    }
    forall c | c in s.callers ensures s.callers[c] != Admitted {
      assert !AtRisk(s, c);
    }
  }

  /** A call at risk is unfinished, so an exact counter at zero leaves none. */
  lemma RiskIsUnfinished(s: State, c: M.CallId)
    requires Inv(s) && AtRisk(s, c)
    ensures c in Unfinished(s)
  {
    assert CallerOk(s, c);
    if c in s.box.queue {
      QueuedIsOpen(s.box, c);
    } else if s.box.worker == M.Holding(c) {
      InHandIsOpen(s.box, c);
    } else {
      AcceptedParts(s.box, c);
    }
  }

  /** Idle eviction never costs an admitted call its body, provided no method's own
      error has wrapped a mailbox error so far; what later errors wrap does not matter. */
  lemma IdleEvictionIsSafe(capacity: nat, steps: seq<Step>, more: seq<Step>, c: M.CallId)
    requires NeverWraps(steps)
    requires var s := Run(Started(capacity), steps); s.active && s.calls == 0
    ensures var s := Run(Started(capacity), steps); var last := Run(Next(s, Evict), more);
      && (Denied(last, c) ==> Denied(s, c))
      && last.box.rejected == [] && last.box.accepted == s.box.accepted
  {
    Reached(capacity, steps);
    CounterIsExact(capacity, steps);
    var s := Run(Started(capacity), steps);
    assert Unfinished(s) == {};
    forall d ensures !AtRisk(s, d) {
      if AtRisk(s, d) {
        RiskIsUnfinished(s, d);
        assert false;
      }
    }
    NoRiskIsSafe(s);
    RunStaysSafe(Next(s, Evict), more);
  }

  // ---- the hypothesis is needed ------------------------------------------------------------------------

  lemma BodyRuns() returns (steps: seq<Step>)
    ensures Run(Started(1), steps) ==
      State(true, M.Box(1, [], false, M.Executing(0), [0], [], []), 1, map[0 := Waiting], false, map[])
  {
    var s0 := Started(1);
    var s1 := [] + [Admit(0)];
    var s2 := s1 + [Offer(0, false)];
    RunAppends(s0, [], Admit(0));
    RunAppends(s0, s1, Offer(0, false));
    assert Run(s0, s2).box == M.Box(1, [0], false, M.Receiving, [0], [], []);
    RunAppends(s0, s2, Work(false));
    RunAppends(s0, s2 + [Work(false)], Work(false));
    steps := s2 + [Work(false)] + [Work(false)];
  }

  /** Call 0's body returns an error that wraps a mailbox error, and call 1 is admitted
      before call 0's caller releases the counter for the second time. */
  lemma CounterReachesZero() returns (steps: seq<Step>)
    ensures var s := Run(Started(1), steps); s.active && s.calls == 0 && Is(s, 1, Admitted)
  {
    var s0 := Started(1);
    var a := BodyRuns();
    var b := a + [BodyReturns] + [Work(true)];
    RunAppends(s0, a, BodyReturns);
    RunAppends(s0, a + [BodyReturns], Work(true));
    assert Run(s0, b) == State(true, M.Box(1, [], false, M.Replied, [0], [0], []), 0, map[0 := Waiting], false, map[0 := Body(true)]);
    RunAppends(s0, b, Receive(0));
    RunAppends(s0, b + [Receive(0)], Admit(1));
    RunAppends(s0, b + [Receive(0)] + [Admit(1)], Settle(0));
    steps := b + [Receive(0)] + [Admit(1)] + [Settle(0)];
    assert Is(Run(s0, steps), 1, Admitted);
  }

  /** One such error is enough: the counter is zero while call 1 is admitted, the eviction
      goes ahead, and call 1 is turned away. */
  lemma WrappedErrorLosesACall() returns (steps: seq<Step>, more: seq<Step>)
    ensures var s := Run(Started(1), steps);
      && s.active && s.calls == 0 && Is(s, 1, Admitted) && EvictionDenies(s, 1, more)
  {
    steps := CounterReachesZero();
    Reached(1, steps);
    more := RiskIsReal(Run(Started(1), steps), 1);
  }
}
