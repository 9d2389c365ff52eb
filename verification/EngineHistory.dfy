/** What the activation engine guarantees over whole runs: one activation per Grain, no
    new factory before the old activation is over, hooks after the last body and at
    most once, and stop signals that close once and stay meaningful. */
module EngineHistory {
  import opened Basics
  import M = Mailbox
  import opened Engine
  import opened EngineLaws

  // ---- what no step takes back ----------------------------------------------------------------------

  predicate LifeAdvances(x: Life, y: Life) {
    x == y || y == Stopped || (x == Active && y == Deactivating)
  }

  /** `y` is `x` at a later moment. `killed`: the engine was killing at `x` already. */
  predicate Later(x: Act, y: Act, killed: bool) {
    && x.id == y.id && x.published == y.published && x.hooked == y.hooked
    && LifeAdvances(x.life, y.life)
    && (x.reason.Some? ==> y.reason == x.reason)
    && x.hooks <= y.hooks
    && (x.hooks != [] || x.life == Stopped || killed ==> y.hooks == x.hooks)
    && (x.box.worker == M.Done ==> y.box == x.box)
    && x.box.executed <= y.box.executed
  }

  ghost predicate ActsLater(xs: seq<Act>, ys: seq<Act>, killed: bool) {
    && |xs| <= |ys|
    && (forall a :: 0 <= a < |xs| ==> Later(xs[a], ys[a], killed))
    && (killed ==> forall a :: |xs| <= a < |ys| ==> ys[a].hooks == [])
  }

  lemma LaterItself(xs: seq<Act>, killed: bool)
    ensures ActsLater(xs, xs, killed)
  {
  }

  ghost predicate StageLater(e: Engine, e': Engine) {
    && (e.stage != Running ==> e'.stage != Running)
    && (e.stage == Killing ==> e'.stage == Killing)
    && e.deactivationsCloses <= e'.deactivationsCloses
    && e.doneCloses <= e'.doneCloses
  }

  lemma SetLater(e: Engine, a: nat, act: Act)
    requires a < |e.acts| && Later(e.acts[a], act, e.stage == Killing)
    ensures ActsLater(e.acts, Set(e, a, act).acts, e.stage == Killing)
  {
  }

  lemma BoxLater(e: Engine, a: nat, step: M.Step)
    requires a < |e.acts| && M.Inv(e.acts[a].box)
    ensures ActsLater(e.acts, Set(e, a, e.acts[a].(box := M.Next(e.acts[a].box, step))).acts, e.stage == Killing)
  {
    var box := e.acts[a].box;
    M.StepKeepsInv(box, step);
    if box.worker == M.Done {
      assert M.Next(box, step) == box;
    }
    SetLater(e, a, e.acts[a].(box := M.Next(box, step)));
  }

  /** A change that leaves the box, the hooks and a recorded reason alone. */
  lemma QuietSetLater(e: Engine, a: nat, act: Act)
    requires a < |e.acts| && act.box == e.acts[a].box && act.hooks == e.acts[a].hooks
    requires act.id == e.acts[a].id && act.published == e.acts[a].published && act.hooked == e.acts[a].hooked
    requires act.reason == e.acts[a].reason && LifeAdvances(e.acts[a].life, act.life)
    ensures ActsLater(e.acts, Set(e, a, act).acts, e.stage == Killing)
  {
    SetLater(e, a, act);
  }

  /** Only active activations begin to deactivate, and those have no reason yet. */
  lemma BeginLater(e: Engine, who: set<nat>, reason: Reason)
    requires forall a :: 0 <= a < |e.acts| && e.acts[a].life == Active ==> e.acts[a].reason == None
    ensures ActsLater(e.acts, BeginAll(e, who, reason).acts, e.stage == Killing)
    ensures ActsLater(e.acts, BeginAll(e, who, reason).acts, false)
  {
  }

  lemma SkipLater(e: Engine)
    ensures ActsLater(e.acts, SkipHooks(e).acts, false)
  {
  }

  lemma DecideLater(e: Engine, a: nat)
    requires a < |e.acts| && ActOk(e.acts[a], e.stage) && e.acts[a].waiter == Waiting
    ensures ActsLater(e.acts, Set(e, a, Decided(e.acts[a])).acts, e.stage == Killing)
  {
    SetLater(e, a, Decided(e.acts[a]));
  }

  lemma HookLater(e: Engine, a: nat)
    requires a < |e.acts|
    ensures ActsLater(e.acts, Set(e, a, HookEnded(e.acts[a])).acts, e.stage == Killing)
  {
    QuietSetLater(e, a, HookEnded(e.acts[a]));
  }

  lemma AdmitLater(e: Engine, a: nat, now: int)
    requires a < |e.acts|
    ensures ActsLater(e.acts, Set(e, a, Admitted(e.acts[a], now)).acts, e.stage == Killing)
  {
    QuietSetLater(e, a, Admitted(e.acts[a], now));
  }

  lemma CallEndLater(e: Engine, a: nat)
    requires a < |e.acts|
    ensures ActsLater(e.acts, Set(e, a, CallEnded(e.acts[a])).acts, e.stage == Killing)
  {
    QuietSetLater(e, a, CallEnded(e.acts[a]));
  }

  lemma FinishLater(e: Engine, a: nat)
    requires a < |e.acts|
    ensures ActsLater(e.acts, Finished(e, a).acts, e.stage == Killing)
  {
    var act := e.acts[a];
    LaterItself(e.acts, e.stage == Killing);
    QuietSetLater(e, a, act.(life := Stopped, doneCloses := act.doneCloses + 1, waiter := Retired));
  }

  lemma RetireLater(e: Engine, a: nat)
    requires a < |e.acts|
    ensures ActsLater(e.acts, WaiterGone(e, a).acts, e.stage == Killing)
  {
    QuietSetLater(e, a, e.acts[a].(waiter := Gone));
  }

  lemma BoxStepLater(e: Engine, a: nat, step: Step)
    requires a < |e.acts| && M.Inv(e.acts[a].box) && (step.CloseBox? || step.Mail? || step.Work?)
    ensures ActsLater(e.acts, Local(e, a, step).acts, e.stage == Killing)
  {
    LaterItself(e.acts, e.stage == Killing);
    match step {
      case CloseBox(_) => BoxLater(e, a, M.Close);
      case Mail(_, call, parked) => BoxLater(e, a, M.Offer(call, parked));
      case Work(_) => BoxLater(e, a, M.Work);
    }
  }

  lemma WaiterStepLater(e: Engine, a: nat, step: Step)
    requires a < |e.acts| && ActOk(e.acts[a], e.stage)
    requires step.Decide? || step.HookReturns? || step.Finish? || step.Retire?
    ensures ActsLater(e.acts, Local(e, a, step).acts, e.stage == Killing)
  {
    LaterItself(e.acts, e.stage == Killing);
    match step {
      case Decide(_) => if e.acts[a].waiter == Waiting && e.acts[a].box.worker == M.Done { DecideLater(e, a); }
      case HookReturns(_) => if e.acts[a].waiter == Hooking { HookLater(e, a); }
      case Finish(_) => if e.acts[a].waiter == HookOver { FinishLater(e, a); }
      case Retire(_) => if e.acts[a].waiter == Retired { RetireLater(e, a); }
    }
  }

  lemma CallStepLater(e: Engine, a: nat, step: Step)
    requires Inv(e) && a < |e.acts| && (step.Admit? || step.CallFinished? || step.Fault?)
    ensures ActsLater(e.acts, Local(e, a, step).acts, e.stage == Killing)
  {
    LaterItself(e.acts, e.stage == Killing);
    match step {
      case Admit(_, now) => AdmitLater(e, a, now);
      case CallFinished(_) => CallEndLater(e, a);
      case Fault(_) => BeginLater(e, {a}, Faulted);
    }
  }

  lemma LocalLater(e: Engine, a: nat, step: Step)
    requires Inv(e) && a < |e.acts|
    ensures ActsLater(e.acts, Local(e, a, step).acts, e.stage == Killing)
  {
    assert ActOk(e.acts[a], e.stage);
    if step.CloseBox? || step.Mail? || step.Work? {
      BoxStepLater(e, a, step);
    } else if step.Decide? || step.HookReturns? || step.Finish? || step.Retire? {
      WaiterStepLater(e, a, step);
    } else if step.Admit? || step.CallFinished? || step.Fault? {
      CallStepLater(e, a, step);
    } else {
      assert Local(e, a, step) == e;
      LaterItself(e.acts, e.stage == Killing);
    }
  }

  lemma CloseLater(e: Engine)
    requires Inv(e)
    ensures ActsLater(e.acts, BeganClose(e).acts, e.stage == Killing)
  {
    LaterItself(e.acts, e.stage == Killing);
    if e.stage == Running {
      var mid := CloseMarked(e);
      BeginLater(mid, Current(mid), RuntimeClosed);
    }
  }

  lemma StopLater(mid: Engine)
    requires forall a :: 0 <= a < |mid.acts| && mid.acts[a].life == Active ==> mid.acts[a].reason == None
    ensures ActsLater(mid.acts, StopBegun(mid, true).acts, false)
  {
    SkipLater(mid);
    var skipped := SkipHooks(mid);
    BeginLater(skipped, Current(mid), RuntimeClosed);
    LaterChains(mid.acts, skipped.acts, BeginAll(skipped, Current(mid), RuntimeClosed).acts, false, false);
  }

  lemma KillLater(e: Engine)
    requires Inv(e)
    ensures ActsLater(e.acts, BeganKill(e).acts, e.stage == Killing)
  {
    LaterItself(e.acts, e.stage == Killing);
    match e.stage {
      case Running => StopLater(KillMarked(e));
      case Closing => SkipLater(e.(stage := Killing, killingCloses := e.killingCloses + 1));
      case Killing =>
    }
  }

  lemma CreateLater(e: Engine, id: GrainId, ok: bool, hooked: bool, capacity: nat, now: int)
    ensures ActsLater(e.acts, Created(e, id, ok, hooked, capacity, now).acts, e.stage == Killing)
  {
  }

  lemma QuietStepLater(e: Engine, step: Step)
    requires step.Lookup? || step.LoopExits? || step.DrainReads? || step.DrainEnds?
    ensures Next(e, step).acts == e.acts
  {
  }

  lemma BegunStepLater(e: Engine, step: Step)
    requires Inv(e) && (step.Deactivate? || step.Evict?)
    ensures ActsLater(e.acts, Next(e, step).acts, e.stage == Killing)
  {
    LaterItself(e.acts, e.stage == Killing);
    if step.Evict? {
      BeginLater(e, Victims(e, step.now, step.timeout), Idle);
    } else if step.id in e.table {
      BeginLater(e, {e.table[step.id]}, OwnershipLost);
    }
  }

  /** Steps of the engine as a whole. */
  lemma GlobalLater(e: Engine, step: Step)
    requires Inv(e) && (step.FactoryReturns? || step.BeginClose? || step.BeginKill?)
    ensures ActsLater(e.acts, Next(e, step).acts, e.stage == Killing)
  {
    match step {
      case FactoryReturns(id, ok, hooked, capacity, now) => CreateLater(e, id, ok, hooked, capacity, now);
      case BeginClose => CloseLater(e);
      case BeginKill => KillLater(e);
    }
  }

  lemma StepLater(e: Engine, step: Step)
    requires Inv(e)
    ensures ActsLater(e.acts, Next(e, step).acts, e.stage == Killing)
  {
    if step.FactoryReturns? || step.BeginClose? || step.BeginKill? {
      GlobalLater(e, step);
    } else if step.Deactivate? || step.Evict? {
      BegunStepLater(e, step);
    } else if step.Lookup? || step.LoopExits? || step.DrainReads? || step.DrainEnds? {
      QuietStepLater(e, step);
      LaterItself(e.acts, e.stage == Killing);
    } else if step.a < |e.acts| {
      LocalLater(e, step.a, step);
    } else {
      LaterItself(e.acts, e.stage == Killing);
    }
  }

  lemma StepAdvancesStage(e: Engine, step: Step)
    ensures StageLater(e, Next(e, step))
  {
  }

  lemma LaterChains(xs: seq<Act>, ys: seq<Act>, zs: seq<Act>, killed: bool, still: bool)
    requires ActsLater(xs, ys, killed) && ActsLater(ys, zs, still) && (killed ==> still)
    ensures ActsLater(xs, zs, killed)
  {
    forall a | 0 <= a < |xs| ensures Later(xs[a], zs[a], killed) {
      assert Later(xs[a], ys[a], killed) && Later(ys[a], zs[a], still);
    }
  }

  lemma {:induction false} RunLater(e: Engine, steps: seq<Step>)
    requires Inv(e)
    ensures ActsLater(e.acts, Run(e, steps).acts, e.stage == Killing) && StageLater(e, Run(e, steps)) && Inv(Run(e, steps))
    decreases |steps|
  {
    if steps != [] {
      var mid := Next(e, steps[0]);
      StepLater(e, steps[0]);
      StepAdvancesStage(e, steps[0]);
      StepKeepsInv(e, steps[0]);
      RunLater(mid, steps[1..]);
      LaterChains(e.acts, mid.acts, Run(mid, steps[1..]).acts, e.stage == Killing, mid.stage == Killing);
    }
  }

  // ---- one activation per Grain ----------------------------------------------------------------------

  /** Everything an activation can still do is done: its mailbox answered every call it
      accepted, the worker exited, and the hook, if it ran, returned. */
  predicate Settled(act: Act) {
    && act.life == Stopped && (act.waiter == Retired || act.waiter == Gone)
    && act.box.worker == M.Done && act.box.queue == []
    && act.box.accepted == act.box.executed + act.box.rejected
  }

  lemma UnlistedIsSettled(e: Engine, a: nat)
    requires Inv(e) && a < |e.acts| && e.acts[a].published && e.acts[a].id !in e.table
    ensures Settled(e.acts[a])
  {
    assert e.acts[a].life != Stopped ==> InTable(e, a);
    assert ActOk(e.acts[a], e.stage);
  }

  /** In every reachable state a Grain has at most one of: a creation under way, an
      active activation, a deactivating one; and the table finds the live one. */
  lemma SingleActivation(evicting: bool, steps: seq<Step>, a: nat, b: nat)
    requires var e := Run(Fresh(evicting), steps);
      && a < |e.acts| && e.acts[a].published && e.acts[a].life != Stopped
      && b < |e.acts| && e.acts[b].published && e.acts[b].life != Stopped
      && e.acts[a].id == e.acts[b].id
    ensures a == b
    ensures var e := Run(Fresh(evicting), steps);
      && e.acts[a].id !in e.pending && e.acts[a].id in e.table && e.table[e.acts[a].id] == a
  {
    Reached(evicting, steps);
    var e := Run(Fresh(evicting), steps);
    assert InTable(e, a) && InTable(e, b);
  }

  /** A lookup that starts a factory finds every earlier activation of the Grain
      settled, and whatever happens afterwards none of them runs a body or a hook again. */
  lemma NewFactoryWaits(evicting: bool, steps: seq<Step>, id: GrainId, more: seq<Step>, a: nat)
    requires var e := Run(Fresh(evicting), steps);
      && id !in e.pending && id in Next(e, Lookup(id)).pending
      && a < |e.acts| && e.acts[a].id == id && e.acts[a].published
    ensures var e := Run(Fresh(evicting), steps); var last := Run(Next(e, Lookup(id)), more);
      && Settled(e.acts[a]) && a < |last.acts|
      && last.acts[a].box == e.acts[a].box && last.acts[a].hooks == e.acts[a].hooks
  {
    Reached(evicting, steps);
    var e := Run(Fresh(evicting), steps);
    LookupKeepsInv(e, id);
    UnlistedIsSettled(e, a);
    var mid := LookedUp(e, id);
    assert mid.acts == e.acts;
    RunLater(mid, more);
    assert Later(mid.acts[a], Run(mid, more).acts[a], mid.stage == Killing);
  }

  predicate RunsBody(act: Act) {
    act.published && act.box.worker.Executing?
  }

  /** Across all activations of a Grain, old and new, at most one method body runs at a
      time, and while it runs no hook and no factory of that Grain runs. */
  lemma OneBodyAtATime(evicting: bool, steps: seq<Step>, a: nat, b: nat)
    requires var e := Run(Fresh(evicting), steps);
      a < |e.acts| && b < |e.acts| && e.acts[a].id == e.acts[b].id && RunsBody(e.acts[a])
    ensures var e := Run(Fresh(evicting), steps);
      && (RunsBody(e.acts[b]) ==> a == b)
      && e.acts[b].waiter != Hooking
      && e.acts[a].id !in e.pending
  {
    Reached(evicting, steps);
    var e := Run(Fresh(evicting), steps);
    assert ActOk(e.acts[a], e.stage) && ActOk(e.acts[b], e.stage);
    assert InTable(e, a);
    if e.acts[b].published && e.acts[b].life != Stopped {
      assert InTable(e, b);
    }
  }

  // ---- hooks --------------------------------------------------------------------------------------------

  lemma HookedIsDone(act: Act, stage: Stage)
    requires ActOk(act, stage) && act.hooks != []
    ensures act.box.worker == M.Done && act.box.accepted == act.box.executed + act.box.rejected
    ensures act.reason.Some? && act.hooks == [act.reason.value]
  {
  }

  /** The hook of an activation runs at most once, with the first reason recorded, and
      only when the worker has exited: at any later moment the executed calls, the
      reason and the hook are what they were. */
  lemma HookRunsOnceAndLast(evicting: bool, steps: seq<Step>, more: seq<Step>, a: nat)
    requires var e := Run(Fresh(evicting), steps); a < |e.acts| && e.acts[a].hooks != []
    ensures var e := Run(Fresh(evicting), steps); var last := Run(e, more);
      && a < |last.acts|
      && e.acts[a].box.worker == M.Done && last.acts[a].box == e.acts[a].box
      && e.acts[a].box.accepted == e.acts[a].box.executed + e.acts[a].box.rejected
      && last.acts[a].reason.Some? && last.acts[a].reason == e.acts[a].reason
      && e.acts[a].hooks == last.acts[a].hooks == [last.acts[a].reason.value]
  {
    Reached(evicting, steps);
    var e := Run(Fresh(evicting), steps);
    assert ActOk(e.acts[a], e.stage);
    HookedIsDone(e.acts[a], e.stage);
    RunLater(e, more);
    assert Later(e.acts[a], Run(e, more).acts[a], e.stage == Killing);
  }

  /** The reason recorded when an activation leaves `Active` is the one its hook gets,
      whatever tries to stop it afterwards. */
  lemma FirstReasonWins(evicting: bool, steps: seq<Step>, more: seq<Step>, a: nat)
    requires var e := Run(Fresh(evicting), steps); a < |e.acts| && e.acts[a].reason.Some?
    ensures var e := Run(Fresh(evicting), steps); var last := Run(e, more);
      && a < |last.acts| && last.acts[a].reason == e.acts[a].reason
      && (last.acts[a].hooks == [] || last.acts[a].hooks == [e.acts[a].reason.value])
  {
    Reached(evicting, steps);
    var e := Run(Fresh(evicting), steps);
    RunLater(e, more);
    var last := Run(e, more);
    assert Later(e.acts[a], last.acts[a], e.stage == Killing);
    assert ActOk(last.acts[a], last.stage);
  }

  /** After a kill no hook starts: neither on the activations of that moment nor on
      those whose factory returns later. */
  lemma KillStopsHooks(evicting: bool, steps: seq<Step>, more: seq<Step>, a: nat)
    requires Run(Fresh(evicting), steps).stage == Killing
    requires a < |Run(Run(Fresh(evicting), steps), more).acts|
    ensures var e := Run(Fresh(evicting), steps); var last := Run(e, more);
      last.acts[a].hooks == (if a < |e.acts| then e.acts[a].hooks else [])
  {
    Reached(evicting, steps);
    RunLater(Run(Fresh(evicting), steps), more);
  }

  // ---- stop signals --------------------------------------------------------------------------------------

  predicate ClosedIffStopped(act: Act) {
    act.doneCloses == if act.life == Stopped then 1 else 0
  }

  /** In every run, escalation from a graceful stop to a kill included, each channel is
      closed at most once; an activation's own channel exactly when it stops. */
  lemma ChannelsCloseOnce(evicting: bool, steps: seq<Step>)
    ensures var e := Run(Fresh(evicting), steps);
      && e.stopCloses <= 1 && e.killingCloses <= 1 && e.deactivationsCloses <= 1 && e.doneCloses <= 1
      && (e.doneCloses == 1 ==> e.stopCloses == 1)
      && forall a :: 0 <= a < |e.acts| ==> ClosedIffStopped(e.acts[a])
  {
    Reached(evicting, steps);
    var e := Run(Fresh(evicting), steps);
    forall a | 0 <= a < |e.acts| ensures ClosedIffStopped(e.acts[a]) {
      assert ActOk(e.acts[a], e.stage);
    }
  }

  ghost predicate Quiet(e: Engine) {
    && e.table == map[] && e.waiting == 0
    && forall a :: 0 <= a < |e.acts| && e.acts[a].published ==> Settled(e.acts[a])
  }

  lemma NoWaitersMeansQuiet(e: Engine)
    requires Inv(e) && e.stage != Running && e.deactivationsCloses > 0
    ensures Quiet(e)
  {
    assert BusySet(e.acts) == {};
    forall a | 0 <= a < |e.acts| && e.acts[a].published ensures Settled(e.acts[a]) {
      assert ActOk(e.acts[a], e.stage);
      assert a !in BusySet(e.acts);
    }
    forall id ensures id !in e.table {
      if id in e.table {
        assert false;
      }
    }
  }

  /** When `done` closes without a kill, every activation ever published is settled and
      the table is empty, and no step brings one back, not even a later kill or a
      factory that returns late. */
  lemma GracefulDoneMeansQuiet(evicting: bool, steps: seq<Step>, more: seq<Step>)
    requires var e := Run(Fresh(evicting), steps); e.doneCloses > 0 && e.killingCloses == 0
    ensures Quiet(Run(Fresh(evicting), steps)) && Quiet(Run(Run(Fresh(evicting), steps), more))
  {
    Reached(evicting, steps);
    var e := Run(Fresh(evicting), steps);
    RunLater(e, more);
    NoWaitersMeansQuiet(e);
    NoWaitersMeansQuiet(Run(e, more));
  }

  lemma {:induction false} RunAppends(e: Engine, steps: seq<Step>, step: Step)
    ensures Run(e, steps + [step]) == Next(Run(e, steps), step)
    decreases |steps|
  {
    if steps == [] {
      assert [step][1..] == [];
    } else {
      assert (steps + [step])[1..] == steps[1..] + [step];
      RunAppends(Next(e, steps[0]), steps[1..], step);
    }
  }

  predicate Occupied(e: Engine, id: GrainId) {
    |e.acts| == 1 && e.table == map[id := 0] && RunsBody(e.acts[0])
  }

  lemma BodyStarts(id: GrainId) returns (steps: seq<Step>)
    ensures Occupied(Run(Fresh(false), steps), id)
    ensures Run(Fresh(false), steps).stage == Running && Run(Fresh(false), steps).loopExited
  {
    var create := FactoryReturns(id, true, true, 1, 0);
    RunAppends(Fresh(false), [], Lookup(id));
    RunAppends(Fresh(false), [] + [Lookup(id)], create);
    var s2 := [] + [Lookup(id)] + [create];
    assert Run(Fresh(false), s2) == Fresh(false).(acts := [NewAct(id, true, true, 1, 0)], table := map[id := 0]);
    RunAppends(Fresh(false), s2, Mail(0, 7, false));
    var s3 := s2 + [Mail(0, 7, false)];
    RunAppends(Fresh(false), s3, Work(0));
    RunAppends(Fresh(false), s3 + [Work(0)], Work(0));
    steps := s3 + [Work(0)] + [Work(0)];
  }

  lemma KillSparesBodies(e: Engine, id: GrainId)
    requires Occupied(e, id) && e.acts[0].id == id
    ensures Occupied(StopBegun(KillMarked(e), true), id)
  {
    var mid := KillMarked(e);
    assert StopBegun(mid, true).acts == BeginAll(SkipHooks(mid), Current(mid), RuntimeClosed).acts;
  }

  lemma DrainIgnoresBodies(e: Engine)
    requires e.drain == AwaitLoop && e.loopExited && e.doneCloses == 0 && e.killingCloses == 1
    ensures var last := Next(Next(e, DrainReads), DrainEnds);
      last.doneCloses == 1 && last.acts == e.acts && last.table == e.table
  {
  }

  lemma KillEndsWithoutWaiting(e: Engine, id: GrainId)
    requires Inv(e) && Occupied(e, id) && e.stage == Running && e.loopExited
    ensures var last := Next(Next(BeganKill(e), DrainReads), DrainEnds);
      last.doneCloses == 1 && Occupied(last, id)
  {
    assert Serves(e.acts[e.table[id]], id);
    KillSparesBodies(e, id);
    DrainIgnoresBodies(BeganKill(e));
  }

  lemma KilledRun(steps: seq<Step>)
    ensures Run(Fresh(false), steps + [BeginKill] + [DrainReads] + [DrainEnds])
         == Next(Next(BeganKill(Run(Fresh(false), steps)), DrainReads), DrainEnds)
  {
    RunAppends(Fresh(false), steps, BeginKill);
    RunAppends(Fresh(false), steps + [BeginKill], DrainReads);
    RunAppends(Fresh(false), steps + [BeginKill] + [DrainReads], DrainEnds);
  }

  /** A kill may close `done` while a body still runs: the guarantee above is for
      graceful stops only. */
  lemma KillDoesNotWait(id: GrainId)
    ensures exists steps :: Run(Fresh(false), steps).doneCloses == 1 && Occupied(Run(Fresh(false), steps), id)
  {
    var steps := BodyStarts(id);
    var all := steps + [BeginKill] + [DrainReads] + [DrainEnds];
    Reached(false, steps);
    KillEndsWithoutWaiting(Run(Fresh(false), steps), id);
    KilledRun(steps);
    assert Occupied(Run(Fresh(false), all), id);
  }
}
