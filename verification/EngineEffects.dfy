/** Exactly when the engine does what it does: when an activation leaves the active state
    and with which reason, when its hook starts, when a factory starts and its result is
    published. Told from the state before the step, for every step of every run. */
module EngineEffects {
  import opened Basics
  import M = Mailbox
  import opened Engine
  import opened EngineLaws
  import opened EngineHistory

  // ---- one activation --------------------------------------------------------------------------------

  /** The step takes the activation out of service: its Grain is owned elsewhere, it has been
      idle long enough, a body of it failed, or the engine stops. */
  predicate Leaves(e: Engine, step: Step, a: nat)
    requires a < |e.acts|
  {
    var act := e.acts[a];
    && act.life == Active && act.published
    && (|| step == Deactivate(act.id)
        || (step.Evict? && e.stage == Running && act.calls == 0 && step.now - act.lastUsed >= step.timeout)
        || step == Fault(a)
        || ((step.BeginClose? || step.BeginKill?) && e.stage == Running))
  }

  function ReasonOf(step: Step): Reason {
    match step
    case Deactivate(_) => OwnershipLost
    case Evict(_, _) => Idle
    case Fault(_) => Faulted
    case _ => RuntimeClosed
  }

  /** The waiter gets to the hook: the worker exited, there is a hook, no kill forbids it. */
  predicate StartsHook(e: Engine, step: Step, a: nat)
    requires a < |e.acts|
  {
    var act := e.acts[a];
    step == Decide(a) && act.waiter == Waiting && act.box.worker == M.Done && act.hooked && !act.skip
  }

  predicate Stops(e: Engine, step: Step, a: nat)
    requires a < |e.acts|
  {
    step == Finish(a) && e.acts[a].waiter == HookOver
  }

  function MailStep(step: Step): Option<M.Step> {
    match step
    case CloseBox(_) => Some(M.Close)
    case Mail(_, call, parked) => Some(M.Offer(call, parked))
    case Work(_) => Some(M.Work)
    case _ => None
  }

  /** A step of the activation's mailbox; it is closed only once the activation is out of service. */
  predicate Mails(e: Engine, step: Step, a: nat)
    requires a < |e.acts|
  {
    var act := e.acts[a];
    MailStep(step).Some? && step.a == a && (step.CloseBox? ==> act.life != Active || !act.published)
  }

  /** Everything a step makes of an activation. */
  ghost predicate Becomes(e: Engine, step: Step, a: nat, act': Act)
    requires a < |e.acts|
  {
    var act := e.acts[a];
    && act'.id == act.id && act'.hooked == act.hooked && act'.published == act.published
    && act'.life == (if Leaves(e, step, a) then Deactivating else if Stops(e, step, a) then Stopped else act.life)
    && (Leaves(e, step, a) ==> act'.reason == Some(ReasonOf(step)))
    && (!Leaves(e, step, a) ==> act'.reason == act.reason)
    && act'.skip == (act.skip || (step.BeginKill? && e.stage != Killing && act.published && act.life != Stopped))
    && (if StartsHook(e, step, a) then act.reason.Some? && act'.hooks == act.hooks + [act.reason.value]
        else act'.hooks == act.hooks)
    && act'.box == (if Mails(e, step, a) then M.Next(act.box, MailStep(step).value) else act.box)
    && WaiterMoves(e, step, a, act'.waiter) && CallsMove(e, step, a, act')
  }

  ghost predicate WaiterMoves(e: Engine, step: Step, a: nat, waiter: Waiter)
    requires a < |e.acts|
  {
    var act := e.acts[a];
    waiter == (
      if Leaves(e, step, a) then Waiting
      else if StartsHook(e, step, a) then Hooking
      else if step == Decide(a) && act.waiter == Waiting && act.box.worker == M.Done then HookOver
      else if step == HookReturns(a) && act.waiter == Hooking then HookOver
      else if Stops(e, step, a) then Retired
      else if step == Retire(a) && act.waiter == Retired then Gone
      else act.waiter)
  }

  ghost predicate CallsMove(e: Engine, step: Step, a: nat, act': Act)
    requires a < |e.acts|
  {
    var act := e.acts[a];
    var admitted := step.Admit? && step.a == a && act.life == Active && act.published;
    && act'.calls == act.calls + (if admitted then 1 else if step == CallFinished(a) then -1 else 0)
    && act'.lastUsed == (if admitted then step.now else act.lastUsed)
    && act'.doneCloses == act.doneCloses + (if Stops(e, step, a) then 1 else 0)
  }

  /** Steps on one activation. */
  predicate Pointed(step: Step) {
    || step.Admit? || step.CallFinished? || step.Fault? || step.CloseBox? || step.Mail? || step.Work?
    || step.Decide? || step.HookReturns? || step.Finish? || step.Retire?
  }

  /** Steps that begin the deactivation of one or more activations. */
  predicate Sweeping(step: Step) {
    step.Deactivate? || step.Evict? || step.BeginClose? || step.BeginKill?
  }

  lemma Untouched(e: Engine, step: Step, a: nat)
    requires a < |e.acts| && (Pointed(step) ==> step.a != a) && (Sweeping(step) ==> !Leaves(e, step, a) && !step.BeginKill?)
    ensures Becomes(e, step, a, e.acts[a])
  {
  }

  lemma CallBecomes(e: Engine, step: Step, a: nat)
    requires a < |e.acts| && (step.Admit? || step.CallFinished?) && step.a == a
    ensures Becomes(e, step, a, Local(e, a, step).acts[a])
  {
  }

  lemma MailBecomes(e: Engine, step: Step, a: nat)
    requires a < |e.acts| && (step.CloseBox? || step.Mail? || step.Work?) && step.a == a
    ensures Becomes(e, step, a, Local(e, a, step).acts[a])
  {
    MailIs(e, step, a);
    MailedBecomes(e, step, a);
  }

  function Mailed(e: Engine, step: Step, a: nat): Act
    requires a < |e.acts| && MailStep(step).Some?
  {
    if Mails(e, step, a) then e.acts[a].(box := M.Next(e.acts[a].box, MailStep(step).value)) else e.acts[a]
  }

  lemma MailIs(e: Engine, step: Step, a: nat)
    requires a < |e.acts| && (step.CloseBox? || step.Mail? || step.Work?) && step.a == a
    ensures Local(e, a, step).acts[a] == Mailed(e, step, a)
  {
  }

  lemma MailedBecomes(e: Engine, step: Step, a: nat)
    requires a < |e.acts| && (step.CloseBox? || step.Mail? || step.Work?) && step.a == a
    ensures Becomes(e, step, a, Mailed(e, step, a))
  {
  }

  lemma DecideBecomes(e: Engine, step: Step, a: nat)
    requires a < |e.acts| && ActOk(e.acts[a], e.stage) && (step.Decide? || step.HookReturns?) && step.a == a
    ensures Becomes(e, step, a, Local(e, a, step).acts[a])
  {
  }

  lemma FinishBecomes(e: Engine, step: Step, a: nat)
    requires a < |e.acts| && ActOk(e.acts[a], e.stage) && step.Finish? && step.a == a
    ensures Becomes(e, step, a, Local(e, a, step).acts[a])
  {
    FinishIs(e, step, a);
    StoppedBecomes(e, step, a);
  }

  function Finishing(act: Act): Act {
    if act.waiter == HookOver then act.(life := Stopped, doneCloses := act.doneCloses + 1, waiter := Retired) else act
  }

  lemma FinishIs(e: Engine, step: Step, a: nat)
    requires a < |e.acts| && ActOk(e.acts[a], e.stage) && step.Finish?
    ensures Local(e, a, step).acts[a] == Finishing(e.acts[a])
  {
  }

  lemma StoppedBecomes(e: Engine, step: Step, a: nat)
    requires a < |e.acts| && step.Finish? && step.a == a
    ensures Becomes(e, step, a, Finishing(e.acts[a]))
  {
  }

  lemma RetireBecomes(e: Engine, step: Step, a: nat)
    requires a < |e.acts| && ActOk(e.acts[a], e.stage) && step.Retire? && step.a == a
    ensures Becomes(e, step, a, Local(e, a, step).acts[a])
  {
    RetireIs(e, step, a);
    GoneBecomes(e, step, a);
  }

  function Retiring(act: Act): Act {
    if act.waiter == Retired then act.(waiter := Gone) else act
  }

  lemma RetireIs(e: Engine, step: Step, a: nat)
    requires a < |e.acts| && step.Retire?
    ensures Local(e, a, step).acts[a] == Retiring(e.acts[a])
  {
  }

  lemma GoneBecomes(e: Engine, step: Step, a: nat)
    requires a < |e.acts| && step.Retire? && step.a == a
    ensures Becomes(e, step, a, Retiring(e.acts[a]))
  {
  }

  lemma FaultBecomes(e: Engine, step: Step, a: nat)
    requires a < |e.acts| && step.Fault? && step.a == a
    ensures Becomes(e, step, a, Local(e, a, step).acts[a])
  {
  }

  lemma PointedBecomes(e: Engine, step: Step, a: nat)
    requires Inv(e) && a < |e.acts| && Pointed(step) && step.a == a
    ensures Becomes(e, step, a, Local(e, a, step).acts[a])
  {
    assert ActOk(e.acts[a], e.stage);
    if step.Admit? || step.CallFinished? {
      CallBecomes(e, step, a);
    } else if step.CloseBox? || step.Mail? || step.Work? {
      MailBecomes(e, step, a);
    } else if step.Decide? || step.HookReturns? {
      DecideBecomes(e, step, a);
    } else if step.Finish? {
      FinishBecomes(e, step, a);
    } else if step.Retire? {
      RetireBecomes(e, step, a);
    } else {
      FaultBecomes(e, step, a);
    }
  }

  /** A step on one activation leaves the others alone. */
  lemma OthersStay(e: Engine, b: nat, step: Step, a: nat)
    requires a < |e.acts| && b < |e.acts| && a != b
    ensures |Local(e, b, step).acts| == |e.acts| && Local(e, b, step).acts[a] == e.acts[a]
  {
  }

  // ---- many at once ----------------------------------------------------------------------------------------

  lemma InTableIff(e: Engine, a: nat)
    requires TableOk(e) && a < |e.acts|
    ensures InTable(e, a) <==> e.acts[a].published && e.acts[a].life != Stopped
  {
    if InTable(e, a) {
      assert Serves(e.acts[e.table[e.acts[a].id]], e.acts[a].id);
    }
  }

  /** The deactivation of those of `who` that are active. */
  lemma BegunBecomes(e: Engine, step: Step, a: nat, who: set<nat>, reason: Reason)
    requires a < |e.acts| && Sweeping(step) && !step.BeginKill? && reason == ReasonOf(step)
    requires Leaves(e, step, a) <==> a in who && e.acts[a].life == Active
    ensures Becomes(e, step, a, BeginAll(e, who, reason).acts[a])
  {
  }

  lemma DeactivateBecomes(e: Engine, step: Step, a: nat)
    requires TableOk(e) && a < |e.acts| && step.Deactivate?
    ensures |Next(e, step).acts| == |e.acts| && Becomes(e, step, a, Next(e, step).acts[a])
  {
    InTableIff(e, a);
    if step.id in e.table {
      assert Serves(e.acts[e.table[step.id]], step.id);
      BegunBecomes(e, step, a, {e.table[step.id]}, OwnershipLost);
    } else {
      Untouched(e, step, a);
    }
  }

  lemma EvictBecomes(e: Engine, step: Step, a: nat)
    requires TableOk(e) && a < |e.acts| && step.Evict?
    ensures |Next(e, step).acts| == |e.acts| && Becomes(e, step, a, Next(e, step).acts[a])
  {
    InTableIff(e, a);
    if e.stage == Running {
      BegunBecomes(e, step, a, Victims(e, step.now, step.timeout), Idle);
    } else {
      Untouched(e, step, a);
    }
  }

  lemma CloseBecomes(e: Engine, step: Step, a: nat)
    requires TableOk(e) && a < |e.acts| && step.BeginClose?
    ensures |Next(e, step).acts| == |e.acts| && Becomes(e, step, a, Next(e, step).acts[a])
  {
    InTableIff(e, a);
    if e.stage == Running {
      BegunBecomes(e, step, a, Current(e), RuntimeClosed);
      assert Current(CloseMarked(e)) == Current(e);
      assert Next(e, step).acts[a] == BeginAll(e, Current(e), RuntimeClosed).acts[a];
    } else {
      Untouched(e, step, a);
    }
  }

  /** What a kill makes of an activation. */
  function Killed(e: Engine, a: nat): Act
    requires a < |e.acts|
  {
    var act := if e.stage != Killing && InTable(e, a) then e.acts[a].(skip := true) else e.acts[a];
    if e.stage == Running && InTable(e, a) then Begun(act, RuntimeClosed) else act
  }

  lemma KillIs(e: Engine, a: nat)
    requires a < |e.acts|
    ensures |BeganKill(e).acts| == |e.acts| && BeganKill(e).acts[a] == Killed(e, a)
  {
    if e.stage == Running {
      var mid := KillMarked(e);
      assert a in Current(mid) <==> InTable(e, a);
      assert BeganKill(e).acts == BeginAll(SkipHooks(mid), Current(mid), RuntimeClosed).acts;
    }
  }

  lemma KillBecomes(e: Engine, step: Step, a: nat)
    requires TableOk(e) && a < |e.acts| && step.BeginKill?
    ensures |Next(e, step).acts| == |e.acts| && Becomes(e, step, a, Next(e, step).acts[a])
  {
    InTableIff(e, a);
    KillIs(e, a);
    KilledBecomes(e, step, a);
  }

  lemma KilledBecomes(e: Engine, step: Step, a: nat)
    requires a < |e.acts| && step.BeginKill? && (InTable(e, a) <==> e.acts[a].published && e.acts[a].life != Stopped)
    ensures Becomes(e, step, a, Killed(e, a))
  {
  }

  lemma SweepBecomes(e: Engine, step: Step, a: nat)
    requires TableOk(e) && a < |e.acts| && Sweeping(step)
    ensures a < |Next(e, step).acts| && Becomes(e, step, a, Next(e, step).acts[a])
  {
    match step {
      case Deactivate(_) => DeactivateBecomes(e, step, a);
      case Evict(_, _) => EvictBecomes(e, step, a);
      case BeginClose => CloseBecomes(e, step, a);
      case BeginKill => KillBecomes(e, step, a);
    }
  }

  lemma QuietBecomes(e: Engine, step: Step, a: nat)
    requires a < |e.acts| && !Sweeping(step) && !Pointed(step)
    ensures a < |Next(e, step).acts| && Becomes(e, step, a, Next(e, step).acts[a])
  {
    Untouched(e, step, a);
    assert Next(e, step).acts[a] == e.acts[a];
  }

  lemma PointerBecomes(e: Engine, step: Step, a: nat)
    requires Inv(e) && a < |e.acts| && Pointed(step)
    ensures a < |Next(e, step).acts| && Becomes(e, step, a, Next(e, step).acts[a])
  {
    if step.a == a {
      PointedBecomes(e, step, a);
      PointedIsLocal(e, step);
      PointedAddsNothing(e, step);
    } else {
      Untouched(e, step, a);
      PointedElsewhere(e, step, a);
    }
  }

  lemma PointedIsLocal(e: Engine, step: Step)
    requires Pointed(step) && step.a < |e.acts|
    ensures Next(e, step) == Local(e, step.a, step)
  {
  }

  lemma PointedElsewhere(e: Engine, step: Step, a: nat)
    requires Pointed(step) && a < |e.acts| && step.a != a
    ensures a < |Next(e, step).acts| && Next(e, step).acts[a] == e.acts[a]
  {
    if step.a < |e.acts| {
      PointedIsLocal(e, step);
      OthersStay(e, step.a, step, a);
    }
  }

  lemma StepBecomes(e: Engine, step: Step, a: nat)
    requires Inv(e) && a < |e.acts|
    ensures a < |Next(e, step).acts| && Becomes(e, step, a, Next(e, step).acts[a])
  {
    if Pointed(step) {
      PointerBecomes(e, step, a);
    } else if Sweeping(step) {
      SweepBecomes(e, step, a);
    } else {
      QuietBecomes(e, step, a);
    }
  }

  /** In every run, what every step makes of every activation: it leaves service exactly when
      one of the four causes applies to it, with that cause as its reason; its hook starts,
      it stops, its mailbox and its counter move exactly as the step says. */
  lemma ActivationBecomes(evicting: bool, steps: seq<Step>, step: Step, a: nat)
    requires a < |Run(Fresh(evicting), steps).acts|
    ensures var e := Run(Fresh(evicting), steps);
      a < |Next(e, step).acts| && Becomes(e, step, a, Next(e, step).acts[a])
  {
    Reached(evicting, steps);
    StepBecomes(Run(Fresh(evicting), steps), step, a);
  }

  // ---- creations ----------------------------------------------------------------------------------------------

  /** The Grain has an activation that has not stopped. */
  ghost predicate Alive(e: Engine, id: GrainId) {
    exists a :: 0 <= a < |e.acts| && Serves(e.acts[a], id)
  }

  lemma AliveIff(e: Engine, id: GrainId)
    requires TableOk(e)
    ensures Alive(e, id) <==> id in e.table
  {
    if a :| 0 <= a < |e.acts| && Serves(e.acts[a], id) {
      InTableIff(e, a);
    }
    if id in e.table {
      assert Serves(e.acts[e.table[id]], id);
    }
  }

  /** In every run a factory starts exactly when a lookup finds the engine running and neither
      a live activation nor a creation of the Grain, and it is under way until it returns. */
  lemma FactoryStartsIff(evicting: bool, steps: seq<Step>, step: Step, id: GrainId)
    ensures var e := Run(Fresh(evicting), steps);
      id in Next(e, step).pending <==>
        || (id in e.pending && !(step.FactoryReturns? && step.id == id))
        || (step == Lookup(id) && e.stage == Running && !Alive(e, id))
  {
    Reached(evicting, steps);
    var e := Run(Fresh(evicting), steps);
    AliveIff(e, id);
    if step.Lookup? {
      LookupKeepsInv(e, step.id);
    }
    PendingMoves(e, step, id);
  }

  lemma PendingMoves(e: Engine, step: Step, id: GrainId)
    requires TableOk(e)
    ensures id in Next(e, step).pending <==>
      || (id in e.pending && !(step.FactoryReturns? && step.id == id))
      || (step == Lookup(id) && e.stage == Running && id !in e.table)
  {
    if Pointed(step) && step.a < |e.acts| {
      assert Local(e, step.a, step).pending == e.pending;
    }
    if step.Lookup? && step.id in e.table {
      assert Serves(e.acts[e.table[step.id]], step.id);
    }
  }

  /** In every run a new activation appears exactly when a factory under way returns an
      instance; it is fresh, and published exactly if the engine is still running. */
  lemma CreatedIff(evicting: bool, steps: seq<Step>, step: Step)
    ensures var e := Run(Fresh(evicting), steps); var e' := Next(e, step); var n := |e.acts|;
      if step.FactoryReturns? && step.ok && step.id in e.pending
      then
        && |e'.acts| == n + 1
        && var act := e'.acts[n];
           && act.id == step.id && act.hooked == step.hooked && act.life == Active && act.hooks == [] && !act.skip
           && (act.published <==> e.stage == Running) && act.calls == 0 && act.lastUsed == step.now
           && !act.box.closed && act.box.capacity == step.capacity && act.box.accepted == [] && act.box.worker == M.Receiving
           && (act.published ==> InTable(e', n))
      else |e'.acts| == n
  {
    Reached(evicting, steps);
    var e := Run(Fresh(evicting), steps);
    if step.FactoryReturns? {
      FactoryAdds(e, step);
    } else {
      NothingAdded(e, step);
    }
  }

  lemma NothingAdded(e: Engine, step: Step)
    requires !step.FactoryReturns?
    ensures |Next(e, step).acts| == |e.acts|
  {
    if Pointed(step) && step.a < |e.acts| {
      PointedAddsNothing(e, step);
    }
  }

  lemma PointedAddsNothing(e: Engine, step: Step)
    requires Pointed(step) && step.a < |e.acts|
    ensures |Local(e, step.a, step).acts| == |e.acts|
  {
  }

  lemma FactoryAdds(e: Engine, step: Step)
    requires Inv(e) && step.FactoryReturns?
    ensures var e' := Next(e, step); var n := |e.acts|;
      if step.ok && step.id in e.pending
      then
        && |e'.acts| == n + 1
        && e'.acts[n] == Act(step.id, Active, None, false, step.hooked, e.stage == Running,
                             M.Box(step.capacity, [], false, M.Receiving, [], [], []), 0, step.now, NoWaiter, [], 0)
        && (e.stage == Running ==> InTable(e', n))
      else |e'.acts| == n
  {
  }

  // ---- hooks ------------------------------------------------------------------------------------------------------

  /** Without a kill nothing is skipped, and past the waiting stage the hook has been called. */
  ghost predicate HookOk(act: Act, stage: Stage) {
    stage != Killing ==>
      && !act.skip
      && (act.waiter != NoWaiter && act.waiter != Waiting ==>
            act.reason.Some? && act.hooks == if act.hooked then [act.reason.value] else [])
  }

  ghost predicate HooksOk(e: Engine) {
    forall a :: 0 <= a < |e.acts| ==> HookOk(e.acts[a], e.stage)
  }

  lemma HookStays(e: Engine, step: Step, a: nat, act': Act, stage': Stage)
    requires a < |e.acts| && ActOk(e.acts[a], e.stage) && HookOk(e.acts[a], e.stage) && Becomes(e, step, a, act')
    requires stage' != Killing ==> e.stage != Killing && !step.BeginKill?
    ensures HookOk(act', stage')
  {
  }

  lemma StageMoves(e: Engine, step: Step)
    ensures Next(e, step).stage ==
      if step.BeginKill? then Killing else if step.BeginClose? && e.stage == Running then Closing else e.stage
  {
  }

  lemma StepKeepsHooks(e: Engine, step: Step)
    requires Inv(e) && HooksOk(e) && (forall b :: |e.acts| <= b < |Next(e, step).acts| ==> HookOk(Next(e, step).acts[b], Next(e, step).stage))
    ensures HooksOk(Next(e, step))
  {
    var e' := Next(e, step);
    StageMoves(e, step);
    forall a | 0 <= a < |e'.acts| ensures HookOk(e'.acts[a], e'.stage) {
      if a < |e.acts| {
        StepBecomes(e, step, a);
        assert ActOk(e.acts[a], e.stage);
        HookStays(e, step, a, e'.acts[a], e'.stage);
      }
    }
  }

  lemma {:induction false} RunKeepsHooks(evicting: bool, steps: seq<Step>)
    ensures HooksOk(Run(Fresh(evicting), steps))
  {
    if steps != [] {
      var init, step := steps[..|steps| - 1], steps[|steps| - 1];
      var e := Run(Fresh(evicting), init);
      assert steps == init + [step];
      RunKeepsHooks(evicting, init);
      Reached(evicting, init);
      RunAppends(Fresh(evicting), init, step);
      CreatedIff(evicting, init, step);
      NewActsOk(evicting, init, step);
      StepKeepsHooks(e, step);
    }
  }

  lemma NewActsOk(evicting: bool, steps: seq<Step>, step: Step)
    ensures var e := Run(Fresh(evicting), steps); var e' := Next(e, step);
      forall b :: |e.acts| <= b < |e'.acts| ==> HookOk(e'.acts[b], e'.stage)
  {
    CreatedIff(evicting, steps, step);
  }

  /** In every run the hook of an activation is called by a step if and only if its waiter
      finds the worker gone, there is a hook, and the engine has not been killed; it is
      called with the reason recorded. */
  lemma HookStartsIff(evicting: bool, steps: seq<Step>, step: Step, a: nat)
    requires a < |Run(Fresh(evicting), steps).acts|
    ensures var e := Run(Fresh(evicting), steps); var e' := Next(e, step); var act := e.acts[a];
      && a < |e'.acts|
      && if step == Decide(a) && act.waiter == Waiting && act.box.worker == M.Done && act.hooked && e.stage != Killing
         then act.reason.Some? && e'.acts[a].hooks == [act.reason.value]
         else e'.acts[a].hooks == act.hooks
  {
    var e := Run(Fresh(evicting), steps);
    Reached(evicting, steps);
    StepBecomes(e, step, a);
    RunKeepsHooks(evicting, steps);
    assert ActOk(e.acts[a], e.stage) && HookOk(e.acts[a], e.stage);
  }

  /** In every run without a kill, every activation that has stopped had its hook called,
      once and with the reason for which it was stopped, if it has one. */
  lemma StoppedHadItsHook(evicting: bool, steps: seq<Step>, a: nat)
    requires var e := Run(Fresh(evicting), steps); a < |e.acts| && e.acts[a].life == Stopped && e.killingCloses == 0
    ensures var act := Run(Fresh(evicting), steps).acts[a];
      act.reason.Some? && act.hooks == if act.hooked then [act.reason.value] else []
  {
    var e := Run(Fresh(evicting), steps);
    Reached(evicting, steps);
    RunKeepsHooks(evicting, steps);
    assert ActOk(e.acts[a], e.stage) && HookOk(e.acts[a], e.stage);
  }

  // ---- the end ----------------------------------------------------------------------------------------------------

  /** In every run, once a stop has begun and the eviction loop is gone, the drain closes
      `done` if and only if no deactivation is under way or the engine was killed. */
  lemma DoneClosesIff(evicting: bool, steps: seq<Step>)
    requires var e := Run(Fresh(evicting), steps); e.stage != Running && e.loopExited && e.drain != Over
    ensures var e := Run(Fresh(evicting), steps); var last := Next(Next(e, DrainReads), DrainEnds);
      last.doneCloses == 1 <==> BusySet(e.acts) == {} || e.stage == Killing
  {
    Reached(evicting, steps);
    var e := Run(Fresh(evicting), steps);
    assert e.waiting == 0 <==> BusySet(e.acts) == {};
    DrainCloses(e);
  }

  lemma DrainCloses(e: Engine)
    requires SignalsOk(e) && e.stage != Running && e.loopExited && e.drain != Over
    ensures Next(Next(e, DrainReads), DrainEnds).doneCloses == 1 <==> e.waiting == 0 || e.stage == Killing
  {
  }
}
