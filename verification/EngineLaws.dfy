/** What holds of the activation engine in every run: one activation per Grain, hooks
    after the last body and at most once, and stop signals that close once. */
module EngineLaws {
  import opened Basics
  import M = Mailbox
  import opened Engine

  // ---- one activation changes -----------------------------------------------------------------

  /** The change keeps the identity, the life and the waiter's business. */
  predicate SameRole(x: Act, y: Act) {
    x.id == y.id && x.life == y.life && x.published == y.published && Busy(x) == Busy(y)
  }

  lemma SameTable(e: Engine, e': Engine)
    requires TableOk(e) && e'.acts == e.acts && e'.table == e.table && e'.pending == e.pending
    ensures TableOk(e')
  {
    forall b | 0 <= b < |e'.acts| && e'.acts[b].published && e'.acts[b].life != Stopped ensures InTable(e', b) {
      assert InTable(e, b);
    }
  }

  lemma SetKeepsInv(e: Engine, a: nat, act: Act)
    requires Inv(e) && a < |e.acts| && SameRole(e.acts[a], act) && ActOk(act, e.stage)
    ensures Inv(Set(e, a, act))
  {
    var e' := Set(e, a, act);
    assert BusySet(e'.acts) == BusySet(e.acts);
    forall b | 0 <= b < |e'.acts| && e'.acts[b].published && e'.acts[b].life != Stopped ensures InTable(e', b) {
      assert InTable(e, b);
    }
  }

  lemma MailStepOk(act: Act, stage: Stage, step: M.Step)
    requires ActOk(act, stage) && (step.Close? ==> act.life != Active || !act.published)
    ensures ActOk(act.(box := M.Next(act.box, step)), stage)
  {
    M.StepKeepsInv(act.box, step);
    if act.box.worker == M.Done {
      assert M.Next(act.box, step) == act.box;
    }
  }

  lemma DecidedOk(act: Act, stage: Stage)
    requires ActOk(act, stage) && act.waiter == Waiting && act.box.worker == M.Done
    ensures ActOk(Decided(act), stage) && SameRole(act, Decided(act))
  {
  }

  // ---- deactivations begin -----------------------------------------------------------------------

  lemma BeginBusy(e: Engine, who: set<nat>, reason: Reason)
    requires forall a :: 0 <= a < |e.acts| && e.acts[a].life == Active ==> !Busy(e.acts[a])
    ensures |BusySet(BeginAll(e, who, reason).acts)| == |BusySet(e.acts)| + |Startable(e, who)|
  {
    var before, started := BusySet(e.acts), Startable(e, who);
    assert BusySet(BeginAll(e, who, reason).acts) == before + started;
    assert before !! started;
  }

  lemma BeginTable(e: Engine, who: set<nat>, reason: Reason)
    requires TableOk(e)
    ensures TableOk(BeginAll(e, who, reason))
  {
    var e' := BeginAll(e, who, reason);
    forall b | 0 <= b < |e'.acts| && e'.acts[b].published && e'.acts[b].life != Stopped ensures InTable(e', b) {
      assert InTable(e, b);
    }
  }

  lemma BegunOk(act: Act, reason: Reason)
    requires ActOk(act, Running) && (act.life == Active ==> act.published)
    ensures ActOk(Begun(act, reason), Running)
  {
  }

  /** Ownership loss, idle eviction and faults. */
  lemma BeginKeepsInv(e: Engine, who: set<nat>, reason: Reason)
    requires Inv(e) && (forall a :: a in who && a < |e.acts| ==> e.acts[a].published)
    ensures Inv(BeginAll(e, who, reason))
  {
    var e' := BeginAll(e, who, reason);
    BeginTable(e, who, reason);
    BeginBusy(e, who, reason);
    if e.stage != Running {
      assert Startable(e, who) == {};
    }
    forall a | 0 <= a < |e'.acts| ensures ActOk(e'.acts[a], e.stage) {
      assert ActOk(e.acts[a], e.stage);
      if e.stage == Running && a in who {
        BegunOk(e.acts[a], reason);
      }
    }
  }

  // ---- stops -----------------------------------------------------------------------------------------

  lemma StoppingActOk(act: Act, current: bool)
    requires ActOk(act, Running) && (act.published && act.life != Stopped ==> current) && (current ==> act.published)
    ensures ActOk(if current then Begun(act, RuntimeClosed) else act, Closing)
    ensures ActOk(if current then Begun(act.(skip := true), RuntimeClosed) else act, Killing)
  {
  }

  /** The state in which a stop has begun every deactivation but not yet armed the channel. */
  ghost predicate Stopping(e: Engine) {
    && ActsOk(e.acts, e.stage) && TableOk(e)
    && e.waiting == |BusySet(e.acts)| && e.stage != Running && e.drain == AwaitLoop
    && e.stopCloses == 1 && e.killingCloses == (if e.stage == Killing then 1 else 0)
    && e.deactivationsCloses == 0 && e.doneCloses == 0
  }

  lemma ArmKeepsInv(e: Engine)
    requires Stopping(e)
    ensures Inv(ArmDone(e))
  {
  }

  lemma CloseActsOk(mid: Engine)
    requires ActsOk(mid.acts, Running) && TableOk(mid)
    ensures ActsOk(BeginAll(mid, Current(mid), RuntimeClosed).acts, Closing)
  {
    forall a | 0 <= a < |mid.acts| ensures ActOk(BeginAll(mid, Current(mid), RuntimeClosed).acts[a], Closing) {
      StoppingActOk(mid.acts[a], InTable(mid, a));
    }
  }

  lemma CloseKeepsInv(e: Engine)
    requires Inv(e)
    ensures Inv(BeganClose(e))
  {
    if e.stage == Running {
      var mid := CloseMarked(e);
      SameTable(e, mid);
      BeginTable(mid, Current(mid), RuntimeClosed);
      BeginBusy(mid, Current(mid), RuntimeClosed);
      CloseActsOk(mid);
      ArmKeepsInv(BeginAll(mid, Current(mid), RuntimeClosed));
    }
  }

  lemma SkipKeepsShape(e: Engine)
    requires TableOk(e)
    ensures TableOk(SkipHooks(e)) && BusySet(SkipHooks(e).acts) == BusySet(e.acts)
  {
    var e' := SkipHooks(e);
    forall b | 0 <= b < |e'.acts| && e'.acts[b].published && e'.acts[b].life != Stopped ensures InTable(e', b) {
      assert InTable(e, b);
    }
  }

  lemma KillActsOk(mid: Engine)
    requires ActsOk(mid.acts, Running) && TableOk(mid)
    ensures ActsOk(BeginAll(SkipHooks(mid), Current(mid), RuntimeClosed).acts, Killing)
  {
    forall a | 0 <= a < |mid.acts| ensures ActOk(BeginAll(SkipHooks(mid), Current(mid), RuntimeClosed).acts[a], Killing) {
      StoppingActOk(mid.acts[a], InTable(mid, a));
    }
  }

  lemma KillRunningKeepsInv(e: Engine)
    requires Inv(e) && e.stage == Running
    ensures Inv(BeganKill(e))
  {
    var mid := KillMarked(e);
    var skipped := SkipHooks(mid);
    SameTable(e, mid);
    SkipKeepsShape(mid);
    BeginTable(skipped, Current(mid), RuntimeClosed);
    BeginBusy(skipped, Current(mid), RuntimeClosed);
    KillActsOk(mid);
    ArmKeepsInv(BeginAll(skipped, Current(mid), RuntimeClosed));
  }

  lemma SkippedActOk(act: Act, current: bool)
    requires ActOk(act, Closing) && (act.published && act.life != Stopped ==> current)
    ensures ActOk(if current then act.(skip := true) else act, Killing)
  {
  }

  lemma SkipActsOk(mid: Engine)
    requires ActsOk(mid.acts, Closing) && TableOk(mid)
    ensures ActsOk(SkipHooks(mid).acts, Killing)
  {
    forall a | 0 <= a < |mid.acts| ensures ActOk(SkipHooks(mid).acts[a], Killing) {
      SkippedActOk(mid.acts[a], InTable(mid, a));
    }
  }

  lemma KillClosingKeepsInv(e: Engine)
    requires Inv(e) && e.stage == Closing
    ensures Inv(BeganKill(e))
  {
    var mid := e.(stage := Killing, killingCloses := e.killingCloses + 1);
    SameTable(e, mid);
    SkipKeepsShape(mid);
    SkipActsOk(mid);
    assert BeganKill(e) == SkipHooks(mid);
    KillClosingSignals(e, mid);
  }

  lemma KillClosingSignals(e: Engine, mid: Engine)
    requires SignalsOk(e) && e.stage == Closing && mid == e.(stage := Killing, killingCloses := e.killingCloses + 1)
    requires BusySet(SkipHooks(mid).acts) == BusySet(e.acts)
    ensures SignalsOk(SkipHooks(mid))
  {
  }

  // ---- creations and endings ---------------------------------------------------------------------------

  lemma FreshActOk(id: GrainId, hooked: bool, published: bool, capacity: nat, now: int, stage: Stage)
    requires published ==> stage == Running
    ensures ActOk(NewAct(id, hooked, published, capacity, now), stage)
  {
  }

  lemma AddKeepsInv(e: Engine, act: Act)
    requires Inv(e) && ActOk(act, e.stage) && !act.published && act.life == Active
    ensures Inv(e.(acts := e.acts + [act]))
  {
    var e' := e.(acts := e.acts + [act]);
    assert BusySet(e'.acts) == BusySet(e.acts);
    forall b | 0 <= b < |e'.acts| && e'.acts[b].published && e'.acts[b].life != Stopped ensures InTable(e', b) {
      assert InTable(e, b);
    }
  }

  lemma PublishKeepsInv(e: Engine, act: Act)
    requires Inv(e) && ActOk(act, e.stage) && act.published && act.life == Active
    requires act.id !in e.table && act.id !in e.pending
    ensures Inv(e.(acts := e.acts + [act], table := e.table[act.id := |e.acts|]))
  {
    var e' := e.(acts := e.acts + [act], table := e.table[act.id := |e.acts|]);
    assert BusySet(e'.acts) == BusySet(e.acts);
    PublishKeepsTable(e, act);
  }

  lemma PublishKeepsTable(e: Engine, act: Act)
    requires TableOk(e) && act.published && act.life == Active && act.id !in e.table && act.id !in e.pending
    ensures TableOk(e.(acts := e.acts + [act], table := e.table[act.id := |e.acts|]))
  {
    var e' := e.(acts := e.acts + [act], table := e.table[act.id := |e.acts|]);
    forall b | 0 <= b < |e'.acts| && e'.acts[b].published && e'.acts[b].life != Stopped ensures InTable(e', b) {
      if b < |e.acts| {
        assert InTable(e, b);
      }
    }
  }

  lemma CreateKeepsInv(e: Engine, id: GrainId, ok: bool, hooked: bool, capacity: nat, now: int)
    requires Inv(e)
    ensures Inv(Created(e, id, ok, hooked, capacity, now))
  {
    var settled := e.(pending := e.pending - {id});
    assert Inv(settled);
    if id in e.pending && ok {
      var act := NewAct(id, hooked, e.stage == Running, capacity, now);
      FreshActOk(id, hooked, e.stage == Running, capacity, now, e.stage);
      if e.stage == Running {
        PublishKeepsInv(settled, act);
      } else {
        AddKeepsInv(settled, act);
      }
    }
  }

  /** A stopped activation is never found in the table: that branch of the lookup is dead. */
  lemma LookupKeepsInv(e: Engine, id: GrainId)
    requires Inv(e)
    ensures Inv(LookedUp(e, id))
    ensures id in e.table ==> LookedUp(e, id) == e
  {
    if id !in e.table {
      assert e.table - {id} == e.table;
    }
  }

  /** Ending one activation and taking it out of the table. */
  lemma FinishKeepsTable(e: Engine, a: nat)
    requires TableOk(e) && a < |e.acts| && e.acts[a].life == Deactivating && e.acts[a].published
    ensures TableOk(Finished(e, a))
  {
    var e' := Finished(e, a);
    assert InTable(e, a);
    forall b | 0 <= b < |e'.acts| && e'.acts[b].published && e'.acts[b].life != Stopped ensures InTable(e', b) {
      assert InTable(e, b);
    }
  }

  lemma FinishKeepsInv(e: Engine, a: nat)
    requires Inv(e) && a < |e.acts| && e.acts[a].waiter == HookOver
    ensures Inv(Finished(e, a))
  {
    var e' := Finished(e, a);
    assert ActOk(e.acts[a], e.stage);
    FinishKeepsTable(e, a);
    assert BusySet(e'.acts) == BusySet(e.acts);
    assert ActOk(e'.acts[a], e.stage);
  }

  lemma RetireKeepsTable(e: Engine, a: nat)
    requires TableOk(e) && a < |e.acts| && e.acts[a].life == Stopped
    ensures TableOk(WaiterGone(e, a))
  {
    var e' := WaiterGone(e, a);
    forall b | 0 <= b < |e'.acts| && e'.acts[b].published && e'.acts[b].life != Stopped ensures InTable(e', b) {
      assert InTable(e, b);
    }
  }

  lemma RetireKeepsSignals(e: Engine, a: nat)
    requires SignalsOk(e) && a < |e.acts| && e.acts[a].waiter == Retired
    ensures SignalsOk(WaiterGone(e, a))
  {
    var e' := WaiterGone(e, a);
    assert BusySet(e.acts) == BusySet(e'.acts) + {a} && a !in BusySet(e'.acts);
  }

  lemma RetireKeepsInv(e: Engine, a: nat)
    requires Inv(e) && a < |e.acts| && e.acts[a].waiter == Retired
    ensures Inv(WaiterGone(e, a))
  {
    assert ActOk(e.acts[a], e.stage);
    RetireKeepsTable(e, a);
    RetireKeepsSignals(e, a);
    assert ActOk(e.acts[a].(waiter := Gone), e.stage);
  }

  // ---- every step -----------------------------------------------------------------------------------------

  lemma MailKeepsInv(e: Engine, a: nat, step: M.Step)
    requires Inv(e) && a < |e.acts| && (step.Close? ==> e.acts[a].life != Active || !e.acts[a].published)
    ensures Inv(Set(e, a, e.acts[a].(box := M.Next(e.acts[a].box, step))))
  {
    assert ActOk(e.acts[a], e.stage);
    MailStepOk(e.acts[a], e.stage, step);
    SetKeepsInv(e, a, e.acts[a].(box := M.Next(e.acts[a].box, step)));
  }

  lemma AdmitKeepsInv(e: Engine, a: nat, now: int)
    requires Inv(e) && a < |e.acts|
    ensures Inv(Set(e, a, Admitted(e.acts[a], now)))
  {
    assert ActOk(e.acts[a], e.stage);
    SetKeepsInv(e, a, Admitted(e.acts[a], now));
  }

  lemma CallEndKeepsInv(e: Engine, a: nat)
    requires Inv(e) && a < |e.acts|
    ensures Inv(Set(e, a, CallEnded(e.acts[a])))
  {
    assert ActOk(e.acts[a], e.stage);
    SetKeepsInv(e, a, CallEnded(e.acts[a]));
  }

  lemma DecideKeepsInv(e: Engine, a: nat)
    requires Inv(e) && a < |e.acts| && e.acts[a].waiter == Waiting && e.acts[a].box.worker == M.Done
    ensures Inv(Set(e, a, Decided(e.acts[a])))
  {
    assert ActOk(e.acts[a], e.stage);
    DecidedOk(e.acts[a], e.stage);
    SetKeepsInv(e, a, Decided(e.acts[a]));
  }

  lemma HookKeepsInv(e: Engine, a: nat)
    requires Inv(e) && a < |e.acts| && e.acts[a].waiter == Hooking
    ensures Inv(Set(e, a, HookEnded(e.acts[a])))
  {
    assert ActOk(e.acts[a], e.stage);
    SetKeepsInv(e, a, HookEnded(e.acts[a]));
  }

  lemma CloseStepKeepsInv(e: Engine, a: nat, step: Step)
    requires Inv(e) && a < |e.acts| && step.CloseBox?
    ensures Inv(Local(e, a, step))
  {
    if e.acts[a].life != Active || !e.acts[a].published {
      MailKeepsInv(e, a, M.Close);
    }
  }

  lemma BoxStepKeepsInv(e: Engine, a: nat, step: Step)
    requires Inv(e) && a < |e.acts| && (step.CloseBox? || step.Mail? || step.Work?)
    ensures Inv(Local(e, a, step))
  {
    match step {
      case CloseBox(_) => CloseStepKeepsInv(e, a, step);
      case Mail(_, call, parked) => MailKeepsInv(e, a, M.Offer(call, parked));
      case Work(_) => MailKeepsInv(e, a, M.Work);
    }
  }

  lemma WaiterStepKeepsInv(e: Engine, a: nat, step: Step)
    requires Inv(e) && a < |e.acts| && (step.Decide? || step.HookReturns? || step.Finish? || step.Retire?)
    ensures Inv(Local(e, a, step))
  {
    match step {
      case Decide(_) => DecideStepKeepsInv(e, a, step);
      case HookReturns(_) => HookStepKeepsInv(e, a, step);
      case Finish(_) => FinishStepKeepsInv(e, a, step);
      case Retire(_) => RetireStepKeepsInv(e, a, step);
    }
  }

  lemma DecideStepKeepsInv(e: Engine, a: nat, step: Step)
    requires Inv(e) && a < |e.acts| && step.Decide?
    ensures Inv(Local(e, a, step))
  {
    if e.acts[a].waiter == Waiting && e.acts[a].box.worker == M.Done {
      DecideKeepsInv(e, a);
    }
  }

  lemma HookStepKeepsInv(e: Engine, a: nat, step: Step)
    requires Inv(e) && a < |e.acts| && step.HookReturns?
    ensures Inv(Local(e, a, step))
  {
    if e.acts[a].waiter == Hooking {
      HookKeepsInv(e, a);
    }
  }

  lemma FinishStepKeepsInv(e: Engine, a: nat, step: Step)
    requires Inv(e) && a < |e.acts| && step.Finish?
    ensures Inv(Local(e, a, step))
  {
    if e.acts[a].waiter == HookOver {
      FinishKeepsInv(e, a);
    }
  }

  lemma RetireStepKeepsInv(e: Engine, a: nat, step: Step)
    requires Inv(e) && a < |e.acts| && step.Retire?
    ensures Inv(Local(e, a, step))
  {
    if e.acts[a].waiter == Retired {
      RetireKeepsInv(e, a);
    }
  }

  lemma CallStepKeepsInv(e: Engine, a: nat, step: Step)
    requires Inv(e) && a < |e.acts| && (step.Admit? || step.CallFinished?)
    ensures Inv(Local(e, a, step))
  {
    var act := e.acts[a];
    match step {
      case Admit(_, now) => if act.life == Active && act.published { AdmitKeepsInv(e, a, now); }
      case CallFinished(_) => CallEndKeepsInv(e, a);
    }
  }

  lemma FaultStepKeepsInv(e: Engine, a: nat)
    requires Inv(e) && a < |e.acts|
    ensures Inv(Local(e, a, Fault(a)))
  {
    if e.acts[a].published {
      BeginKeepsInv(e, {a}, Faulted);
      assert Local(e, a, Fault(a)) == BeginAll(e, {a}, Faulted);
    } else {
      assert Local(e, a, Fault(a)) == e;
    }
  }

  lemma LocalKeepsInv(e: Engine, a: nat, step: Step)
    requires Inv(e) && a < |e.acts|
    ensures Inv(Local(e, a, step))
  {
    if step.CloseBox? || step.Mail? || step.Work? {
      BoxStepKeepsInv(e, a, step);
    } else if step.Decide? || step.HookReturns? || step.Finish? || step.Retire? {
      WaiterStepKeepsInv(e, a, step);
    } else if step.Admit? || step.CallFinished? {
      CallStepKeepsInv(e, a, step);
    } else if step.Fault? {
      FaultStepKeepsInv(e, a);
    } else {
      assert Local(e, a, step) == e;
    }
  }

  lemma DrainKeepsSignals(e: Engine, step: Step)
    requires SignalsOk(e) && (step.LoopExits? || step.DrainReads? || step.DrainEnds?)
    ensures SignalsOk(Next(e, step))
  {
  }

  lemma DrainKeepsInv(e: Engine, step: Step)
    requires Inv(e) && (step.LoopExits? || step.DrainReads? || step.DrainEnds?)
    ensures Inv(Next(e, step))
  {
    DrainKeepsSignals(e, step);
    DrainIs(e, step);
    SameTable(e, Next(e, step));
  }

  lemma DrainIs(e: Engine, step: Step)
    requires step.LoopExits? || step.DrainReads? || step.DrainEnds?
    ensures var e' := Next(e, step);
      e'.acts == e.acts && e'.table == e.table && e'.stage == e.stage && e'.pending == e.pending
  {
  }

  lemma KillKeepsInv(e: Engine)
    requires Inv(e)
    ensures Inv(BeganKill(e))
  {
    match e.stage {
      case Running => KillRunningKeepsInv(e);
      case Closing => KillClosingKeepsInv(e);
      case Killing =>
    }
  }

  lemma DeactivateKeepsInv(e: Engine, id: GrainId)
    requires Inv(e) && id in e.table
    ensures Inv(BeginAll(e, {e.table[id]}, OwnershipLost))
  {
    assert Serves(e.acts[e.table[id]], id);
    BeginKeepsInv(e, {e.table[id]}, OwnershipLost);
  }

  lemma EvictKeepsInv(e: Engine, now: int, timeout: int)
    requires Inv(e)
    ensures Inv(BeginAll(e, Victims(e, now, timeout), Idle))
  {
    forall a | a in Victims(e, now, timeout) ensures e.acts[a].published {
      assert InTable(e, a);
    }
    BeginKeepsInv(e, Victims(e, now, timeout), Idle);
  }

  lemma CloseStepKeeps(e: Engine, step: Step)
    requires Inv(e) && step.BeginClose?
    ensures Inv(Next(e, step))
  {
    CloseKeepsInv(e);
  }

  lemma KillStepKeeps(e: Engine, step: Step)
    requires Inv(e) && step.BeginKill?
    ensures Inv(Next(e, step))
  {
    KillKeepsInv(e);
  }

  lemma TableStepKeepsInv(e: Engine, step: Step)
    requires Inv(e) && (step.Lookup? || step.FactoryReturns? || step.Deactivate? || step.Evict?)
    ensures Inv(Next(e, step))
  {
    match step {
      case Lookup(id) => LookupKeepsInv(e, id);
      case FactoryReturns(id, ok, hooked, capacity, now) => CreateKeepsInv(e, id, ok, hooked, capacity, now);
      case Deactivate(id) => if id in e.table { DeactivateKeepsInv(e, id); }
      case Evict(now, timeout) => EvictKeepsInv(e, now, timeout);
    }
  }

  lemma StepKeepsInv(e: Engine, step: Step)
    requires Inv(e)
    ensures Inv(Next(e, step))
  {
    if step.Lookup? || step.FactoryReturns? || step.Deactivate? || step.Evict? {
      TableStepKeepsInv(e, step);
    } else if step.BeginClose? {
      CloseStepKeeps(e, step);
    } else if step.BeginKill? {
      KillStepKeeps(e, step);
    } else if step.LoopExits? || step.DrainReads? || step.DrainEnds? {
      DrainKeepsInv(e, step);
    } else if step.a < |e.acts| {
      LocalKeepsInv(e, step.a, step);
    }
  }

  lemma {:induction false} RunKeepsInv(e: Engine, steps: seq<Step>)
    requires Inv(e)
    ensures Inv(Run(e, steps))
    decreases |steps|
  {
    if steps != [] {
      StepKeepsInv(e, steps[0]);
      RunKeepsInv(Next(e, steps[0]), steps[1..]);
    }
  }

  lemma Reached(evicting: bool, steps: seq<Step>)
    ensures Inv(Run(Fresh(evicting), steps))
  {
    RunKeepsInv(Fresh(evicting), steps);
  }
}
