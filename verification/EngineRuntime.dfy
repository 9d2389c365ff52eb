/** The engine as the object whose fields its critical sections update. Every method is
    one critical section, proved to be the step function that models it; what a goroutine does
    after it releases the mutex (closing mailboxes, waiting) is a step of its own. */
module EngineRuntime {
  import opened Basics
  import M = Mailbox
  import opened Engine
  import opened EngineLaws

  /** What the critical section of a lookup tells its caller to do next. */
  datatype Found = EngineStopped | Use(a: nat) | AwaitDone(a: nat) | AwaitReady | Create

  /** Pointers in the table point to activations. */
  ghost predicate Pointers(e: Engine) {
    forall id :: id in e.table ==> e.table[id] < |e.acts|
  }

  // ---- loops over the table ----------------------------------------------------------------------

  function Rows(table: map<GrainId, nat>, ids: set<GrainId>): set<nat> {
    set id | id in ids && id in table :: table[id]
  }

  lemma RowsAreCurrent(e: Engine)
    requires TableOk(e)
    ensures Rows(e.table, e.table.Keys) == Current(e)
  {
    forall a | a in Rows(e.table, e.table.Keys) ensures a in Current(e) {
      var id :| id in e.table && e.table[id] == a;
      assert Serves(e.acts[a], id);
    }
    forall a | a in Current(e) ensures a in Rows(e.table, e.table.Keys) {
      assert InTable(e, a) && e.acts[a].id in e.table.Keys;
    }
  }

  lemma RowsGrow(table: map<GrainId, nat>, todo: set<GrainId>, id: GrainId)
    requires id in todo && todo <= table.Keys
    ensures Rows(table, table.Keys - (todo - {id})) == Rows(table, table.Keys - todo) + {table[id]}
  {
  }

  lemma StartOneMore(e: Engine, done: set<nat>, a: nat)
    requires a < |e.acts|
    ensures |Startable(e, done + {a})| == |Startable(e, done)| + if a in done || e.acts[a].life != Active then 0 else 1
  {
    if a in done || e.acts[a].life != Active {
      assert Startable(e, done + {a}) == Startable(e, done);
    } else {
      assert Startable(e, done + {a}) == Startable(e, done) + {a};
    }
  }

  lemma BeginOneMore(e: Engine, done: set<nat>, a: nat, reason: Reason)
    requires a < |e.acts|
    ensures BeginAll(BeginAll(e, done, reason), {a}, reason) == BeginAll(e, done + {a}, reason)
  {
    var mid := BeginAll(e, done, reason);
    StartOneMore(e, done, a);
    StartOneMore(mid, {}, a);
    assert {} + {a} == {a} && Startable(mid, {}) == {};
    assert BeginAll(mid, {a}, reason).acts == BeginAll(e, done + {a}, reason).acts;
  }

  /** `e` with the hooks of `who` marked to be skipped. */
  function SkipAll(e: Engine, who: set<nat>): Engine {
    e.(acts := seq(|e.acts|, a requires 0 <= a < |e.acts| => if a in who then e.acts[a].(skip := true) else e.acts[a]))
  }

  lemma SkipAllCurrent(e: Engine)
    ensures SkipAll(e, Current(e)) == SkipHooks(e)
  {
    assert SkipAll(e, Current(e)).acts == SkipHooks(e).acts;
  }

  /** What a stop does to the activations of `who`. */
  function StopAll(e: Engine, who: set<nat>, skip: bool): Engine {
    BeginAll(if skip then SkipAll(e, who) else e, who, RuntimeClosed)
  }

  lemma SkipOneMore(e: Engine, done: set<nat>, a: nat)
    requires a < |e.acts|
    ensures var mid := SkipAll(e, done); Set(mid, a, mid.acts[a].(skip := true)) == SkipAll(e, done + {a})
  {
    var mid := SkipAll(e, done);
    assert Set(mid, a, mid.acts[a].(skip := true)).acts == SkipAll(e, done + {a}).acts;
  }

  lemma SkipNone(e: Engine)
    ensures SkipAll(e, Rows(e.table, {})) == e
  {
    assert SkipAll(e, {}).acts == e.acts;
  }

  /** One turn of the loop that marks the activations of the table. */
  lemma SkipTurn(e: Engine, todo: set<GrainId>, id: GrainId, mid: Engine)
    requires TableOk(e) && id in todo && todo <= e.table.Keys && mid == SkipAll(e, Rows(e.table, e.table.Keys - todo))
    ensures var a := e.table[id];
      && a < |mid.acts|
      && Set(mid, a, mid.acts[a].(skip := true)) == SkipAll(e, Rows(e.table, e.table.Keys - (todo - {id})))
  {
    assert Serves(e.acts[e.table[id]], id);
    RowsGrow(e.table, todo, id);
    SkipOneMore(e, Rows(e.table, e.table.Keys - todo), e.table[id]);
  }

  lemma SkipEnds(e: Engine)
    requires TableOk(e)
    ensures SkipAll(e, Rows(e.table, e.table.Keys)) == SkipHooks(e)
  {
    RowsAreCurrent(e);
    SkipAllCurrent(e);
  }

  lemma StopActsOneMore(e: Engine, done: set<nat>, a: nat)
    requires a < |e.acts|
    ensures StopAll(StopAll(e, done, true), {a}, true).acts == StopAll(e, done + {a}, true).acts
  {
  }

  lemma StopCountsOneMore(e: Engine, done: set<nat>, a: nat)
    requires a < |e.acts|
    ensures StopAll(StopAll(e, done, true), {a}, true).waiting == StopAll(e, done + {a}, true).waiting
  {
    var mid := SkipAll(StopAll(e, done, true), {a});
    StartOneMore(SkipAll(e, done + {a}), done, a);
    assert Startable(SkipAll(e, done + {a}), done) == Startable(SkipAll(e, done), done);
    StartOneMore(mid, {}, a);
    assert {} + {a} == {a} && Startable(mid, {}) == {};
  }

  lemma StopOneMore(e: Engine, done: set<nat>, a: nat, skip: bool)
    requires a < |e.acts|
    ensures StopAll(StopAll(e, done, skip), {a}, skip) == StopAll(e, done + {a}, skip)
  {
    if skip {
      StopActsOneMore(e, done, a);
      StopCountsOneMore(e, done, a);
    } else {
      BeginOneMore(e, done, a, RuntimeClosed);
    }
  }

  lemma StopNone(e: Engine, skip: bool)
    ensures StopAll(e, {}, skip) == e
  {
    assert StopAll(e, {}, skip).acts == e.acts;
    assert Startable(if skip then SkipAll(e, {}) else e, {}) == {};
  }

  lemma StopCurrent(e: Engine, skip: bool)
    requires TableOk(e)
    ensures StopAll(e, Rows(e.table, e.table.Keys), skip)
         == BeginAll(if skip then SkipHooks(e) else e, Current(e), RuntimeClosed)
  {
    RowsAreCurrent(e);
    SkipAllCurrent(e);
  }

  function Picked(e: Engine, who: set<nat>, now: int, timeout: int): set<nat> {
    set a | a in who && a < |e.acts| && Evictable(e.acts[a], now, timeout)
  }

  lemma PickOneMore(e: Engine, who: set<nat>, a: nat, now: int, timeout: int)
    requires a < |e.acts|
    ensures Picked(e, who + {a}, now, timeout)
         == Picked(e, who, now, timeout) + if Evictable(e.acts[a], now, timeout) then {a} else {}
  {
  }

  /** Beginning the victims found so far leaves the eligibility of the others alone. */
  lemma StillEvictable(e: Engine, who: set<nat>, a: nat, now: int, timeout: int)
    requires a < |e.acts|
    ensures Evictable(BeginAll(e, who, Idle).acts[a], now, timeout) <==> a !in who && Evictable(e.acts[a], now, timeout)
  {
  }

  lemma PickedAll(e: Engine, now: int, timeout: int)
    requires TableOk(e)
    ensures Picked(e, Rows(e.table, e.table.Keys), now, timeout) == Victims(e, now, timeout)
  {
    RowsAreCurrent(e);
  }

  // ---- the object -----------------------------------------------------------------------------------

  class Runtime {
    const mailboxCapacity: nat
    const idleTimeout: int
    var stage: Stage
    var acts: seq<Act>
    var table: map<GrainId, nat>
    var pending: set<GrainId>
    var waiting: int
    var deactivationsDone: Channel
    var loopExited: bool
    var drain: Drain
    ghost var stopCloses: nat
    ghost var killingCloses: nat
    ghost var deactivationsCloses: nat
    ghost var doneCloses: nat

    ghost function Value(): Engine
      reads this
    {
      Engine(stage, acts, table, pending, waiting, deactivationsDone, loopExited, drain,
             stopCloses, killingCloses, deactivationsCloses, doneCloses)
    }

    constructor (mailboxCapacity: nat, idleTimeout: int, evicting: bool)
      ensures Value() == Fresh(evicting) && Inv(Value())
      ensures this.mailboxCapacity == mailboxCapacity && this.idleTimeout == idleTimeout
    {
      this.mailboxCapacity, this.idleTimeout := mailboxCapacity, idleTimeout;
      stage, acts, table, pending, waiting := Running, [], map[], {}, 0;
      deactivationsDone, loopExited, drain := Nil, !evicting, NotStarted;
      stopCloses, killingCloses, deactivationsCloses, doneCloses := 0, 0, 0, 0;
    }

    ghost predicate Valid()
      reads this
    {
      Pointers(Value())
    }

    method ActivationFor(id: GrainId) returns (found: Found)
      requires Valid()
      modifies this
      ensures Value() == LookedUp(old(Value()), id)
      ensures Inv(old(Value())) ==> Inv(Value())
      ensures found == EngineStopped <==> stage != Running
      ensures acts == old(acts)
      ensures found.Use? <==> stage == Running && id in old(table) && acts[old(table)[id]].life == Active
      ensures found.AwaitDone? <==> stage == Running && id in old(table) && acts[old(table)[id]].life == Deactivating
      ensures found.Use? || found.AwaitDone? ==> found.a == old(table)[id]
      ensures found == AwaitReady <==>
        stage == Running && (id in old(table) ==> acts[old(table)[id]].life == Stopped) && id in old(pending)
      ensures found == Create <==> id !in old(pending) && id in pending
    {
      if Inv(Value()) {
        LookupKeepsInv(Value(), id);
      }
      if stage != Running {
        return EngineStopped;
      }
      if id in table {
        var a := table[id];
        match acts[a].life {
          case Active => return Use(a);
          case Deactivating => return AwaitDone(a);
          case Stopped => table := table - {id};
        }
      }
      assert table == old(table) - {id};
      if id in pending {
        return AwaitReady;
      }
      pending := pending + {id};
      return Create;
    }

    method CreationReturned(id: GrainId, ok: bool, hooked: bool, now: int)
      requires Inv(Value()) && id in pending
      modifies this
      ensures Value() == Created(old(Value()), id, ok, hooked, mailboxCapacity, now) && Inv(Value())
    {
      CreateKeepsInv(Value(), id, ok, hooked, mailboxCapacity, now);
      pending := pending - {id};
      if ok {
        if stage == Running {
          table := table[id := |acts|];
        }
        acts := acts + [NewAct(id, hooked, stage == Running, mailboxCapacity, now)];
      }
    }

    method AdmitCall(a: nat, now: int) returns (ok: bool)
      requires Inv(Value()) && a < |acts| && acts[a].published
      modifies this
      ensures ok == (old(acts[a]).life == Active)
      ensures Value() == if ok then Set(old(Value()), a, Admitted(old(acts[a]), now)) else old(Value())
      ensures Inv(Value())
    {
      if acts[a].life != Active {
        return false;
      }
      ghost var before := Value();
      acts := acts[a := acts[a].(lastUsed := now, calls := acts[a].calls + 1)];
      assert Value() == Set(before, a, Admitted(before.acts[a], now));
      AdmitKeepsInv(before, a, now);
      return true;
    }

    method CallFinished(a: nat)
      requires Inv(Value()) && a < |acts|
      modifies this
      ensures Value() == Set(old(Value()), a, CallEnded(old(acts[a]))) && Inv(Value())
    {
      CallEndKeepsInv(Value(), a);
      acts := acts[a := acts[a].(calls := acts[a].calls - 1)];
    }

    method DeactivateLocked(a: nat, reason: Reason) returns (started: bool)
      requires a < |acts|
      modifies this
      ensures Value() == BeginAll(old(Value()), {a}, reason)
      ensures started == (old(acts[a]).life == Active)
    {
      StartOneMore(Value(), {}, a);
      assert {} + {a} == {a} && Startable(Value(), {}) == {};
      if acts[a].life != Active {
        assert acts == BeginAll(Value(), {a}, reason).acts;
        return false;
      }
      acts := acts[a := acts[a].(life := Deactivating, reason := Some(reason), waiter := Waiting)];
      waiting := waiting + 1;
      assert acts == BeginAll(old(Value()), {a}, reason).acts;
      return true;
    }

    /** A panic or a discard in a method body stops its activation. */
    method StopActivation(a: nat) returns (started: bool)
      requires Inv(Value()) && a < |acts| && acts[a].published
      modifies this
      ensures Value() == BeginAll(old(Value()), {a}, Faulted) && Inv(Value())
      ensures started ==> acts[a].reason == Some(Faulted)
    {
      BeginKeepsInv(Value(), {a}, Faulted);
      started := DeactivateLocked(a, Faulted);
    }

    method Deactivated(id: GrainId) returns (started: bool)
      requires Inv(Value())
      modifies this
      ensures Value() == if id in old(table) then BeginAll(old(Value()), {old(table)[id]}, OwnershipLost) else old(Value())
      ensures Inv(Value())
      ensures started ==> id in table && acts[table[id]].reason == Some(OwnershipLost)
    {
      if id !in table {
        return false;
      }
      DeactivateKeepsInv(Value(), id);
      started := DeactivateLocked(table[id], OwnershipLost);
    }

    /** The eviction loop: exactly the idle activations begin to deactivate. */
    method EvictLoop(now: int) returns (victims: set<nat>)
      requires Valid()
      modifies this
      ensures victims == Picked(old(Value()), Rows(old(table), old(table).Keys), now, idleTimeout)
      ensures Value() == BeginAll(old(Value()), victims, Idle)
    {
      ghost var before := Value();
      victims := {};
      var todo := table.Keys;
      assert BeginAll(before, {}, Idle).acts == before.acts && Startable(before, {}) == {};
      while todo != {}
        invariant todo <= table.Keys && table == before.table && |acts| == |before.acts|
        invariant victims == Picked(before, Rows(before.table, before.table.Keys - todo), now, idleTimeout)
        invariant Value() == BeginAll(before, victims, Idle)
        decreases |todo|
      {
        var id :| id in todo;
        var a := table[id];
        RowsGrow(before.table, todo, id);
        PickOneMore(before, Rows(before.table, before.table.Keys - todo), a, now, idleTimeout);
        StillEvictable(before, victims, a, now, idleTimeout);
        if Evictable(acts[a], now, idleTimeout) {
          BeginOneMore(before, victims, a, Idle);
          var _ := DeactivateLocked(a, Idle);
          victims := victims + {a};
        }
        todo := todo - {id};
      }
      assert before.table.Keys - todo == before.table.Keys;
    }

    method EvictIdle(now: int) returns (victims: set<nat>)
      requires Inv(Value())
      modifies this
      ensures victims == if old(stage) == Running then Victims(old(Value()), now, idleTimeout) else {}
      ensures Value() == if old(stage) == Running then BeginAll(old(Value()), victims, Idle) else old(Value())
      ensures Inv(Value())
    {
      if stage != Running {
        return {};
      }
      ghost var before := Value();
      PickedAll(before, now, idleTimeout);
      victims := EvictLoop(now);
      EvictKeepsInv(before, now, idleTimeout);
    }

    method StopOne(a: nat, skip: bool)
      requires a < |acts|
      modifies this
      ensures Value() == StopAll(old(Value()), {a}, skip)
    {
      if skip {
        ghost var marked := SkipAll(Value(), {a});
        acts := acts[a := acts[a].(skip := true)];
        assert acts == marked.acts;
      }
      var _ := DeactivateLocked(a, RuntimeClosed);
    }

    method StopLoop(skip: bool)
      requires Valid()
      modifies this
      ensures Value() == StopAll(old(Value()), Rows(old(table), old(table).Keys), skip)
    {
      ghost var before := Value();
      ghost var done: set<nat> := {};
      var todo := table.Keys;
      StopNone(before, skip);
      while todo != {}
        invariant todo <= table.Keys && table == before.table && |acts| == |before.acts|
        invariant done == Rows(before.table, before.table.Keys - todo)
        invariant Value() == StopAll(before, done, skip)
        decreases |todo|
      {
        var id :| id in todo;
        RowsGrow(before.table, todo, id);
        StopOneMore(before, done, table[id], skip);
        StopOne(table[id], skip);
        done := done + {table[id]};
        todo := todo - {id};
      }
      assert before.table.Keys - todo == before.table.Keys;
    }

    /** `beginStopDeactivationsLocked`. */
    method BeginStopDeactivations(skip: bool)
      requires TableOk(Value())
      modifies this
      ensures Value() == StopBegun(old(Value()), skip)
    {
      StopCurrent(Value(), skip);
      StopLoop(skip);
      deactivationsDone := Armed;
      if waiting == 0 {
        deactivationsDone, deactivationsCloses := Closed, deactivationsCloses + 1;
      }
    }

    method StartClose()
      requires Inv(Value())
      modifies this
      ensures Value() == BeganClose(old(Value())) && Inv(Value())
    {
      CloseKeepsInv(Value());
      ghost var before := Value();
      match stage {
        case Running =>
          stage, stopCloses, drain := Closing, stopCloses + 1, AwaitLoop;
          assert Value() == CloseMarked(before);
          SameTable(before, Value());
          BeginStopDeactivations(false);
        case _ =>
      }
    }

    method StartKill()
      requires Inv(Value())
      modifies this
      ensures Value() == BeganKill(old(Value())) && Inv(Value())
    {
      ghost var before := Value();
      match stage {
        case Running =>
          stage, stopCloses, killingCloses, drain := Killing, stopCloses + 1, killingCloses + 1, AwaitLoop;
          assert Value() == KillMarked(before);
          SameTable(before, Value());
          BeginStopDeactivations(true);
        case Closing =>
          stage, killingCloses := Killing, killingCloses + 1;
          SameTable(before, Value());
          MarkSkipOnDeactivate();
        case Killing =>
      }
      KillKeepsInv(before);
    }

    method MarkSkipOnDeactivate()
      requires TableOk(Value())
      modifies this
      ensures Value() == SkipHooks(old(Value()))
    {
      ghost var before := Value();
      var todo := table.Keys;
      SkipNone(before);
      assert table.Keys - todo == {};
      while todo != {}
        invariant todo <= table.Keys && table == before.table
        invariant Value() == SkipAll(before, Rows(before.table, before.table.Keys - todo))
        decreases |todo|
      {
        var id :| id in todo;
        var a := table[id];
        SkipTurn(before, todo, id, Value());
        acts := acts[a := acts[a].(skip := true)];
        todo := todo - {id};
      }
      SkipEnds(before);
      assert before.table.Keys - todo == before.table.Keys;
    }

    /** The waiter's section between the end of the mailbox and the hook. */
    method DecideHook(a: nat) returns (hook: Option<Reason>)
      requires Inv(Value()) && a < |acts| && acts[a].waiter == Waiting && acts[a].box.worker == M.Done
      modifies this
      ensures Value() == Set(old(Value()), a, Decided(old(acts[a]))) && Inv(Value())
      ensures hook == if !old(acts[a]).skip && old(acts[a]).hooked then old(acts[a]).reason else None
      ensures hook.Some? <==> !old(acts[a]).skip && old(acts[a]).hooked
      ensures acts[a].hooks == old(acts[a]).hooks + if hook.Some? then [hook.value] else []
    {
      DecideKeepsInv(Value(), a);
      assert ActOk(acts[a], stage);
      hook := None;
      if !acts[a].skip && acts[a].hooked {
        hook := acts[a].reason;
        acts := acts[a := acts[a].(waiter := Hooking, hooks := acts[a].hooks + [acts[a].reason.value])];
      } else {
        acts := acts[a := acts[a].(waiter := HookOver)];
      }
    }

    method FinishDeactivation(a: nat)
      requires Inv(Value()) && a < |acts| && acts[a].waiter == HookOver
      modifies this
      ensures Value() == Finished(old(Value()), a) && Inv(Value())
    {
      ghost var before := Value();
      if acts[a].life == Deactivating {
        var act := acts[a];
        acts := acts[a := act.(life := Stopped, doneCloses := act.doneCloses + 1, waiter := Retired)];
        if act.id in table && table[act.id] == a {
          table := table - {act.id};
        }
      }
      assert Value() == Finished(before, a);
      FinishKeepsInv(before, a);
    }

    method DeactivationFinished(a: nat)
      requires Inv(Value()) && a < |acts| && acts[a].waiter == Retired
      modifies this
      ensures Value() == WaiterGone(old(Value()), a) && Inv(Value())
    {
      ghost var before := Value();
      acts := acts[a := acts[a].(waiter := Gone)];
      waiting := waiting - 1;
      if waiting == 0 && deactivationsDone != Nil {
        deactivationsCloses := deactivationsCloses + 1;
        deactivationsDone := Nil;
      }
      assert Value() == WaiterGone(before, a);
      RetireKeepsInv(before, a);
    }
  }
}
