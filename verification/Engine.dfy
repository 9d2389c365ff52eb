/** The local activation engine: creation, lookup, deactivation, graceful and abrupt stop.

    A step is one critical section of the engine's mutex, one step of a mailbox
    worker, or one wait that ended. `acts` is the heap of activations; an index is a
    pointer. Channels carry the number of times they were closed. */
module Engine {
  import opened Basics
  import M = Mailbox

  datatype Reason = Idle | OwnershipLost | RuntimeClosed | Faulted
  datatype Life = Active | Deactivating | Stopped

  /** Where the goroutine that waits for a deactivation stands. */
  datatype Waiter = NoWaiter | Waiting | Hooking | HookOver | Retired | Gone

  /** `published` is false for an activation built too late to be used;
      `hooks` are the hook invocations, by the reason they were given. */
  datatype Act = Act(
    id: GrainId, life: Life, reason: Option<Reason>, skip: bool, hooked: bool, published: bool,
    box: M.Box, calls: int, lastUsed: int, waiter: Waiter, hooks: seq<Reason>, doneCloses: nat)

  datatype Stage = Running | Closing | Killing
  datatype Channel = Nil | Armed | Closed
  datatype Drain = NotStarted | AwaitLoop | AwaitDeactivations | Over

  datatype Engine = Engine(
    stage: Stage,
    acts: seq<Act>,
    table: map<GrainId, nat>,
    pending: set<GrainId>,
    waiting: int,
    deactivationsDone: Channel,
    loopExited: bool,
    drain: Drain,
    stopCloses: nat, killingCloses: nat, deactivationsCloses: nat, doneCloses: nat)

  function Fresh(evicting: bool): Engine {
    Engine(Running, [], map[], {}, 0, Nil, !evicting, NotStarted, 0, 0, 0, 0)
  }

  // ---- activations --------------------------------------------------------------------------------

  function NewAct(id: GrainId, hooked: bool, published: bool, capacity: nat, now: int): Act {
    Act(id, Active, None, false, hooked, published, M.Opened(capacity), 0, now, NoWaiter, [], 0)
  }

  /** `beginDeactivation` and the start of its waiter: only from `Active`, once. */
  function Begun(act: Act, reason: Reason): Act {
    if act.life != Active then act
    else act.(life := Deactivating, reason := Some(reason), waiter := Waiting)
  }

  function Admitted(act: Act, now: int): Act {
    act.(calls := act.calls + 1, lastUsed := now)
  }

  function CallEnded(act: Act): Act {
    act.(calls := act.calls - 1)
  }

  predicate InTable(e: Engine, a: nat) {
    a < |e.acts| && e.acts[a].id in e.table && e.table[e.acts[a].id] == a
  }

  /** The live activations: those the table points to. */
  function Current(e: Engine): set<nat> {
    set a | 0 <= a < |e.acts| && InTable(e, a)
  }

  function Startable(e: Engine, who: set<nat>): set<nat> {
    set a | a in who && a < |e.acts| && e.acts[a].life == Active
  }

  /** `deactivateLocked` for every activation of `who`. */
  function BeginAll(e: Engine, who: set<nat>, reason: Reason): Engine {
    e.(acts := seq(|e.acts|, a requires 0 <= a < |e.acts| => if a in who then Begun(e.acts[a], reason) else e.acts[a]),
       waiting := e.waiting + |Startable(e, who)|)
  }

  function SkipHooks(e: Engine): Engine {
    e.(acts := seq(|e.acts|, a requires 0 <= a < |e.acts| =>
         if InTable(e, a) then e.acts[a].(skip := true) else e.acts[a]))
  }

  /** Arms the channel the graceful drain waits on, or closes it at once. */
  function ArmDone(e: Engine): Engine {
    if e.waiting == 0 then e.(deactivationsDone := Closed, deactivationsCloses := e.deactivationsCloses + 1)
    else e.(deactivationsDone := Armed)
  }

  /** `beginStopDeactivationsLocked`. */
  function StopBegun(e: Engine, skip: bool): Engine {
    ArmDone(BeginAll(if skip then SkipHooks(e) else e, Current(e), RuntimeClosed))
  }

  function Set(e: Engine, a: nat, act: Act): Engine
    requires a < |e.acts|
  {
    e.(acts := e.acts[a := act])
  }

  predicate Evictable(act: Act, now: int, timeout: int) {
    act.life == Active && act.calls == 0 && now >= act.lastUsed + timeout
  }

  // ---- steps ------------------------------------------------------------------------------------------

  datatype Step =
    | Lookup(id: GrainId)
    | FactoryReturns(id: GrainId, ok: bool, hooked: bool, capacity: nat, now: int)
    | Admit(a: nat, now: int)
    | CallFinished(a: nat)
    | Deactivate(id: GrainId)
    | Evict(now: int, timeout: int)
    | Fault(a: nat)
    | CloseBox(a: nat)
    | Mail(a: nat, call: nat, parked: bool)
    | Work(a: nat)
    | Decide(a: nat)
    | HookReturns(a: nat)
    | Finish(a: nat)
    | Retire(a: nat)
    | BeginClose
    | BeginKill
    | LoopExits
    | DrainReads
    | DrainEnds

  /** The critical section of `activationFor`: at most one caller starts a creation. */
  function LookedUp(e: Engine, id: GrainId): Engine {
    if e.stage != Running then e
    else if id in e.table && e.table[id] < |e.acts| && e.acts[e.table[id]].life != Stopped then e
    else
      var e' := e.(table := e.table - {id});
      if id in e.pending then e' else e'.(pending := e.pending + {id})
  }

  /** The deferred section of `createActivation`. */
  function Created(e: Engine, id: GrainId, ok: bool, hooked: bool, capacity: nat, now: int): Engine {
    if id !in e.pending then e
    else
      var e' := e.(pending := e.pending - {id});
      if !ok then e'
      else if e.stage != Running then e'.(acts := e.acts + [NewAct(id, hooked, false, capacity, now)])
      else e'.(acts := e.acts + [NewAct(id, hooked, true, capacity, now)], table := e.table[id := |e.acts|])
  }

  /** `finishDeactivation`. */
  function Finished(e: Engine, a: nat): Engine
    requires a < |e.acts|
  {
    var act := e.acts[a];
    if act.life != Deactivating then e
    else
      var e' := Set(e, a, act.(life := Stopped, doneCloses := act.doneCloses + 1, waiter := Retired));
      if act.id in e.table && e.table[act.id] == a then e'.(table := e.table - {act.id}) else e'
  }

  /** `deactivationFinished`. */
  function WaiterGone(e: Engine, a: nat): Engine
    requires a < |e.acts|
  {
    var e' := Set(e, a, e.acts[a].(waiter := Gone)).(waiting := e.waiting - 1);
    if e'.waiting == 0 && e'.deactivationsDone != Nil
    then e'.(deactivationsDone := Nil, deactivationsCloses := e.deactivationsCloses + 1) else e'
  }

  function CloseMarked(e: Engine): Engine {
    e.(stage := Closing, stopCloses := e.stopCloses + 1, drain := AwaitLoop)
  }

  function KillMarked(e: Engine): Engine {
    e.(stage := Killing, stopCloses := e.stopCloses + 1, killingCloses := e.killingCloses + 1, drain := AwaitLoop)
  }

  function BeganClose(e: Engine): Engine {
    if e.stage != Running then e else StopBegun(CloseMarked(e), false)
  }

  function BeganKill(e: Engine): Engine {
    match e.stage
    case Running => StopBegun(KillMarked(e), true)
    case Closing => SkipHooks(e.(stage := Killing, killingCloses := e.killingCloses + 1))
    case Killing => e
  }

  function Victims(e: Engine, now: int, timeout: int): set<nat> {
    set a | a in Current(e) && a < |e.acts| && Evictable(e.acts[a], now, timeout)
  }

  /** The waiter's decision: the hook runs unless it is to be skipped or there is none. */
  function Decided(act: Act): Act {
    if act.skip || !act.hooked || act.reason.None? then act.(waiter := HookOver)
    else act.(waiter := Hooking, hooks := act.hooks + [act.reason.value])
  }

  function HookEnded(act: Act): Act {
    act.(waiter := HookOver)
  }

  /** A step that is not ready leaves everything as it is. */
  function Next(e: Engine, step: Step): Engine {
    match step
    case Lookup(id) => LookedUp(e, id)
    case FactoryReturns(id, ok, hooked, capacity, now) => Created(e, id, ok, hooked, capacity, now)
    case Deactivate(id) => if id in e.table then BeginAll(e, {e.table[id]}, OwnershipLost) else e
    case Evict(now, timeout) => if e.stage == Running then BeginAll(e, Victims(e, now, timeout), Idle) else e
    case BeginClose => BeganClose(e)
    case BeginKill => BeganKill(e)
    case LoopExits => if e.stopCloses > 0 then e.(loopExited := true) else e
    case DrainReads =>
      if e.drain != AwaitLoop || !e.loopExited then e
      else if e.deactivationsDone == Nil then e.(drain := Over, doneCloses := e.doneCloses + 1)
      else e.(drain := AwaitDeactivations)
    case DrainEnds =>
      if e.drain == AwaitDeactivations && (e.deactivationsCloses > 0 || e.killingCloses > 0)
      then e.(drain := Over, doneCloses := e.doneCloses + 1) else e
    case _ => if step.a < |e.acts| then Local(e, step.a, step) else e
  }

  /** Steps on one activation, reached by pointer. */
  function Local(e: Engine, a: nat, step: Step): Engine
    requires a < |e.acts|
  {
    var act := e.acts[a];
    match step
    case Admit(_, now) =>
      if act.life == Active && act.published then Set(e, a, Admitted(act, now)) else e
    case CallFinished(_) => Set(e, a, CallEnded(act))
    case Fault(_) => if act.published then BeginAll(e, {a}, Faulted) else e
    case CloseBox(_) =>
      if act.life != Active || !act.published then Set(e, a, act.(box := M.Next(act.box, M.Close))) else e
    case Mail(_, call, parked) => Set(e, a, act.(box := M.Next(act.box, M.Offer(call, parked))))
    case Work(_) => Set(e, a, act.(box := M.Next(act.box, M.Work)))
    case Decide(_) => if act.waiter == Waiting && act.box.worker == M.Done then Set(e, a, Decided(act)) else e
    case HookReturns(_) => if act.waiter == Hooking then Set(e, a, HookEnded(act)) else e
    case Finish(_) => if act.waiter == HookOver then Finished(e, a) else e
    case Retire(_) => if act.waiter == Retired then WaiterGone(e, a) else e
    case _ => e
  }

  function Run(e: Engine, steps: seq<Step>): Engine
    decreases |steps|
  {
    if steps == [] then e else Run(Next(e, steps[0]), steps[1..])
  }

  // ---- invariant ------------------------------------------------------------------------------------------

  predicate Busy(act: Act) {
    act.waiter == Waiting || act.waiter == Hooking || act.waiter == HookOver || act.waiter == Retired
  }

  function BusySet(acts: seq<Act>): set<nat> {
    set a | 0 <= a < |acts| && Busy(acts[a])
  }

  ghost predicate ActOk(act: Act, stage: Stage) {
    && M.Inv(act.box)
    && (match act.life
        case Active => act.waiter == NoWaiter && act.hooks == [] && act.reason == None && act.doneCloses == 0
                       && (act.published ==> !act.box.closed)
        case Deactivating => (act.waiter == Waiting || act.waiter == Hooking || act.waiter == HookOver)
                             && act.reason.Some? && act.doneCloses == 0 && act.published
        case Stopped => (act.waiter == Retired || act.waiter == Gone)
                        && act.reason.Some? && act.doneCloses == 1 && act.published)
    && (act.waiter != NoWaiter && act.waiter != Waiting ==> act.box.worker == M.Done)
    && (act.waiter == Waiting ==> act.hooks == [])
    && (act.hooks == [] || (act.reason.Some? && act.hooks == [act.reason.value]))
    && (stage != Running && act.published ==> act.life != Active)
    && (stage == Killing && act.waiter == Waiting ==> act.skip)
  }

  predicate Serves(act: Act, id: GrainId) {
    act.id == id && act.published && act.life != Stopped
  }

  ghost predicate TableOk(e: Engine) {
    && (forall id :: id in e.table ==> e.table[id] < |e.acts| && Serves(e.acts[e.table[id]], id))
    && (forall a :: 0 <= a < |e.acts| && e.acts[a].published && e.acts[a].life != Stopped ==> InTable(e, a))
    && (forall id :: id in e.pending ==> id !in e.table)
  }

  ghost predicate SignalsOk(e: Engine) {
    && e.waiting == |BusySet(e.acts)|
    && e.stopCloses == (if e.stage == Running then 0 else 1)
    && e.killingCloses == (if e.stage == Killing then 1 else 0)
    && (e.stage == Running ==> e.deactivationsDone == Nil && e.deactivationsCloses == 0 && e.drain == NotStarted)
    && (e.stage != Running ==>
          && e.drain != NotStarted
          && e.deactivationsCloses == (if e.waiting == 0 then 1 else 0)
          && (e.deactivationsDone == Armed <==> e.waiting > 0))
    && e.doneCloses == (if e.drain == Over then 1 else 0)
    && (e.drain == Over && e.stage != Killing ==> e.waiting == 0)
  }

  ghost predicate ActsOk(acts: seq<Act>, stage: Stage) {
    forall a :: 0 <= a < |acts| ==> ActOk(acts[a], stage)
  }

  ghost predicate Inv(e: Engine) {
    ActsOk(e.acts, e.stage) && TableOk(e) && SignalsOk(e)
  }
}
