/** The root admission gate: one state, one stop code, a count of admitted calls, the
    public stop signal and the drain signal. Closing a channel twice would panic, so
    each channel carries the number of times it was closed. */
module RootLifecycle {

  datatype Stage = Running | Closing | Killing | Dead | Stopped
  datatype Code = RuntimeClosed | NodeDead

  /** The `drained` field: nil, or a channel that is open or closed. */
  datatype Drain = Nil | Armed | Drained

  datatype Root = Root(
    stage: Stage,
    stopCode: Code,
    inflight: int,
    drain: Drain,
    doneCloses: nat,
    drainCloses: nat,
    outstanding: nat)      // calls admitted and not yet released

  datatype Step = BeginClose | BeginKill | BecomeDead | FinishStop | Admit | Release

  function Fresh(): Root {
    Root(Running, RuntimeClosed, 0, Nil, 0, 0, 0)
  }

  /** The atomic departure from `Running`. */
  function Left(r: Root, next: Stage, code: Code): Root {
    var armed := r.(stage := next, stopCode := code, drain := Armed, doneCloses := r.doneCloses + 1);
    if r.inflight == 0 then armed.(drain := Drained, drainCloses := r.drainCloses + 1) else armed
  }

  /** The call that ends: each admitted call releases exactly once. */
  function Released(r: Root): Root {
    var s := r.(inflight := r.inflight - 1, outstanding := if r.outstanding > 0 then r.outstanding - 1 else 0);
    if s.inflight == 0 && s.stage != Running && s.drain != Nil
    then s.(drain := Nil, drainCloses := s.drainCloses + 1) else s
  }

  function Next(r: Root, step: Step): Root {
    match step
    case BeginClose => if r.stage == Running then Left(r, Closing, RuntimeClosed) else r
    case BeginKill =>
      if r.stage == Running then Left(r, Killing, RuntimeClosed)
      else if r.stage == Closing then r.(stage := Killing) else r
    case BecomeDead => if r.stage == Running then Left(r, Dead, NodeDead) else r
    case FinishStop =>
      if r.stage == Closing || r.stage == Killing || r.stage == Dead then r.(stage := Stopped) else r
    case Admit => if r.stage == Running then r.(inflight := r.inflight + 1, outstanding := r.outstanding + 1) else r
    case Release => if r.outstanding > 0 then Released(r) else r
  }

  function Run(r: Root, steps: seq<Step>): Root
    decreases |steps|
  {
    if steps == [] then r else Run(Next(r, steps[0]), steps[1..])
  }

  ghost predicate Inv(r: Root) {
    && r.inflight == r.outstanding
    && (r.stage == Running ==> r.doneCloses == 0 && r.drainCloses == 0 && r.drain == Nil)
    && (r.stage != Running ==>
          && r.doneCloses == 1
          && r.drainCloses == (if r.inflight == 0 then 1 else 0)
          && (r.drain == Armed <==> r.inflight > 0))
    && (r.stage == Dead ==> r.stopCode == NodeDead)
    && (r.stage == Closing || r.stage == Killing ==> r.stopCode == RuntimeClosed)
  }

  /** `waitDrained` returns at once on nil or on a closed channel. */
  predicate WaitReturns(r: Root) {
    r.drain != Armed
  }

  lemma StepKeepsInv(r: Root, step: Step)
    requires Inv(r)
    ensures Inv(Next(r, step))
  {
  }

  lemma {:induction false} RunKeepsInv(r: Root, steps: seq<Step>)
    requires Inv(r)
    ensures Inv(Run(r, steps))
    decreases |steps|
  {
    if steps != [] {
      StepKeepsInv(r, steps[0]);
      RunKeepsInv(Next(r, steps[0]), steps[1..]);
    }
  }

  /** In every run, escalations included: both signals are closed at most once, the
      public one exactly when the root left `Running`, the drain signal exactly when
      in addition no admitted call is left; a waiter returns exactly then. */
  lemma SignalsCloseOnce(steps: seq<Step>)
    ensures var r := Run(Fresh(), steps);
      && r.doneCloses <= 1 && r.drainCloses <= 1
      && (r.doneCloses == 1 <==> r.stage != Running)
      && (r.drainCloses == 1 <==> r.stage != Running && r.outstanding == 0)
      && (r.stage != Running ==> (WaitReturns(r) <==> r.outstanding == 0))
  {
    RunKeepsInv(Fresh(), steps);
  }

  lemma {:induction false} OnceLeft(r: Root, steps: seq<Step>)
    requires Inv(r) && r.stage != Running
    ensures var s := Run(r, steps);
      s.stage != Running && s.outstanding <= r.outstanding && s.stopCode == r.stopCode
    decreases |steps|
  {
    if steps != [] {
      StepKeepsInv(r, steps[0]);
      OnceLeft(Next(r, steps[0]), steps[1..]);
    }
  }

  /** Once drained, always drained: no call is ever admitted again, and every later
      rejection carries the code recorded when the root stopped. */
  lemma DrainedIsFinal(before: seq<Step>, after: seq<Step>)
    requires Run(Fresh(), before).drainCloses == 1
    ensures var r, s := Run(Fresh(), before), Run(Run(Fresh(), before), after);
      && s.outstanding == 0 && s.drainCloses == 1 && s.stopCode == r.stopCode
      && Next(s, Admit) == s
  {
    RunKeepsInv(Fresh(), before);
    OnceLeft(Run(Fresh(), before), after);
    RunKeepsInv(Run(Fresh(), before), after);
  }

  // ---- the object -------------------------------------------------------------------------------

  class RootGate {
    var stage: Stage
    var stopCode: Code
    var inflight: int
    var drain: Drain
    ghost var doneCloses: nat
    ghost var drainCloses: nat
    ghost var outstanding: nat

    ghost function Value(): Root
      reads this
    {
      Root(stage, stopCode, inflight, drain, doneCloses, drainCloses, outstanding)
    }

    constructor ()
      ensures Value() == Fresh() && Inv(Value())
    {
      stage, stopCode, inflight, drain := Running, RuntimeClosed, 0, Nil;
      doneCloses, drainCloses, outstanding := 0, 0, 0;
    }

    method LeaveRunning(next: Stage, code: Code)
      modifies this
      ensures stage == next && stopCode == code && inflight == old(inflight) && doneCloses == old(doneCloses) + 1
      ensures drain == (if old(inflight) == 0 then Drained else Armed)
      ensures drainCloses == old(drainCloses) + if old(inflight) == 0 then 1 else 0
      ensures Value() == Left(old(Value()), next, code)
    {
      stage, stopCode, drain := next, code, Armed;
      if inflight == 0 {
        drain, drainCloses := Drained, drainCloses + 1;
      }
      doneCloses := doneCloses + 1;
    }

    method Close() returns (began: bool)
      requires Inv(Value())
      modifies this
      ensures began ==> stage == Closing && stopCode == RuntimeClosed && doneCloses == 1
      ensures !began ==> stage == old(stage) && stopCode == old(stopCode)
      ensures inflight == old(inflight)
      ensures Value() == Next(old(Value()), BeginClose) && Inv(Value())
      ensures began <==> old(stage) == Running
    {
      StepKeepsInv(Value(), BeginClose);
      if stage != Running {
        return false;
      }
      LeaveRunning(Closing, RuntimeClosed);
      return true;
    }

    method Kill() returns (began: bool)
      requires Inv(Value())
      modifies this
      ensures began ==> stage == Killing && stopCode == RuntimeClosed && doneCloses == 1
      ensures !began ==> stage == old(stage) && stopCode == old(stopCode)
      ensures inflight == old(inflight)
      ensures Value() == Next(old(Value()), BeginKill) && Inv(Value())
      ensures began <==> old(stage) == Running || old(stage) == Closing
    {
      StepKeepsInv(Value(), BeginKill);
      match stage {
        case Running => LeaveRunning(Killing, RuntimeClosed); return true;
        case Closing => stage := Killing; return true;
        case _ => return false;
      }
    }

    method DeclareDead() returns (began: bool)
      requires Inv(Value())
      modifies this
      ensures began ==> stage == Dead && stopCode == NodeDead && doneCloses == 1
      ensures !began ==> stage == old(stage) && stopCode == old(stopCode)
      ensures inflight == old(inflight)
      ensures Value() == Next(old(Value()), BecomeDead) && Inv(Value())
      ensures began <==> old(stage) == Running
    {
      StepKeepsInv(Value(), BecomeDead);
      if stage != Running {
        return false;
      }
      LeaveRunning(Dead, NodeDead);
      return true;
    }

    method Finish()
      requires Inv(Value())
      modifies this
      ensures stage == if old(stage) == Running then Running else Stopped
      ensures stopCode == old(stopCode) && inflight == old(inflight)
      ensures Value() == Next(old(Value()), FinishStop) && Inv(Value())
    {
      StepKeepsInv(Value(), FinishStop);
      match stage {
        case Closing => stage := Stopped;
        case Killing => stage := Stopped;
        case Dead => stage := Stopped;
        case _ =>
      }
    }

    /** A rejected call learns the stop code. */
    method AdmitCall() returns (ok: bool, rejection: Code)
      requires Inv(Value())
      modifies this
      ensures stage == old(stage) && stopCode == old(stopCode)
      ensures inflight == old(inflight) + if old(stage) == Running then 1 else 0
      ensures Value() == Next(old(Value()), Admit) && Inv(Value())
      ensures ok <==> old(stage) == Running
      ensures !ok ==> rejection == old(stopCode)
      ensures old(stage) == Dead ==> rejection == NodeDead
      ensures old(stage) == Closing || old(stage) == Killing ==> rejection == RuntimeClosed
    {
      StepKeepsInv(Value(), Admit);
      if stage == Running {
        inflight := inflight + 1;
        outstanding := outstanding + 1;
        return true, RuntimeClosed;
      }
      return false, stopCode;
    }

    method ReleaseCall()
      requires Inv(Value()) && outstanding > 0
      modifies this
      ensures stage == old(stage) && stopCode == old(stopCode) && inflight == old(inflight) - 1
      ensures drainCloses == old(drainCloses) + if old(inflight) == 1 && old(stage) != Running then 1 else 0
      ensures Value() == Next(old(Value()), Release) && Inv(Value())
    {
      StepKeepsInv(Value(), Release);
      inflight := inflight - 1;
      outstanding := outstanding - 1;
      if inflight == 0 && stage != Running && drain != Nil {
        drainCloses := drainCloses + 1;
        drain := Nil;
      }
    }
  }
}
