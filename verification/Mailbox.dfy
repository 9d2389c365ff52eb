/** A mailbox and its single worker.

    Calls are numbered. The worker's steps are the places where another goroutine can
    come in between: taking a call from the queue, looking at the closed flag, ending
    the body, looking at the flag again, and rejecting what is left. */
module Mailbox {

  type CallId = nat

  datatype Worker =
    | Receiving
    | Holding(call: CallId)      // taken, the flag not yet looked at
    | Executing(call: CallId)    // the body runs
    | Replied                    // the body ended, the flag not yet looked at again
    | Rejecting
    | Done

  /** `accepted`, `executed` and `rejected` are the calls so far, in order. */
  datatype Box = Box(
    capacity: nat,
    queue: seq<CallId>,
    closed: bool,
    worker: Worker,
    accepted: seq<CallId>,
    executed: seq<CallId>,
    rejected: seq<CallId>)

  datatype Answer = Accepted | RefusedClosed | RefusedOverloaded

  datatype Step = Offer(call: CallId, parked: bool) | Close | Work

  function Opened(capacity: nat): Box {
    Box(capacity, [], false, Receiving, [], [], [])
  }

  /** A send succeeds when there is room, or when the worker is parked at the channel. */
  function Answered(b: Box, parked: bool): Answer {
    if b.closed then RefusedClosed
    else if |b.queue| < b.capacity || (parked && b.worker == Receiving && b.queue == []) then Accepted
    else RefusedOverloaded
  }

  function Offered(b: Box, call: CallId, parked: bool): Box {
    if Answered(b, parked) != Accepted then b
    else if parked && b.worker == Receiving && b.queue == []
    then b.(worker := Holding(call), accepted := b.accepted + [call])
    else b.(queue := b.queue + [call], accepted := b.accepted + [call])
  }

  /** The next step of `run` and `rejectQueued`; blocked steps change nothing. */
  function Worked(b: Box): Box {
    match b.worker
    case Receiving =>
      if b.queue != [] then b.(worker := Holding(b.queue[0]), queue := b.queue[1..])
      else if b.closed then b.(worker := Rejecting) else b
    case Holding(c) =>
      if b.closed then b.(worker := Rejecting, rejected := b.rejected + [c]) else b.(worker := Executing(c))
    case Executing(c) => b.(worker := Replied, executed := b.executed + [c])
    case Replied => b.(worker := if b.closed then Rejecting else Receiving)
    case Rejecting =>
      if b.queue != [] then b.(rejected := b.rejected + [b.queue[0]], queue := b.queue[1..])
      else b.(worker := Done)
    case Done => b
  }

  function Next(b: Box, step: Step): Box {
    match step
    case Offer(call, parked) => Offered(b, call, parked)
    case Close => b.(closed := true)
    case Work => Worked(b)
  }

  function Run(b: Box, steps: seq<Step>): Box
    decreases |steps|
  {
    if steps == [] then b else Run(Next(b, steps[0]), steps[1..])
  }

  function InHand(w: Worker): seq<CallId> {
    match w case Holding(c) => [c] case Executing(c) => [c] case _ => []
  }

  /** Accepted calls are, in acceptance order: the executed ones, the one in hand or
      the rejected ones, and the queued ones. */
  ghost predicate Inv(b: Box) {
    && b.accepted == b.executed + InHand(b.worker) + b.rejected + b.queue
    && |b.queue| <= b.capacity
    && (b.worker == Rejecting || b.worker == Done ==> b.closed)
    && (b.worker != Rejecting && b.worker != Done ==> b.rejected == [])
    && (b.worker == Done ==> b.queue == [])
  }

  lemma WorkKeepsInv(b: Box)
    requires Inv(b)
    ensures Inv(Worked(b)) && b.executed <= Worked(b).executed && b.rejected <= Worked(b).rejected
    ensures b.accepted == Worked(b).accepted
  {
    if b.queue != [] {
      assert b.queue == [b.queue[0]] + b.queue[1..];
    }
  }

  lemma OfferKeepsInv(b: Box, call: CallId, parked: bool)
    requires Inv(b)
    ensures Inv(Offered(b, call, parked)) && b.accepted <= Offered(b, call, parked).accepted
  {
  }

  lemma StepKeepsInv(b: Box, step: Step)
    requires Inv(b)
    ensures Inv(Next(b, step))
    ensures b.executed <= Next(b, step).executed && b.rejected <= Next(b, step).rejected
    ensures b.accepted <= Next(b, step).accepted
  {
    match step {
      case Offer(call, parked) => OfferKeepsInv(b, call, parked);
      case Close =>
      case Work => WorkKeepsInv(b);
    }
  }

  lemma {:induction false} RunKeepsInv(b: Box, steps: seq<Step>)
    requires Inv(b)
    ensures Inv(Run(b, steps))
    decreases |steps|
  {
    if steps != [] {
      StepKeepsInv(b, steps[0]);
      RunKeepsInv(Next(b, steps[0]), steps[1..]);
    }
  }

  /** At every moment of every run the executed calls are a prefix of the accepted
      ones; when the worker is done, the rest was rejected, and each accepted call
      got exactly one reply, in acceptance order. */
  lemma ExecutedThenRejected(capacity: nat, steps: seq<Step>)
    ensures var b := Run(Opened(capacity), steps);
      && b.executed <= b.accepted
      && (b.rejected != [] ==> b.closed && b.executed + b.rejected <= b.accepted)
      && (b.worker == Done ==> b.closed && b.queue == [] && b.accepted == b.executed + b.rejected)
  {
    RunKeepsInv(Opened(capacity), steps);
  }

  lemma {:induction false} DoneIsFinal(b: Box, steps: seq<Step>)
    requires Inv(b) && b.worker == Done
    ensures Run(b, steps) == b
    decreases |steps|
  {
    if steps != [] {
      assert Next(b, steps[0]) == b;
      DoneIsFinal(b, steps[1..]);
    }
  }

  // ---- what becomes of every call ------------------------------------------------------------------

  /** Once the mailbox is closed no body starts: at most the one that runs is still executed. */
  lemma {:induction false} ClosedStartsNothing(b: Box, steps: seq<Step>)
    requires Inv(b) && b.closed
    ensures var last := Run(b, steps);
      && last.closed && last.accepted == b.accepted
      && (last.executed == b.executed || (b.worker.Executing? && last.executed == b.executed + [b.worker.call]))
      && (!b.worker.Executing? ==> last.executed == b.executed && !last.worker.Executing?)
    decreases |steps|
  {
    if steps != [] {
      StepKeepsInv(b, steps[0]);
      ClosedStartsNothing(Next(b, steps[0]), steps[1..]);
    }
  }

  /** Worker steps until an open mailbox has executed what it accepted. */
  function ServiceLeft(b: Box): nat {
    match b.worker
    case Receiving => 4 * |b.queue|
    case Holding(_) => 3 + 4 * |b.queue|
    case Executing(_) => 2 + 4 * |b.queue|
    case Replied => 1 + 4 * |b.queue|
    case _ => 0
  }

  /** The worker's steps alone, `n` of them. */
  function Works(n: nat): seq<Step> {
    seq(n, i requires 0 <= i < n => Work)
  }

  lemma OpenWorks(b: Box)
    requires Inv(b) && !b.closed && ServiceLeft(b) > 0
    ensures !Worked(b).closed && ServiceLeft(Worked(b)) == ServiceLeft(b) - 1
  {
  }

  /** An open mailbox that is left alone executes every call it accepted, in the order of
      acceptance, and rejects none. */
  lemma {:induction false} OpenServesAll(b: Box)
    requires Inv(b) && !b.closed
    ensures var last := Run(b, Works(ServiceLeft(b)));
      last.executed == b.accepted == last.accepted && last.rejected == [] && last.worker == Receiving
    decreases ServiceLeft(b)
  {
    if ServiceLeft(b) > 0 {
      OpenWorks(b);
      WorkKeepsInv(b);
      OpenServesAll(Worked(b));
      assert Works(ServiceLeft(b))[1..] == Works(ServiceLeft(b) - 1);
    }
  }

  /** A call is accepted exactly when the mailbox is open and has room, or the worker waits for it. */
  lemma AcceptedIff(b: Box, call: CallId, parked: bool)
    ensures Next(b, Offer(call, parked)).accepted == b.accepted +
      if !b.closed && (|b.queue| < b.capacity || (parked && b.worker == Receiving && b.queue == [])) then [call] else []
  {
  }

  /** How many worker steps remain before a closed mailbox is done. */
  function WorkLeft(b: Box): nat {
    match b.worker
    case Done => 0
    case Rejecting => 1 + |b.queue|
    case Replied => 2 + |b.queue|
    case Executing(_) => 3 + |b.queue|
    case Holding(_) => 4 + |b.queue|
    case Receiving => 5 + |b.queue|
  }

  /** Once closed, every worker step brings the end closer: draining terminates. */
  lemma ClosedDrains(b: Box)
    requires b.closed && b.worker != Done
    ensures WorkLeft(Worked(b)) < WorkLeft(b)
  {
  }

  // ---- the object ---------------------------------------------------------------------------------

  class MailBox {
    const capacity: nat
    var queue: seq<CallId>
    var closed: bool
    var worker: Worker
    ghost var accepted: seq<CallId>
    var executed: seq<CallId>
    var rejected: seq<CallId>

    ghost function Value(): Box
      reads this
    {
      Box(capacity, queue, closed, worker, accepted, executed, rejected)
    }

    constructor (capacity: nat)
      ensures Value() == Opened(capacity)
    {
      this.capacity := capacity;
      queue, closed, worker := [], false, Receiving;
      accepted, executed, rejected := [], [], [];
    }

    method Call(call: CallId, parked: bool) returns (answer: Answer)
      modifies this
      ensures answer == RefusedClosed <==> old(closed)
      ensures answer == Accepted <==>
        !old(closed) && (|old(queue)| < capacity || (parked && old(worker) == Receiving && old(queue) == []))
      ensures accepted == old(accepted) + if answer == Accepted then [call] else []
      ensures executed == old(executed) && rejected == old(rejected) && closed == old(closed)
      ensures answer == Accepted ==>
        if parked && old(worker) == Receiving && old(queue) == []
        then worker == Holding(call) && queue == [] else worker == old(worker) && queue == old(queue) + [call]
      ensures Value() == Offered(old(Value()), call, parked)
      ensures answer == Answered(old(Value()), parked)
    {
      if closed {
        return RefusedClosed;
      }
      if parked && worker == Receiving && queue == [] {
        worker, accepted := Holding(call), accepted + [call];
        return Accepted;
      }
      if |queue| < capacity {
        queue, accepted := queue + [call], accepted + [call];
        return Accepted;
      }
      return RefusedOverloaded;
    }

    method CloseBox()
      modifies this
      ensures closed && queue == old(queue) && worker == old(worker)
      ensures accepted == old(accepted) && executed == old(executed) && rejected == old(rejected)
      ensures Value() == Next(old(Value()), Close)
    {
      if closed {
        return;
      }
      closed := true;
    }

    /** The worker's next step, wherever it stands and whatever others did meanwhile. */
    method WorkStep()
      modifies this
      ensures Value() == Worked(old(Value()))
    {
      match worker {
        case Receiving =>
          if |queue| > 0 {
            worker, queue := Holding(queue[0]), queue[1..];
          } else if closed {
            worker := Rejecting;
          }
        case Holding(c) =>
          if closed {
            rejected, worker := rejected + [c], Rejecting;
          } else {
            worker := Executing(c);
          }
        case Executing(c) =>
          executed, worker := executed + [c], Replied;
        case Replied =>
          worker := if closed then Rejecting else Receiving;
        case Rejecting =>
          if |queue| > 0 {
            rejected, queue := rejected + [queue[0]], queue[1..];
          } else {
            worker := Done;
          }
        case Done =>
      }
    }

    /** `run`, interleaved with any calls and closings, in any order. */
    method RunAmong(steps: seq<Step>)
      modifies this
      ensures Value() == Run(old(Value()), steps)
    {
      var i := 0;
      while i < |steps|
        invariant 0 <= i <= |steps|
        invariant Run(Value(), steps[i..]) == Run(old(Value()), steps)
      {
        assert steps[i..][0] == steps[i] && steps[i..][1..] == steps[i + 1..];
        match steps[i] {
          case Offer(call, parked) =>
            var _ := Call(call, parked);
          case Close => CloseBox();
          case Work => WorkStep();
        }
        i := i + 1;
      }
    }

    /** `rejectQueued`: everything queued is rejected, in order. */
    method RejectQueued()
      requires worker == Rejecting && closed && Inv(Value())
      modifies this
      ensures Value() == old(Value()).(worker := Done, queue := [], rejected := old(rejected) + old(queue))
      ensures Inv(Value())
    {
      while |queue| > 0
        invariant worker == Rejecting && closed
        invariant rejected + queue == old(rejected) + old(queue)
        invariant accepted == old(accepted) && executed == old(executed)
        decreases |queue|
      {
        rejected := rejected + [queue[0]];
        queue := queue[1..];
      }
      worker := Done;
      assert Value().rejected == old(rejected) + old(queue);
    }

    /** `run` from any point on, when no other goroutine interferes any more and the
        mailbox is closed: a body that runs is finished, the rest is rejected. */
    method RunToEnd()
      requires closed && Inv(Value())
      modifies this
      ensures Inv(Value()) && worker == Done && closed && accepted == old(accepted)
      ensures executed == old(executed) + (if old(worker).Executing? then [old(worker).call] else [])
      ensures accepted == executed + rejected
    {
      if worker.Done? {
        return;
      }
      if worker.Executing? {
        executed := executed + [worker.call];
      } else if worker.Holding? {
        rejected := rejected + [worker.call];
      } else if worker == Receiving && |queue| > 0 {
        rejected := rejected + [queue[0]];
        queue := queue[1..];
      }
      worker := Rejecting;
      RejectQueued();
    }
  }
}
