/** The call counter of one activation, its callers and its mailbox.

    A caller is admitted, offers its call to the mailbox, waits or gives up, and may
    have to release the counter itself; the counter is otherwise released when the
    body returns. Idle eviction trusts the counter. */
module CallAccounting {
  import M = Mailbox
  import O = Orders

  datatype Caller =
    | Admitted    // counted, not yet offered to the mailbox
    | Waiting     // accepted by the mailbox, waiting for the reply
    | Gone        // gave up waiting; the call stays where it is
    | Owing       // got a mailbox error, about to release the counter
    | Returned

  /** `wraps`: the error the method itself returned wraps one of the mailbox's errors. */
  datatype Outcome = Body(wraps: bool) | Rejected

  /** `released`: the body in hand has returned and released the counter, the reply is not yet sent. */
  datatype State = State(
    active: bool,
    box: M.Box,
    calls: int,
    callers: map<M.CallId, Caller>,
    released: bool,
    replies: map<M.CallId, Outcome>)

  datatype Step =
    | Admit(call: M.CallId)
    | Offer(call: M.CallId, parked: bool)
    | Abandon(call: M.CallId)
    | Receive(call: M.CallId)
    | Settle(call: M.CallId)
    | BodyReturns
    | Work(wraps: bool)
    | Evict
    | Stop
    | CloseBox

  function Started(capacity: nat): State {
    State(true, M.Opened(capacity), 0, map[], false, map[])
  }

  predicate Is(s: State, call: M.CallId, phase: Caller) {
    call in s.callers && s.callers[call] == phase
  }

  function Goes(s: State, call: M.CallId, phase: Caller): State {
    s.(callers := s.callers[call := phase])
  }

  /** `callFinished`. */
  function Finished(s: State): State {
    s.(calls := s.calls - 1)
  }

  function Offered(s: State, call: M.CallId, parked: bool): State {
    if M.Answered(s.box, parked) == M.Accepted
    then Goes(s, call, Waiting).(box := M.Offered(s.box, call, parked))
    else Goes(s, call, Owing)
  }

  /** The worker's next step; replies are sent when a body ended or a call is rejected. */
  function Worked(s: State, wraps: bool): State {
    var next := s.(box := M.Worked(s.box));
    match s.box.worker
    case Executing(c) => if s.released then next.(replies := s.replies[c := Body(wraps)], released := false) else s
    case Holding(c) => if s.box.closed then next.(replies := s.replies[c := Rejected]) else next
    case Rejecting => if s.box.queue != [] then next.(replies := s.replies[s.box.queue[0] := Rejected]) else next
    case _ => next
  }

  function Next(s: State, step: Step): State {
    match step
    case Admit(c) => if s.active && c !in s.callers then Goes(s, c, Admitted).(calls := s.calls + 1) else s
    case Offer(c, parked) => if Is(s, c, Admitted) then Offered(s, c, parked) else s
    case Abandon(c) => if Is(s, c, Waiting) then Goes(s, c, Gone) else s
    case Receive(c) =>
      if Is(s, c, Waiting) && c in s.replies
      then Goes(s, c, if s.replies[c] == Body(false) then Returned else Owing) else s
    case Settle(c) => if Is(s, c, Owing) then Goes(Finished(s), c, Returned) else s
    case BodyReturns => if s.box.worker.Executing? && !s.released then Finished(s).(released := true) else s
    case Work(wraps) => Worked(s, wraps)
    case Evict => if s.active && s.calls == 0 then s.(active := false) else s
    case Stop => s.(active := false)
    case CloseBox => if s.active then s else s.(box := M.Next(s.box, M.Close))
  }

  function Run(s: State, steps: seq<Step>): State
    decreases |steps|
  {
    if steps == [] then s else Run(Next(s, steps[0]), steps[1..])
  }

  // ---- what the counter should count ------------------------------------------------------------

  /** Admitted, and neither has its body returned nor has its caller dealt with a mailbox error. */
  predicate Open(s: State, c: M.CallId) {
    && c in s.callers && s.callers[c] != Returned
    && c !in s.box.executed
    && !(s.released && s.box.worker == M.Executing(c))
  }

  /** The body returned, and the caller took its error for one of the mailbox's. */
  predicate Twice(s: State, c: M.CallId) {
    Is(s, c, Returned) && c in s.replies && s.replies[c] == Body(true)
  }

  function Unfinished(s: State): set<M.CallId> {
    set c | c in s.callers && Open(s, c)
  }

  function Doubled(s: State): set<M.CallId> {
    set c | c in s.callers && Twice(s, c)
  }

  ghost predicate BoxOk(s: State) {
    && M.Inv(s.box) && O.Distinct(s.box.accepted)
    && (s.active ==> !s.box.closed)
    && (s.released ==> s.box.worker.Executing?)
    && (forall c :: c in s.box.accepted ==> c in s.callers && s.callers[c] != Admitted)
    && (forall c :: c in s.replies <==> c in s.box.executed || c in s.box.rejected)
    && (forall c :: c in s.replies ==> (s.replies[c].Body? <==> c in s.box.executed))
  }

  ghost predicate CallerOk(s: State, c: M.CallId)
    requires c in s.callers
  {
    match s.callers[c]
    case Admitted => true
    case Waiting => c in s.box.accepted
    case Gone => c in s.box.accepted
    case Owing => c in s.box.accepted ==> c in s.replies && s.replies[c] != Body(false)
    case Returned => c in s.box.accepted ==> c in s.replies
  }

  ghost predicate CallersOk(s: State) {
    forall c :: c in s.callers ==> CallerOk(s, c)
  }

  ghost predicate Inv(s: State) {
    && BoxOk(s) && CallersOk(s)
    && s.calls == |Unfinished(s)| - |Doubled(s)|
  }

  // ---- the mailbox's parts ---------------------------------------------------------------------------

  /** A distinct sequence has distinct parts. */
  lemma Apart(a: seq<M.CallId>, b: seq<M.CallId>, c: M.CallId)
    requires O.Distinct(a + b) && c in a
    ensures c !in b
  {
    var i :| 0 <= i < |a| && a[i] == c;
    assert (a + b)[i] == c;
    assert forall j :: 0 <= j < |b| ==> (a + b)[|a| + j] == b[j];
  }

  lemma InHandIsOpen(b: M.Box, c: M.CallId)
    requires M.Inv(b) && O.Distinct(b.accepted) && M.InHand(b.worker) == [c]
    ensures c in b.accepted && c !in b.executed && c !in b.rejected && c !in b.queue
  {
    assert b.rejected == [];
    assert b.accepted == b.executed + ([c] + b.queue);
    if c in b.executed {
      Apart(b.executed, [c] + b.queue, c);
    }
    assert b.accepted == (b.executed + [c]) + b.queue;
    Apart(b.executed + [c], b.queue, c);
  }

  lemma QueuedIsOpen(b: M.Box, c: M.CallId)
    requires M.Inv(b) && O.Distinct(b.accepted) && c in b.queue
    ensures c in b.accepted && c !in b.executed && c !in b.rejected && M.InHand(b.worker) != [c]
  {
    var front := b.executed + M.InHand(b.worker) + b.rejected;
    assert b.accepted == front + b.queue;
    if c in front {
      Apart(front, b.queue, c);
    }
  }

  lemma AcceptedParts(b: M.Box, c: M.CallId)
    requires M.Inv(b)
    ensures c in b.accepted <==> c in b.executed || M.InHand(b.worker) == [c] || c in b.rejected || c in b.queue
  {
  }

  // ---- every step keeps the count ---------------------------------------------------------------------

  /** How the count of unfinished calls follows one caller's move. */
  lemma MoveOpens(s: State, c: M.CallId, phase: Caller)
    ensures var s' := Goes(s, c, phase);
      Unfinished(s') == if Open(s', c) then Unfinished(s) + {c} else Unfinished(s) - {c}
  {
    var s' := Goes(s, c, phase);
    forall d | d != c ensures Open(s', d) <==> Open(s, d) { }
  }

  lemma MoveDoubles(s: State, c: M.CallId, phase: Caller)
    ensures var s' := Goes(s, c, phase);
      Doubled(s') == if Twice(s', c) then Doubled(s) + {c} else Doubled(s) - {c}
  {
    var s' := Goes(s, c, phase);
    forall d | d != c ensures Twice(s', d) <==> Twice(s, d) { }
  }

  lemma AdmitCounts(s: State, c: M.CallId)
    requires BoxOk(s) && c !in s.callers
    ensures var s' := Goes(s, c, Admitted); |Unfinished(s')| == |Unfinished(s)| + 1 && Doubled(s') == Doubled(s)
  {
    AcceptedParts(s.box, c);
    MoveOpens(s, c, Admitted);
    MoveDoubles(s, c, Admitted);
    assert c !in Unfinished(s) && c !in Doubled(s);
  }

  lemma AdmitKeepsInv(s: State, c: M.CallId)
    requires Inv(s) && s.active && c !in s.callers
    ensures Inv(Goes(s, c, Admitted).(calls := s.calls + 1))
  {
    var s' := Goes(s, c, Admitted).(calls := s.calls + 1);
    AdmitCounts(s, c);
    assert Unfinished(s') == Unfinished(Goes(s, c, Admitted)) && Doubled(s') == Doubled(Goes(s, c, Admitted));
    forall d | d in s'.callers ensures CallerOk(s', d) {
      assert d != c ==> CallerOk(s, d);
    }
  }

  lemma RefusedKeepsInv(s: State, c: M.CallId)
    requires Inv(s) && Is(s, c, Admitted)
    ensures Inv(Goes(s, c, Owing))
  {
    var s' := Goes(s, c, Owing);
    AcceptedParts(s.box, c);
    assert Unfinished(s') == Unfinished(s) && Doubled(s') == Doubled(s);
    forall d | d in s'.callers ensures CallerOk(s', d) {
      assert d != c ==> CallerOk(s, d);
    }
  }

  lemma AcceptedKeepsInv(s: State, c: M.CallId, parked: bool)
    requires Inv(s) && Is(s, c, Admitted) && M.Answered(s.box, parked) == M.Accepted
    ensures Inv(Offered(s, c, parked))
  {
    var s' := Offered(s, c, parked);
    AcceptedKeepsBox(s, c, parked);
    assert Unfinished(s') == Unfinished(s) && Doubled(s') == Doubled(s);
    forall d | d in s'.callers ensures CallerOk(s', d) {
      assert d != c ==> CallerOk(s, d);
    }
  }

  lemma AcceptedKeepsBox(s: State, c: M.CallId, parked: bool)
    requires BoxOk(s) && Is(s, c, Admitted) && M.Answered(s.box, parked) == M.Accepted
    ensures BoxOk(Offered(s, c, parked))
    ensures var box := Offered(s, c, parked).box;
      && c !in s.box.executed && box.accepted == s.box.accepted + [c]
      && box.executed == s.box.executed && box.rejected == s.box.rejected
      && (s.released ==> box.worker == s.box.worker && s.box.worker != M.Executing(c))
  {
    var s' := Offered(s, c, parked);
    M.StepKeepsInv(s.box, M.Offer(c, parked));
    assert c !in s.box.accepted && s'.box.accepted == s.box.accepted + [c];
    AcceptedParts(s.box, c);
  }

  lemma AbandonKeepsInv(s: State, c: M.CallId)
    requires Inv(s) && Is(s, c, Waiting)
    ensures Inv(Goes(s, c, Gone))
  {
    var s' := Goes(s, c, Gone);
    assert CallerOk(s, c);
    assert Unfinished(s') == Unfinished(s) && Doubled(s') == Doubled(s);
    forall d | d in s'.callers ensures CallerOk(s', d) {
      assert d != c ==> CallerOk(s, d);
    }
  }

  /** A reply settles the caller, or makes it release the counter; only the error of a
      body that wraps a mailbox error does so for a call that was already released. */
  lemma ReceiveKeepsInv(s: State, c: M.CallId)
    requires Inv(s) && Is(s, c, Waiting) && c in s.replies
    ensures Inv(Goes(s, c, if s.replies[c] == Body(false) then Returned else Owing))
  {
    var s' := Goes(s, c, if s.replies[c] == Body(false) then Returned else Owing);
    assert CallerOk(s, c);
    ReceiveCounts(s, c);
    forall d | d in s'.callers ensures CallerOk(s', d) {
      assert d != c ==> CallerOk(s, d);
    }
  }

  lemma ReceiveCounts(s: State, c: M.CallId)
    requires BoxOk(s) && Is(s, c, Waiting) && c in s.replies
    ensures var s' := Goes(s, c, if s.replies[c] == Body(false) then Returned else Owing);
      Unfinished(s') == Unfinished(s) && Doubled(s') == Doubled(s)
  {
    var phase := if s.replies[c] == Body(false) then Returned else Owing;
    MoveOpens(s, c, phase);
    MoveDoubles(s, c, phase);
    assert c !in Doubled(s);
  }

  lemma SettledIsOver(s: State, c: M.CallId)
    requires BoxOk(s) && Is(s, c, Owing) && CallerOk(s, c)
    ensures c in s.box.executed ==> c in s.replies && s.replies[c] == Body(true)
    ensures Open(s, c) <==> c !in s.box.executed
  {
    AcceptedParts(s.box, c);
    if M.InHand(s.box.worker) == [c] {
      InHandIsOpen(s.box, c);
    }
  }

  lemma SettleCounts(s: State, c: M.CallId)
    requires BoxOk(s) && Is(s, c, Owing) && CallerOk(s, c)
    ensures var s' := Goes(s, c, Returned);
      |Unfinished(s')| - |Doubled(s')| == |Unfinished(s)| - |Doubled(s)| - 1
  {
    SettledIsOver(s, c);
    MoveOpens(s, c, Returned);
    MoveDoubles(s, c, Returned);
    assert c !in Doubled(s);
    if c in s.box.executed {
      assert c !in Unfinished(s);
    } else {
      assert c in Unfinished(s);
    }
  }

  lemma SettleKeepsInv(s: State, c: M.CallId)
    requires Inv(s) && Is(s, c, Owing)
    ensures Inv(Goes(Finished(s), c, Returned))
  {
    var s' := Goes(Finished(s), c, Returned);
    assert CallerOk(s, c);
    SettleCounts(s, c);
    var moved := Goes(s, c, Returned);
    assert Unfinished(s') == Unfinished(moved) && Doubled(s') == Doubled(moved);
    forall d | d in s'.callers ensures CallerOk(s', d) {
      assert CallerOk(s, d);
    }
  }

  lemma BodyKeepsInv(s: State)
    requires Inv(s) && s.box.worker.Executing? && !s.released
    ensures Inv(Finished(s).(released := true))
  {
    var s', c := Finished(s).(released := true), s.box.worker.call;
    InHandIsOpen(s.box, c);
    assert CallerOk(s, c) && Open(s, c);
    assert Unfinished(s') == Unfinished(s) - {c} && Doubled(s') == Doubled(s);
    forall d | d in s'.callers ensures CallerOk(s', d) {
      assert CallerOk(s, d);
    }
  }

  /** The worker moves on without answering anybody. */
  lemma QuietKeepsInv(s: State, box: M.Box)
    requires Inv(s) && !s.released && M.Inv(box) && box.closed == s.box.closed
    requires box.accepted == s.box.accepted && box.executed == s.box.executed && box.rejected == s.box.rejected
    ensures Inv(s.(box := box))
  {
    var s' := s.(box := box);
    assert Unfinished(s') == Unfinished(s) && Doubled(s') == Doubled(s);
    forall d | d in s'.callers ensures CallerOk(s', d) {
      assert CallerOk(s, d);
    }
  }

  lemma RejectKeepsBox(s: State, box: M.Box, c: M.CallId)
    requires BoxOk(s) && !s.released && M.Inv(box) && box.closed == s.box.closed && box.accepted == s.box.accepted
    requires box.executed == s.box.executed && box.rejected == s.box.rejected + [c] && c !in s.replies
    ensures BoxOk(s.(box := box, replies := s.replies[c := Rejected]))
  {
  }

  /** The worker rejects a call: its caller, if still there, will release the counter. */
  lemma RejectKeepsInv(s: State, box: M.Box, c: M.CallId)
    requires Inv(s) && !s.released && M.Inv(box) && box.closed == s.box.closed && box.accepted == s.box.accepted
    requires box.executed == s.box.executed && box.rejected == s.box.rejected + [c] && c !in s.replies
    requires c in s.callers && s.callers[c] != Returned
    ensures Inv(s.(box := box, replies := s.replies[c := Rejected]))
  {
    var s' := s.(box := box, replies := s.replies[c := Rejected]);
    RejectKeepsBox(s, box, c);
    assert Unfinished(s') == Unfinished(s) && Doubled(s') == Doubled(s);
    forall d | d in s'.callers ensures CallerOk(s', d) {
      assert CallerOk(s, d);
    }
  }

  lemma ReplyKeepsBox(s: State, box: M.Box, c: M.CallId, wraps: bool)
    requires BoxOk(s) && M.Inv(box) && box.closed == s.box.closed && box.accepted == s.box.accepted
    requires box.executed == s.box.executed + [c] && box.rejected == s.box.rejected && c !in s.replies
    ensures BoxOk(s.(box := box, replies := s.replies[c := Body(wraps)], released := false))
  {
  }

  /** The worker sends the reply of a body that already released the counter. */
  lemma ReplyKeepsInv(s: State, box: M.Box, c: M.CallId, wraps: bool)
    requires Inv(s) && s.released && s.box.worker == M.Executing(c) && c in s.callers && s.callers[c] != Returned
    requires M.Inv(box) && box.closed == s.box.closed && box.accepted == s.box.accepted && c !in s.replies
    requires box.executed == s.box.executed + [c] && box.rejected == s.box.rejected && c in s.box.accepted
    ensures Inv(s.(box := box, replies := s.replies[c := Body(wraps)], released := false))
  {
    var s' := s.(box := box, replies := s.replies[c := Body(wraps)], released := false);
    ReplyKeepsBox(s, box, c, wraps);
    assert CallerOk(s, c);
    assert Unfinished(s') == Unfinished(s) && Doubled(s') == Doubled(s);
    forall d | d in s'.callers ensures CallerOk(s', d) {
      assert CallerOk(s, d);
    }
  }

  /** The worker's step does not touch the counter, and changes nobody's standing. */
  lemma WorkKeepsInv(s: State, wraps: bool)
    requires Inv(s)
    ensures Inv(Worked(s, wraps))
  {
    var box := M.Worked(s.box);
    M.StepKeepsInv(s.box, M.Work);
    match s.box.worker {
      case Executing(c) =>
        if s.released {
          InHandIsOpen(s.box, c);
          assert CallerOk(s, c);
          ReplyKeepsInv(s, box, c, wraps);
        }
      case Holding(c) =>
        if s.box.closed {
          InHandIsOpen(s.box, c);
          assert CallerOk(s, c);
          RejectKeepsInv(s, box, c);
        } else {
          QuietKeepsInv(s, box);
        }
      case Rejecting =>
        if s.box.queue != [] {
          QueuedIsOpen(s.box, s.box.queue[0]);
          assert CallerOk(s, s.box.queue[0]);
          RejectKeepsInv(s, box, s.box.queue[0]);
        } else {
          QuietKeepsInv(s, box);
        }
      case _ => QuietKeepsInv(s, box);
    }
  }

  lemma StopKeepsInv(s: State, step: Step)
    requires Inv(s) && (step.Evict? || step.Stop? || step.CloseBox?)
    ensures Inv(Next(s, step))
  {
    var s' := Next(s, step);
    assert Unfinished(s') == Unfinished(s) && Doubled(s') == Doubled(s);
    forall d | d in s'.callers ensures CallerOk(s', d) {
      assert CallerOk(s, d);
    }
  }

  lemma StepKeepsInv(s: State, step: Step)
    requires Inv(s)
    ensures Inv(Next(s, step))
  {
    match step {
      case Admit(c) => if s.active && c !in s.callers { AdmitKeepsInv(s, c); }
      case Offer(c, parked) =>
        if Is(s, c, Admitted) {
          RefusedKeepsInv(s, c);
          if M.Answered(s.box, parked) == M.Accepted {
            AcceptedKeepsInv(s, c, parked);
          }
        }
      case Abandon(c) => if Is(s, c, Waiting) { AbandonKeepsInv(s, c); }
      case Receive(c) => if Is(s, c, Waiting) && c in s.replies { ReceiveKeepsInv(s, c); }
      case Settle(c) => if Is(s, c, Owing) { SettleKeepsInv(s, c); }
      case BodyReturns => if s.box.worker.Executing? && !s.released { BodyKeepsInv(s); }
      case Work(wraps) => WorkKeepsInv(s, wraps);
      case _ => StopKeepsInv(s, step);
    }
  }

  lemma {:induction false} RunKeepsInv(s: State, steps: seq<Step>)
    requires Inv(s)
    ensures Inv(Run(s, steps))
    decreases |steps|
  {
    if steps != [] {
      StepKeepsInv(s, steps[0]);
      RunKeepsInv(Next(s, steps[0]), steps[1..]);
    }
  }

  lemma Reached(capacity: nat, steps: seq<Step>)
    ensures Inv(Run(Started(capacity), steps))
  {
    RunKeepsInv(Started(capacity), steps);
  }
}
