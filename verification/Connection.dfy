/** The owner loop of a connection: it multiplexes outgoing requests by correlation
    identifier, runs a handler per inbound request, and on a graceful close leaves
    only when it owes the peer nothing.

    `State` holds the loop's variables together with what has happened so far:
    inbound requests accepted, frames enqueued and handed to the writer, results
    delivered. Correlation identifiers are unbounded. */
module Connection {

  datatype Kind = Request | Response | Failure
  datatype Frame = Frame(id: nat, kind: Kind, payload: seq<int>)

  /** A result handed to the caller that waits for `request`. */
  datatype Delivery = Delivery(request: nat, frame: Frame)

  datatype Phase = Open | Finished | Aborted

  datatype State = State(
    pending: map<nat, seq<int>>,
    queue: seq<Frame>,
    nextId: nat,
    inflight: int,
    closing: bool,
    phase: Phase,
    handlers: multiset<nat>,
    accepted: multiset<nat>,
    enqueued: seq<Frame>,
    handed: seq<Frame>,
    results: seq<Delivery>)

  datatype Event =
    | Send(payload: seq<int>)
    | WriterTakes
    | Inbound(frame: Frame)
    | HandlerDone(id: nat, failed: bool, payload: seq<int>)
    | Cancel(id: nat)
    | CloseRequested
    | KillRequested
    | Died

  function Started(): State {
    State(map[], [], 1, 0, false, Open, multiset{}, multiset{}, [], [], [])
  }

  function Enqueue(s: State, f: Frame): State {
    s.(queue := s.queue + [f], enqueued := s.enqueued + [f])
  }

  /** `complete`: the request leaves `pending` before its result is delivered. */
  function Completed(s: State, f: Frame): State {
    if f.id !in s.pending then s
    else s.(pending := s.pending - {f.id}, results := s.results + [Delivery(f.id, f)])
  }

  function Sent(s: State, payload: seq<int>): State {
    if s.closing then s
    else Enqueue(s.(pending := s.pending[s.nextId := payload], nextId := s.nextId + 1),
                 Frame(s.nextId, Request, payload))
  }

  function Taken(s: State): State {
    if s.queue == [] then s else s.(queue := s.queue[1..], handed := s.handed + [s.queue[0]])
  }

  /** A graceful close stops accepting requests: later ones are discarded. */
  function Arrived(s: State, f: Frame, serving: bool): State {
    if f.kind != Request then Completed(s, f)
    else if !serving || s.closing then s
    else s.(inflight := s.inflight + 1, handlers := s.handlers + multiset{f.id}, accepted := s.accepted + multiset{f.id})
  }

  function Reply(id: nat, failed: bool, payload: seq<int>): Frame {
    Frame(id, if failed then Failure else Response, payload)
  }

  function Handled(s: State, id: nat, failed: bool, payload: seq<int>): State {
    if id !in s.handlers then s
    else Enqueue(s.(inflight := s.inflight - 1, handlers := s.handlers - multiset{id}), Reply(id, failed, payload))
  }

  /** One received case of the select; a case that is not ready changes nothing. */
  function Received(s: State, e: Event, serving: bool): State {
    match e
    case Send(payload) => Sent(s, payload)
    case WriterTakes => Taken(s)
    case Inbound(f) => Arrived(s, f, serving)
    case HandlerDone(id, failed, payload) => Handled(s, id, failed, payload)
    case Cancel(id) => s.(pending := s.pending - {id})
    case CloseRequested => s.(closing := true)
    case KillRequested => s.(phase := Aborted)
    case Died => s.(phase := Aborted)
  }

  /** One turn of the loop, with the exit test at its end. */
  function Next(s: State, e: Event, serving: bool): State {
    if s.phase != Open then s
    else
      var r := Received(s, e, serving);
      if r.phase == Open && r.closing && r.inflight == 0 && |r.queue| == 0 then r.(phase := Finished) else r
  }

  function Run(s: State, events: seq<Event>, serving: bool): State
    decreases |events|
  {
    if events == [] then s else Run(Next(s, events[0], serving), events[1..], serving)
  }

  // ---- what the frames say --------------------------------------------------------------------

  /** Identifiers of the replies among the frames. */
  function Replies(fs: seq<Frame>): multiset<nat> {
    if fs == [] then multiset{}
    else if fs[|fs| - 1].kind == Request then Replies(fs[..|fs| - 1])
    else Replies(fs[..|fs| - 1]) + multiset{fs[|fs| - 1].id}
  }

  /** Identifiers of the outgoing requests among the frames, in order. */
  function Requests(fs: seq<Frame>): seq<nat> {
    if fs == [] then []
    else Requests(fs[..|fs| - 1]) + (if fs[|fs| - 1].kind == Request then [fs[|fs| - 1].id] else [])
  }

  lemma RepliesAppend(fs: seq<Frame>, f: Frame)
    ensures Replies(fs + [f]) == if f.kind == Request then Replies(fs) else Replies(fs) + multiset{f.id}
    ensures Requests(fs + [f]) == Requests(fs) + if f.kind == Request then [f.id] else []
  {
    assert (fs + [f])[..|fs|] == fs;
  }

  // ---- invariant ----------------------------------------------------------------------------------

  /** Inbound requests are conserved: each is being handled or was replied to. */
  ghost predicate Conserved(s: State) {
    s.inflight == |s.handlers| && s.accepted == s.handlers + Replies(s.enqueued)
  }

  /** Frames leave in the order in which they were enqueued. */
  ghost predicate Ordered(s: State) {
    s.enqueued == s.handed + s.queue
  }

  /** Outgoing requests are numbered 1, 2, 3, and so on. */
  ghost predicate Numbered(s: State) {
    && s.nextId == |Requests(s.enqueued)| + 1
    && (forall i :: 0 <= i < |Requests(s.enqueued)| ==> Requests(s.enqueued)[i] == i + 1)
  }

  /** One result at most, and only for a request that was sent and is no longer pending. */
  ghost predicate Answered(s: State) {
    && (forall id :: id in s.pending ==> 0 < id < s.nextId)
    && (forall i :: 0 <= i < |s.results| ==>
          && 0 < s.results[i].request < s.nextId && s.results[i].request !in s.pending
          && s.results[i].frame.id == s.results[i].request && s.results[i].frame.kind != Request)
    && (forall i, j :: 0 <= i < j < |s.results| ==> s.results[i].request != s.results[j].request)
  }

  ghost predicate Inv(s: State) {
    && Conserved(s) && Ordered(s) && Numbered(s) && Answered(s)
    && (s.phase == Finished ==> s.closing && s.inflight == 0 && s.queue == [])
  }

  lemma HandledConserves(s: State, id: nat, failed: bool, payload: seq<int>)
    requires Conserved(s) && id in s.handlers
    ensures Conserved(Handled(s, id, failed, payload))
  {
    var less, reply := s.handlers - multiset{id}, multiset{id};
    var replies := Replies(s.enqueued);
    RepliesAppend(s.enqueued, Reply(id, failed, payload));
    assert s.handlers == less + reply;
    assert (less + reply) + replies == less + (replies + reply);
  }

  lemma HandledKeepsInv(s: State, id: nat, failed: bool, payload: seq<int>)
    requires Inv(s) && s.phase == Open
    ensures Inv(Handled(s, id, failed, payload))
  {
    if id in s.handlers {
      HandledConserves(s, id, failed, payload);
      RepliesAppend(s.enqueued, Reply(id, failed, payload));
      assert Ordered(Handled(s, id, failed, payload));
    }
  }

  lemma SentCounts(s: State, payload: seq<int>)
    requires Conserved(s) && Ordered(s) && Numbered(s)
    ensures Conserved(Sent(s, payload)) && Ordered(Sent(s, payload)) && Numbered(Sent(s, payload))
  {
    RepliesAppend(s.enqueued, Frame(s.nextId, Request, payload));
  }

  lemma SentAnswers(s: State, payload: seq<int>)
    requires Answered(s) && s.nextId > 0
    ensures Answered(Sent(s, payload))
  {
  }

  lemma SentKeepsInv(s: State, payload: seq<int>)
    requires Inv(s) && s.phase == Open
    ensures Inv(Sent(s, payload))
  {
    SentCounts(s, payload);
    SentAnswers(s, payload);
  }

  lemma ArrivedKeepsInv(s: State, f: Frame, serving: bool)
    requires Inv(s) && s.phase == Open
    ensures Inv(Arrived(s, f, serving))
  {
    if f.kind == Request && serving && !s.closing {
      var replies := Replies(s.enqueued);
      assert (s.handlers + replies) + multiset{f.id} == (s.handlers + multiset{f.id}) + replies;
    }
  }

  lemma TakenKeepsInv(s: State)
    requires Inv(s) && s.phase == Open
    ensures Inv(Taken(s))
  {
    if s.queue != [] {
      assert s.queue == [s.queue[0]] + s.queue[1..];
    }
  }

  lemma ReceivedKeepsInv(s: State, e: Event, serving: bool)
    requires Inv(s) && s.phase == Open
    ensures Inv(Received(s, e, serving))
  {
    match e {
      case Send(payload) => SentKeepsInv(s, payload);
      case HandlerDone(id, failed, payload) => HandledKeepsInv(s, id, failed, payload);
      case WriterTakes => TakenKeepsInv(s);
      case Inbound(f) => ArrivedKeepsInv(s, f, serving);
      case _ =>
    }
  }

  lemma FinishKeepsInv(s: State)
    requires Inv(s) && s.closing && s.inflight == 0 && s.queue == []
    ensures Inv(s.(phase := Finished))
  {
  }

  lemma StepKeepsInv(s: State, e: Event, serving: bool)
    requires Inv(s)
    ensures Inv(Next(s, e, serving))
  {
    if s.phase == Open {
      var r := Received(s, e, serving);
      ReceivedKeepsInv(s, e, serving);
      if r.phase == Open && r.closing && r.inflight == 0 && |r.queue| == 0 {
        FinishKeepsInv(r);
      }
    }
  }

  lemma {:induction false} RunKeepsInv(s: State, events: seq<Event>, serving: bool)
    requires Inv(s)
    ensures Inv(Run(s, events, serving))
    decreases |events|
  {
    if events != [] {
      StepKeepsInv(s, events[0], serving);
      RunKeepsInv(Next(s, events[0], serving), events[1..], serving);
    }
  }

  lemma StartInv()
    ensures Inv(Started())
  {
  }

  // ---- laws of every run -----------------------------------------------------------------------------

  lemma SumIsAssociative(a: multiset<nat>, b: multiset<nat>, c: multiset<nat>)
    ensures (a + b) + c == a + (b + c)
  {
  }

  lemma {:induction false} RepliesSplit(a: seq<Frame>, b: seq<Frame>)
    ensures Replies(a + b) == Replies(a) + Replies(b)
  {
    if b == [] {
      assert a + b == a;
    } else {
      var init, last := b[..|b| - 1], b[|b| - 1];
      RepliesSplit(a, init);
      assert a + b == (a + init) + [last] && b == init + [last];
      RepliesAppend(a + init, last);
      RepliesAppend(init, last);
      assert Replies(a + b) == Replies((a + init) + [last]);
      SumIsAssociative(Replies(a), Replies(init), multiset{last.id});
    }
  }

  /** Until the loop stops and after: every accepted request is exactly one of being
      handled, having its reply queued, or having its reply handed to the writer. */
  lemma RequestsAreConserved(events: seq<Event>, serving: bool)
    ensures var s := Run(Started(), events, serving);
      s.accepted == s.handlers + Replies(s.queue) + Replies(s.handed) && s.inflight == |s.handlers|
  {
    StartInv();
    RunKeepsInv(Started(), events, serving);
    var s := Run(Started(), events, serving);
    RepliesSplit(s.handed, s.queue);
  }

  /** A graceful finish owes nothing: the replies handed to the writer are exactly the
      requests accepted, everything enqueued went out, in order. */
  lemma GracefulFinishOwesNothing(events: seq<Event>, serving: bool)
    requires Run(Started(), events, serving).phase == Finished
    ensures var s := Run(Started(), events, serving);
      s.closing && Replies(s.handed) == s.accepted && s.handed == s.enqueued
  {
    RequestsAreConserved(events, serving);
    StartInv();
    RunKeepsInv(Started(), events, serving);
    var s := Run(Started(), events, serving);
    assert s.handed + [] == s.handed;
  }

  lemma NextResults(s: State, e: Event, serving: bool)
    ensures var r := Next(s, e, serving).results;
      r == s.results || (e.Inbound? && r == s.results + [Delivery(e.frame.id, e.frame)])
  {
  }

  /** Results come from frames that were received. */
  lemma {:induction false} ResultsWereReceived(s: State, events: seq<Event>, serving: bool, i: nat)
    requires i < |Run(s, events, serving).results|
    ensures i < |s.results| || Inbound(Run(s, events, serving).results[i].frame) in events
    ensures i < |s.results| ==> Run(s, events, serving).results[i] == s.results[i]
    decreases |events|
  {
    if events != [] {
      NextResults(s, events[0], serving);
      ResultsWereReceived(Next(s, events[0], serving), events[1..], serving, i);
      assert events == [events[0]] + events[1..];
    }
  }

  /** Results: each answers a request that was sent, with a frame of the same
      identifier that was received, and no request is answered twice. */
  lemma AtMostOneResult(events: seq<Event>, serving: bool, i: nat, j: nat)
    requires i < |Run(Started(), events, serving).results| && j < |Run(Started(), events, serving).results|
    ensures var s := Run(Started(), events, serving);
      && s.results[i].request in Requests(s.enqueued)
      && s.results[i].frame.id == s.results[i].request && s.results[i].frame.kind != Request
      && Inbound(s.results[i].frame) in events
      && (s.results[i].request == s.results[j].request ==> i == j)
  {
    ResultsWereReceived(Started(), events, serving, i);
    StartInv();
    RunKeepsInv(Started(), events, serving);
    var s := Run(Started(), events, serving);
    assert Requests(s.enqueued)[s.results[i].request - 1] == s.results[i].request;
  }

  /** Correlation identifiers never repeat. */
  lemma IdentifiersNeverRepeat(events: seq<Event>, serving: bool, i: nat, j: nat)
    requires var sent := Requests(Run(Started(), events, serving).enqueued); i < j < |sent|
    ensures var sent := Requests(Run(Started(), events, serving).enqueued); sent[i] < sent[j]
  {
    StartInv();
    RunKeepsInv(Started(), events, serving);
  }

  // ---- the loop ----------------------------------------------------------------------------------------

  class Owner {
    var pending: map<nat, seq<int>>
    var queue: seq<Frame>
    var nextId: nat
    var inflight: int
    var closing: bool
    var phase: Phase
    const serving: bool
    var handlers: multiset<nat>   // the handler goroutines now running, by request identifier
    ghost var accepted: multiset<nat>
    ghost var enqueued: seq<Frame>
    ghost var handed: seq<Frame>
    ghost var results: seq<Delivery>

    ghost function Value(): State
      reads this
    {
      State(pending, queue, nextId, inflight, closing, phase, handlers, accepted, enqueued, handed, results)
    }

    constructor (serving: bool)
      ensures Value() == Started() && this.serving == serving
    {
      pending, queue, nextId, inflight, closing, phase := map[], [], 1, 0, false, Open;
      handlers, accepted, enqueued, handed, results := multiset{}, multiset{}, [], [], [];
      this.serving := serving;
    }

    method Complete(f: Frame) returns (delivered: bool)
      modifies this
      ensures Value() == Completed(old(Value()), f)
      ensures delivered <==> f.id in old(pending)
    {
      if f.id !in pending {
        return false;
      }
      pending := pending - {f.id};
      results := results + [Delivery(f.id, f)];
      return true;
    }

    method Accept(payload: seq<int>)
      modifies this
      ensures Value() == Sent(old(Value()), payload)
    {
      if !closing {
        var id := nextId;
        nextId := nextId + 1;
        pending := pending[id := payload];
        queue := queue + [Frame(id, Request, payload)];
        enqueued := enqueued + [Frame(id, Request, payload)];
      }
    }

    method Hand()
      modifies this
      ensures Value() == Taken(old(Value()))
    {
      if |queue| > 0 {
        handed := handed + [queue[0]];
        queue := queue[1..];
      }
    }

    method Dispatch(f: Frame)
      modifies this
      ensures Value() == Arrived(old(Value()), f, serving)
    {
      if f.kind == Request {
        if serving && !closing {
          inflight := inflight + 1;
          handlers := handlers + multiset{f.id};
          accepted := accepted + multiset{f.id};
        }
      } else {
        var _ := Complete(f);
      }
    }

    method Settle(id: nat, failed: bool, payload: seq<int>)
      modifies this
      ensures Value() == Handled(old(Value()), id, failed, payload)
    {
      if id in handlers {
        inflight := inflight - 1;
        handlers := handlers - multiset{id};
        queue := queue + [Reply(id, failed, payload)];
        enqueued := enqueued + [Reply(id, failed, payload)];
      }
    }

    /** One case of the select; a handler result is only ready while its handler runs. */
    method Receive(e: Event)
      modifies this
      ensures Value() == Received(old(Value()), e, serving)
    {
      match e {
        case Send(payload) => Accept(payload);
        case WriterTakes => Hand();
        case Inbound(f) => Dispatch(f);
        case HandlerDone(id, failed, payload) => Settle(id, failed, payload);
        case Cancel(id) => pending := pending - {id};
        case CloseRequested => closing := true;
        case KillRequested => phase := Aborted;
        case Died => phase := Aborted;
      }
    }

    method Turn(e: Event)
      modifies this
      ensures Value() == Next(old(Value()), e, serving)
    {
      if phase == Open {
        Receive(e);
        if phase == Open && closing && inflight == 0 && |queue| == 0 {
          phase := Finished;
        }
      }
    }

    /** The owner loop over the events that become ready, until it returns. */
    method OwnerLoop(events: seq<Event>)
      requires Inv(Value())
      modifies this
      ensures Value() == Run(old(Value()), events, serving)
      ensures Inv(Value())
    {
      ghost var before := Value();
      RunKeepsInv(before, events, serving);
      var i := 0;
      while i < |events|
        invariant 0 <= i <= |events|
        invariant Run(Value(), events[i..], serving) == Run(before, events, serving)
      {
        Turn(events[i]);
        i := i + 1;
      }
    }
  }
}
