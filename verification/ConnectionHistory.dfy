/** What a connection's owner loop sends, accepts and delivers, told from the events it
    received: every frame stems from one event, in order, and no event is passed over. */
module ConnectionHistory {
  import opened Connection

  function After(events: seq<Event>, serving: bool): State {
    Run(Started(), events, serving)
  }

  /** The loop is still running when event `n` arrives. */
  predicate Processed(events: seq<Event>, serving: bool, n: nat) {
    n < |events| && After(events[..n], serving).phase == Open
  }

  lemma {:induction false} RunAppends(s: State, events: seq<Event>, e: Event, serving: bool)
    ensures Run(s, events + [e], serving) == Next(Run(s, events, serving), e, serving)
    decreases |events|
  {
    if events == [] {
      assert [e][1..] == [];
    } else {
      assert (events + [e])[1..] == events[1..] + [e];
      RunAppends(Next(s, events[0], serving), events[1..], e, serving);
    }
  }

  lemma ReachedInv(events: seq<Event>, serving: bool)
    ensures Inv(After(events, serving))
  {
    StartInv();
    RunKeepsInv(Started(), events, serving);
  }

  // ---- one event -----------------------------------------------------------------------------------

  /** The frame an event makes the loop enqueue, if any: a request while it is not closing,
      numbered in turn; the reply of a handler that runs, an error frame exactly if it failed. */
  ghost predicate Sends(s: State, e: Event, f: Frame) {
    || (e.Send? && !s.closing && f == Frame(|Requests(s.enqueued)| + 1, Request, e.payload))
    || (e.HandlerDone? && e.id in s.handlers && f.id == e.id && f.payload == e.payload
        && f.kind == (if e.failed then Failure else Response))
  }

  lemma EnqueuedIff(s: State, e: Event, serving: bool)
    requires Inv(s) && s.phase == Open
    ensures var s' := Next(s, e, serving);
      || (s'.enqueued == s.enqueued && forall f :: !Sends(s, e, f))
      || (|s'.enqueued| == |s.enqueued| + 1 && s'.enqueued[..|s.enqueued|] == s.enqueued
          && Sends(s, e, s'.enqueued[|s.enqueued|]))
  {
    if e.Send? {
      EnqueuedBySend(s, e, serving);
    } else if e.HandlerDone? {
      EnqueuedByHandler(s, e, serving);
    } else {
      EnqueuedOtherwise(s, e, serving);
    }
  }

  lemma EnqueuedBySend(s: State, e: Event, serving: bool)
    requires Inv(s) && s.phase == Open && e.Send?
    ensures Next(s, e, serving).enqueued ==
      s.enqueued + if s.closing then [] else [Frame(|Requests(s.enqueued)| + 1, Request, e.payload)]
  {
  }

  lemma EnqueuedByHandler(s: State, e: Event, serving: bool)
    requires s.phase == Open && e.HandlerDone?
    ensures Next(s, e, serving).enqueued ==
      s.enqueued + if e.id in s.handlers then [Frame(e.id, if e.failed then Failure else Response, e.payload)] else []
  {
  }

  lemma EnqueuedOtherwise(s: State, e: Event, serving: bool)
    requires s.phase == Open && !e.Send? && !e.HandlerDone?
    ensures Next(s, e, serving).enqueued == s.enqueued
  {
  }

  /** The event is a request of the peer that the loop accepts. */
  predicate Accepts(s: State, e: Event, serving: bool) {
    e.Inbound? && e.frame.kind == Request && serving && !s.closing
  }

  /** The event answers the request `id`, or gives it up. */
  predicate Settles(e: Event, id: nat) {
    (e.Inbound? && e.frame.kind != Request && e.frame.id == id) || e == Cancel(id)
  }

  lemma AcceptedIff(s: State, e: Event, serving: bool)
    requires Inv(s) && s.phase == Open
    ensures var s' := Next(s, e, serving);
      s'.accepted == s.accepted + if Accepts(s, e, serving) then multiset{e.frame.id} else multiset{}
  {
  }

  lemma DeliveredIff(s: State, e: Event, serving: bool)
    requires Inv(s) && s.phase == Open
    ensures var s' := Next(s, e, serving);
      s'.results == s.results + if e.Inbound? && e.frame.kind != Request && e.frame.id in s.pending
                                then [Delivery(e.frame.id, e.frame)] else []
  {
  }

  lemma PendingIff(s: State, e: Event, serving: bool, id: nat)
    requires Inv(s) && s.phase == Open
    ensures id in Next(s, e, serving).pending <==>
      (id in s.pending && !Settles(e, id)) || (e.Send? && !s.closing && id == |Requests(s.enqueued)| + 1)
  {
    PendingAfter(s, e, serving, id);
  }

  lemma PendingAfter(s: State, e: Event, serving: bool, id: nat)
    ensures id in Received(s, e, serving).pending <==>
      (id in s.pending && !Settles(e, id)) || (e.Send? && !s.closing && id == s.nextId)
  {
  }

  lemma HandedIff(s: State, e: Event, serving: bool)
    requires Inv(s) && s.phase == Open
    ensures var s' := Next(s, e, serving);
      s'.handed <= s'.enqueued
      && |s'.handed| == |s.handed| + if e == WriterTakes && s.handed != s.enqueued then 1 else 0
  {
    StepKeepsInv(s, e, serving);
    HandedMoves(s, e, serving);
    AllHandedIff(s);
  }

  lemma HandedMoves(s: State, e: Event, serving: bool)
    requires s.phase == Open
    ensures |Next(s, e, serving).handed| == |s.handed| + if e == WriterTakes && s.queue != [] then 1 else 0
  {
  }

  lemma AllHandedIff(s: State)
    requires Ordered(s)
    ensures s.handed == s.enqueued <==> s.queue == []
  {
    if s.queue != [] {
      assert |s.enqueued| > |s.handed|;
    }
  }

  /** Nothing is owed: every accepted request has its reply, and all frames went out. */
  ghost predicate OwesNothing(s: State) {
    s.accepted == Replies(s.enqueued) && s.handed == s.enqueued
  }

  lemma OwesNothingIff(s: State)
    requires Inv(s)
    ensures OwesNothing(s) <==> s.inflight == 0 && s.queue == []
  {
    if s.queue != [] {
      assert |s.enqueued| == |s.handed| + |s.queue|;
    }
    assert |s.accepted| == |s.handlers| + |Replies(s.enqueued)|;
  }

  lemma EndsIff(s: State, e: Event, serving: bool)
    requires Inv(s) && s.phase == Open
    ensures var s' := Next(s, e, serving);
      && (s'.closing <==> s.closing || e == CloseRequested)
      && (s'.phase == Aborted <==> e == KillRequested || e == Died)
      && (s'.phase == Finished <==> e != KillRequested && e != Died && s'.closing && OwesNothing(s'))
  {
    StepKeepsInv(s, e, serving);
    OwesNothingIff(Next(s, e, serving));
  }

  // ---- laws of every run ------------------------------------------------------------------------------

  /** What one more event does to any run, told from the run's history alone: which frame is
      enqueued and which handed to the writer, which request is accepted, which result is
      delivered, and when the loop ends. Once ended, it does nothing. */
  lemma EveryEvent(events: seq<Event>, e: Event, serving: bool)
    ensures var s, s' := After(events, serving), After(events + [e], serving);
      if s.phase != Open then s' == s
      else
        && (s'.enqueued == s.enqueued <==> forall f :: !Sends(s, e, f))
        && s'.accepted == s.accepted + (if Accepts(s, e, serving) then multiset{e.frame.id} else multiset{})
        && s'.results == s.results + (if e.Inbound? && e.frame.kind != Request && e.frame.id in s.pending
                                      then [Delivery(e.frame.id, e.frame)] else [])
        && (forall id :: id in s'.pending <==>
              (id in s.pending && !Settles(e, id)) || (e.Send? && !s.closing && id == |Requests(s.enqueued)| + 1))
        && s'.handed <= s'.enqueued
        && |s'.handed| == |s.handed| + (if e == WriterTakes && s.handed != s.enqueued then 1 else 0)
        && (s'.closing <==> s.closing || e == CloseRequested)
        && (s'.phase == Aborted <==> e == KillRequested || e == Died)
        && (s'.phase == Finished <==> e != KillRequested && e != Died && s'.closing && OwesNothing(s'))
  {
    var s := After(events, serving);
    RunAppends(Started(), events, e, serving);
    ReachedInv(events, serving);
    if s.phase == Open {
      EnqueuedIff(s, e, serving);
      AcceptedIff(s, e, serving);
      DeliveredIff(s, e, serving);
      HandedIff(s, e, serving);
      forall id ensures id in Next(s, e, serving).pending <==>
        (id in s.pending && !Settles(e, id)) || (e.Send? && !s.closing && id == |Requests(s.enqueued)| + 1)
      {
        PendingIff(s, e, serving, id);
      }
      EndsIff(s, e, serving);
    }
  }

  /** `at` lists the events that made the loop enqueue the frames, in order. */
  ghost predicate Stem(events: seq<Event>, serving: bool, frames: seq<Frame>, at: seq<nat>) {
    && |at| == |frames|
    && (forall i, j :: 0 <= i < j < |at| ==> at[i] < at[j])
    && (forall i :: 0 <= i < |at| ==> at[i] < |events| && StemsFrom(frames[i], events[at[i]]))
    && (forall n :: 0 <= n < |events| && Speaks(events, serving, n) ==> n in at)
  }

  /** The frame is the request of a `Send`, or the reply of a handler, an error exactly if it failed. */
  predicate StemsFrom(f: Frame, e: Event) {
    if f.kind == Request then e == Send(f.payload) else e == HandlerDone(f.id, f.kind == Failure, f.payload)
  }

  /** Event `n` calls for a frame: a request before the close, or the end of a handler that runs. */
  ghost predicate Speaks(events: seq<Event>, serving: bool, n: nat)
    requires n < |events|
  {
    var s := After(events[..n], serving);
    && s.phase == Open
    && ((events[n].Send? && !s.closing) || (events[n].HandlerDone? && events[n].id in s.handlers))
  }

  lemma StemGoesOn(events: seq<Event>, e: Event, serving: bool, frames: seq<Frame>, at: seq<nat>)
    requires Stem(events, serving, frames, at) && !Speaks(events + [e], serving, |events|)
    ensures Stem(events + [e], serving, frames, at)
  {
    forall n | 0 <= n < |events + [e]| && Speaks(events + [e], serving, n) ensures n in at {
      if n < |events| {
        assert (events + [e])[..n] == events[..n];
        assert Speaks(events, serving, n);
      }
    }
  }

  lemma StemGrows(events: seq<Event>, e: Event, serving: bool, frames: seq<Frame>, at: seq<nat>, f: Frame)
    requires Stem(events, serving, frames, at) && StemsFrom(f, e)
    ensures Stem(events + [e], serving, frames + [f], at + [|events|])
  {
    var all := at + [|events|];
    forall n | 0 <= n < |events + [e]| && Speaks(events + [e], serving, n) ensures n in all {
      if n < |events| {
        assert (events + [e])[..n] == events[..n];
        assert Speaks(events, serving, n);
      } else {
        assert all[|at|] == n;
      }
    }
  }

  /** In every run the frames enqueued stem, one by one and in order, from events: a request
      carries the payload of its `Send`, a reply the identifier and the payload of its handler,
      and is an error frame exactly if the handler failed; and no such event is passed over. */
  lemma {:induction false} FramesStemFromEvents(events: seq<Event>, serving: bool) returns (at: seq<nat>)
    ensures Stem(events, serving, After(events, serving).enqueued, at)
  {
    if events == [] {
      at := [];
    } else {
      var init, e := events[..|events| - 1], events[|events| - 1];
      var s, frames := After(init, serving), After(init, serving).enqueued;
      assert events == init + [e];
      at := FramesStemFromEvents(init, serving);
      ReachedInv(init, serving);
      RunAppends(Started(), init, e, serving);
      assert events[..|init|] == init;
      if s.phase == Open {
        EnqueuedIff(s, e, serving);
      }
      if After(events, serving).enqueued == frames {
        SilentEvent(events, serving);
        StemGoesOn(init, e, serving, frames, at);
      } else {
        var f := After(events, serving).enqueued[|frames|];
        StemGrows(init, e, serving, frames, at, f);
        assert After(events, serving).enqueued == frames + [f];
        at := at + [|init|];
      }
    }
  }

  lemma SilentEvent(events: seq<Event>, serving: bool)
    requires events != [] && After(events, serving).enqueued == After(events[..|events| - 1], serving).enqueued
    ensures !Speaks(events, serving, |events| - 1)
  {
    var init, e := events[..|events| - 1], events[|events| - 1];
    var s := After(init, serving);
    assert events == init + [e];
    ReachedInv(init, serving);
    RunAppends(Started(), init, e, serving);
    if s.phase == Open {
      EnqueuedIff(s, e, serving);
      assert !Sends(s, e, Frame(|Requests(s.enqueued)| + 1, Request, if e.Send? then e.payload else []));
      if e.HandlerDone? {
        assert !Sends(s, e, Frame(e.id, if e.failed then Failure else Response, e.payload));
      }
    }
  }
}
