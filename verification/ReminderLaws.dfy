/** Any number of pollers, each with its own clock, against one Reminder table.

    `life` counts how often a key was created; a copy remembers the life it was
    listed in. The log records what was delivered and when a setting was put. */
module ReminderLaws {
  import opened Basics
  import opened DueTimes
  import opened Reminders

  /** A copy some poller listed at its own time `now`, when the log had length `at`. */
  datatype Held = Held(copy: Reminder, now: Time, life: nat, at: nat)

  datatype Event =
    | Won(key: Key, life: nat, copyLife: nat, etag: nat, delivered: Time)
    | Reset(key: Key, life: nat)

  datatype World = World(rows: Table, lives: map<Key, nat>, held: seq<Held>, log: seq<Event>)

  datatype Step =
    | List(key: Key, now: Time)
    | Claim(i: nat)
    | Put(reminder: Reminder)
    | Delete(key: Key)

  const EMPTY := World(map[], map[], [], [])

  function Life(w: World, key: Key): nat {
    if key in w.lives then w.lives[key] else 0
  }

  function Next(w: World, step: Step): World {
    match step
    case List(key, now) =>
      if key in w.rows && w.rows[key].dueAt <= now
      then w.(held := w.held + [Held(w.rows[key], now, Life(w, key), |w.log|)]) else w
    case Claim(i) => if i < |w.held| then Attempt(w, w.held[i]) else w
    case Put(r) =>
      var life := if r.key in w.rows then Life(w, r.key) else Life(w, r.key) + 1;
      w.(rows := Stored(w.rows, r), lives := w.lives[r.key := life], log := w.log + [Reset(r.key, life)])
    case Delete(key) => w.(rows := w.rows - {key})
  }

  function Attempt(w: World, h: Held): World {
    if !Wins(w.rows, h.copy) then w
    else w.(rows := Claimed(w.rows, h.copy, NextDueAt(h.copy.dueAt, h.copy.interval, h.now)),
            log := w.log + [Won(h.copy.key, Life(w, h.copy.key), h.life, h.copy.etag, h.copy.dueAt)])
  }

  function Run(steps: seq<Step>): World {
    if steps == [] then EMPTY else Next(Run(steps[..|steps| - 1]), steps[|steps| - 1])
  }

  // ---- invariant ------------------------------------------------------------------------------

  predicate WonOf(e: Event, key: Key, life: nat) {
    e.Won? && e.key == key && e.life == life
  }

  /** Between p and q the row is not put anew, and only copies of this life win. */
  ghost predicate Undisturbed(log: seq<Event>, key: Key, life: nat, p: nat, q: nat)
    requires q <= |log|
  {
    forall k :: p <= k < q ==>
      log[k] != Reset(key, life) && (WonOf(log[k], key, life) ==> log[k].copyLife == life)
  }

  ghost predicate HeldOk(w: World, h: Held) {
    && h.copy.dueAt <= h.now && h.copy.etag > 0 && h.life <= Life(w, h.copy.key) && h.at <= |w.log|
    && (h.life == Life(w, h.copy.key) && h.copy.key in w.rows ==>
          var row := w.rows[h.copy.key];
          && h.copy.etag <= row.etag
          && (h.copy.etag == row.etag ==> h.copy == row)
          && ((exists r :: h.at <= r < |w.log| && w.log[r] == Reset(h.copy.key, h.life)) ==> h.copy.etag < row.etag))
  }

  ghost predicate WinOk(w: World, p: nat)
    requires p < |w.log| && w.log[p].Won?
  {
    var e := w.log[p];
    && e.life <= Life(w, e.key)
    && (e.life == Life(w, e.key) && e.key in w.rows ==>
          && e.etag < w.rows[e.key].etag
          && (Undisturbed(w.log, e.key, e.life, p, |w.log|) ==> e.delivered < w.rows[e.key].dueAt))
  }

  ghost predicate PairOk(w: World, p: nat, q: nat)
    requires p < q < |w.log|
  {
    w.log[p].Won? && WonOf(w.log[q], w.log[p].key, w.log[p].life) ==>
      && w.log[p].etag < w.log[q].etag
      && (Undisturbed(w.log, w.log[p].key, w.log[p].life, p, q + 1) ==> w.log[p].delivered < w.log[q].delivered)
  }

  ghost predicate Inv(w: World) {
    && Keyed(w.rows)
    && (forall i :: 0 <= i < |w.held| ==> HeldOk(w, w.held[i]))
    && (forall p :: 0 <= p < |w.log| && w.log[p].Won? ==> WinOk(w, p))
    && (forall p, q :: 0 <= p < q < |w.log| ==> PairOk(w, p, q))
  }

  // ---- every step keeps it ----------------------------------------------------------------------

  lemma ShorterIsUndisturbed(log: seq<Event>, e: Event, key: Key, life: nat, p: nat, q: nat)
    requires q <= |log|
    ensures Undisturbed(log + [e], key, life, p, q) <==> Undisturbed(log, key, life, p, q)
  {
    forall k | p <= k < q ensures (log + [e])[k] == log[k] {}
  }

  lemma OldPairsHold(w: World, w': World, e: Event)
    requires Inv(w) && w'.log == w.log + [e]
    ensures forall p, q :: 0 <= p < q < |w.log| ==> PairOk(w', p, q)
  {
    forall p, q | 0 <= p < q < |w.log| ensures PairOk(w', p, q) {
      assert PairOk(w, p, q);
      if w.log[p].Won? {
        ShorterIsUndisturbed(w.log, e, w.log[p].key, w.log[p].life, p, q + 1);
      }
    }
  }

  lemma PutKeepsInv(w: World, r: Reminder)
    requires Inv(w)
    ensures Inv(Next(w, Put(r)))
  {
    var w' := Next(w, Put(r));
    OldPairsHold(w, w', w'.log[|w.log|]);
    forall i | 0 <= i < |w'.held| ensures HeldOk(w', w'.held[i]) {
      assert HeldOk(w, w.held[i]);
      if x :| w.held[i].at <= x < |w'.log| && w'.log[x] == Reset(w.held[i].copy.key, w.held[i].life) {
        assert x < |w.log| ==> w.log[x] == w'.log[x];
      }
    }
    forall p | 0 <= p < |w'.log| && w'.log[p].Won? ensures WinOk(w', p) {
      assert WinOk(w, p);
      var e := w.log[p];
      ShorterIsUndisturbed(w.log, w'.log[|w.log|], e.key, e.life, p, |w.log|);
      if e.key == r.key && e.life == Life(w', r.key) {
        assert w'.log[|w.log|] == Reset(e.key, e.life);
      }
    }
  }

  /** A winning copy of the current life is the current row, so it delivers its due time. */
  lemma AttemptKeepsHeld(w: World, h: Held, i: nat)
    requires Inv(w) && HeldOk(w, h) && i < |w.held|
    ensures HeldOk(Attempt(w, h), w.held[i])
  {
    var w' := Attempt(w, h);
    assert HeldOk(w, w.held[i]);
    if x :| w.held[i].at <= x < |w'.log| && w'.log[x] == Reset(w.held[i].copy.key, w.held[i].life) {
      assert x < |w.log| ==> w.log[x] == w'.log[x];
    }
  }

  lemma RearmedLater(w: World, h: Held)
    requires HeldOk(w, h) && Wins(w.rows, h.copy) && h.copy.key in Attempt(w, h).rows
    ensures var after := Attempt(w, h).rows[h.copy.key];
      after.dueAt > h.copy.dueAt && after.etag == h.copy.etag + 1
  {
    if h.copy.interval > 0 {
      NextDueAtExact(h.copy.dueAt, h.copy.interval, h.now);
    }
  }

  lemma AttemptKeepsWin(w: World, h: Held, p: nat)
    requires Inv(w) && HeldOk(w, h) && Wins(w.rows, h.copy)
    requires p <= |w.log| && Attempt(w, h).log[p].Won?
    ensures WinOk(Attempt(w, h), p)
  {
    var w' := Attempt(w, h);
    var e := w'.log[p];
    if h.copy.key in w'.rows {
      RearmedLater(w, h);
    }
    if p < |w.log| {
      assert WinOk(w, p);
      ShorterIsUndisturbed(w.log, w'.log[|w.log|], e.key, e.life, p, |w.log|);
      if Undisturbed(w'.log, e.key, e.life, p, |w'.log|) {
        assert w'.log[|w.log|] != Reset(e.key, e.life);
        assert Undisturbed(w.log, e.key, e.life, p, |w.log|);
        if WonOf(w'.log[|w.log|], e.key, e.life) {
          assert h.life == e.life;
        }
      }
    }
  }

  lemma AttemptKeepsPair(w: World, h: Held, p: nat)
    requires Inv(w) && HeldOk(w, h) && Wins(w.rows, h.copy) && p < |w.log|
    ensures PairOk(Attempt(w, h), p, |w.log|)
  {
    var w' := Attempt(w, h);
    var e := w.log[p];
    var last := w'.log[|w.log|];
    if e.Won? && WonOf(last, e.key, e.life) {
      assert WinOk(w, p);
      if Undisturbed(w'.log, e.key, e.life, p, |w'.log|) {
        ShorterIsUndisturbed(w.log, last, e.key, e.life, p, |w.log|);
        assert Undisturbed(w.log, e.key, e.life, p, |w.log|);
        assert last.copyLife == e.life;
      }
    }
  }

  lemma ClaimKeepsInv(w: World, i: nat)
    requires Inv(w)
    ensures Inv(Next(w, Claim(i)))
  {
    if i < |w.held| && Wins(w.rows, w.held[i].copy) {
      var h := w.held[i];
      var w' := Attempt(w, h);
      assert HeldOk(w, h);
      OldPairsHold(w, w', w'.log[|w.log|]);
      forall j | 0 <= j < |w'.held| ensures HeldOk(w', w'.held[j]) {
        AttemptKeepsHeld(w, h, j);
      }
      forall p | 0 <= p < |w'.log| && w'.log[p].Won? ensures WinOk(w', p) {
        AttemptKeepsWin(w, h, p);
      }
      forall p, q | 0 <= p < q < |w'.log| ensures PairOk(w', p, q) {
        if q == |w.log| {
          AttemptKeepsPair(w, h, p);
        }
      }
    }
  }

  lemma OtherStepsKeepInv(w: World, step: Step)
    requires Inv(w) && (step.List? || step.Delete?)
    ensures Inv(Next(w, step))
  {
    var w' := Next(w, step);
    assert w'.log == w.log && w'.lives == w.lives;
    forall i | 0 <= i < |w'.held| ensures HeldOk(w', w'.held[i]) {
      if i < |w.held| {
        assert HeldOk(w, w.held[i]);
      }
    }
    forall p | 0 <= p < |w'.log| && w'.log[p].Won? ensures WinOk(w', p) {
      assert WinOk(w, p);
    }
    forall p, q | 0 <= p < q < |w'.log| ensures PairOk(w', p, q) {
      assert PairOk(w, p, q);
    }
  }

  lemma {:induction false} RunInv(steps: seq<Step>)
    ensures Inv(Run(steps))
  {
    if steps != [] {
      var w, step := Run(steps[..|steps| - 1]), steps[|steps| - 1];
      RunInv(steps[..|steps| - 1]);
      match step {
        case Put(r) => PutKeepsInv(w, r);
        case Claim(i) => ClaimKeepsInv(w, i);
        case _ => OtherStepsKeepInv(w, step);
      }
    }
  }

  // ---- laws of every run ---------------------------------------------------------------------------

  /** Each version of a row is won at most once, by any pollers, in any order. */
  lemma EachVersionIsWonOnce(steps: seq<Step>, p: nat, q: nat)
    requires p < q < |Run(steps).log|
    requires var log := Run(steps).log; log[p].Won? && WonOf(log[q], log[p].key, log[p].life)
    ensures Run(steps).log[p].etag < Run(steps).log[q].etag
  {
    RunInv(steps);
    assert PairOk(Run(steps), p, q);
  }

  /** Between two puts of one row, delivered due times strictly increase, as long as
      only copies listed in the row's own life win. */
  lemma DeliveriesAdvance(steps: seq<Step>, p: nat, q: nat)
    requires p < q < |Run(steps).log|
    requires var log := Run(steps).log;
      log[p].Won? && WonOf(log[q], log[p].key, log[p].life) && Undisturbed(log, log[p].key, log[p].life, p, q + 1)
    ensures Run(steps).log[p].delivered < Run(steps).log[q].delivered
  {
    RunInv(steps);
    assert PairOk(Run(steps), p, q);
  }

  /** A put defeats every copy listed before it, for as long as the row lives. */
  lemma PutDefeatsEarlierCopies(steps: seq<Step>, i: nat, r: nat)
    requires i < |Run(steps).held|
    requires var w := Run(steps); w.held[i].at <= r < |w.log| && w.log[r] == Reset(w.held[i].copy.key, w.held[i].life)
    ensures var w := Run(steps);
      Wins(w.rows, w.held[i].copy) ==> w.held[i].life < Life(w, w.held[i].copy.key)
  {
    RunInv(steps);
    assert HeldOk(Run(steps), Run(steps).held[i]);
  }

  /** A winning copy that differs from the row it wins was listed in an earlier life. */
  lemma OnlyOldLivesWinWrongly(steps: seq<Step>, i: nat)
    requires i < |Run(steps).held|
    requires var w := Run(steps); Wins(w.rows, w.held[i].copy) && w.held[i].copy != w.rows[w.held[i].copy.key]
    ensures var w := Run(steps); w.held[i].life < Life(w, w.held[i].copy.key)
  {
    RunInv(steps);
    assert HeldOk(Run(steps), Run(steps).held[i]);
  }

  // ---- exactly when an old copy can win wrongly -----------------------------------------------------

  /** The copy would win, and the row is not the one it describes. */
  predicate WinsWrongly(w: World, copy: Reminder) {
    Wins(w.rows, copy) && w.rows[copy.key] != copy
  }

  /** What the table shows of it now: the row is gone, or its ETag is still below the
      copy's, or it has the copy's ETag and is another row. */
  predicate Exposed(w: World, copy: Reminder) {
    copy.key in w.rows ==> w.rows[copy.key].etag < copy.etag || WinsWrongly(w, copy)
  }

  function Continue(w: World, more: seq<Step>): World {
    if more == [] then w else Next(Continue(w, more[..|more| - 1]), more[|more| - 1])
  }

  lemma {:induction false} ContinuedRun(steps: seq<Step>, more: seq<Step>)
    ensures Continue(Run(steps), more) == Run(steps + more)
  {
    if more == [] {
      assert steps + more == steps;
    } else {
      var init := more[..|more| - 1];
      ContinuedRun(steps, init);
      assert (steps + more)[..|steps + more| - 1] == steps + init;
    }
  }

  /** No step of the continuation removes the row, be it a delete or a last claim. */
  predicate KeepsRow(w: World, more: seq<Step>, key: Key) {
    forall n :: 0 <= n < |more| ==> Stays(w, more, key, n)
  }

  predicate Stays(w: World, more: seq<Step>, key: Key, n: nat)
    requires n < |more|
  {
    key in Continue(w, more[..n]).rows ==> key in Continue(w, more[..n + 1]).rows
  }

  lemma KeepsRowInit(w: World, more: seq<Step>, key: Key)
    requires KeepsRow(w, more, key) && more != []
    ensures KeepsRow(w, more[..|more| - 1], key)
    ensures key in Continue(w, more[..|more| - 1]).rows ==> key in Continue(w, more).rows
  {
    var init := more[..|more| - 1];
    forall n | 0 <= n < |init| ensures Stays(w, init, key, n) {
      assert Stays(w, more, key, n);
      assert init[..n] == more[..n] && init[..n + 1] == more[..n + 1];
    }
    assert Stays(w, more, key, |more| - 1);
    assert more[..|more|] == more;
  }

  /** A row that stays changes only together with its ETag, which grows. */
  lemma RowMoves(w: World, step: Step, key: Key)
    requires Keyed(w.rows) && key in w.rows && key in Next(w, step).rows
    ensures var row, row' := w.rows[key], Next(w, step).rows[key]; row' == row || row'.etag == row.etag + 1
  {
  }

  /** An unexposed copy stays so, for as long as the row stays. */
  lemma {:induction false} UnexposedStays(steps: seq<Step>, more: seq<Step>, copy: Reminder)
    requires !Exposed(Run(steps), copy) && KeepsRow(Run(steps), more, copy.key)
    ensures copy.key in Continue(Run(steps), more).rows && !Exposed(Continue(Run(steps), more), copy)
  {
    if more != [] {
      var init := more[..|more| - 1];
      KeepsRowInit(Run(steps), more, copy.key);
      UnexposedStays(steps, init, copy);
      ContinuedRun(steps, init);
      RunInv(steps + init);
      RowMoves(Continue(Run(steps), init), more[|more| - 1], copy.key);
    }
  }

  /** The put that brings an exposed copy closer to a wrong win. */
  function Nudge(copy: Reminder): Step {
    Put(copy.(dueAt := copy.dueAt + 1))
  }

  lemma NudgeRaises(w: World, copy: Reminder)
    ensures var w' := Next(w, Nudge(copy));
      && copy.key in w'.rows && w'.rows[copy.key] != copy
      && w'.rows[copy.key].etag == if copy.key in w.rows then w.rows[copy.key].etag + 1 else 1
  {
  }

  lemma KeepsRowPuts(w: World, more: seq<Step>, key: Key)
    requires forall n :: 0 <= n < |more| ==> more[n].Put?
    ensures KeepsRow(w, more, key)
  {
    forall n | 0 <= n < |more| ensures Stays(w, more, key, n) {
      assert more[..n + 1][..n] == more[..n];
    }
  }

  /** As many puts raise the ETag by as much, and leave a row the copy does not describe. */
  lemma {:induction false} PutsRaise(w: World, copy: Reminder, n: nat) returns (more: seq<Step>)
    requires n > 0
    ensures |more| == n && forall k :: 0 <= k < n ==> more[k] == Nudge(copy)
    ensures var w' := Continue(w, more);
      && copy.key in w'.rows && w'.rows[copy.key] != copy
      && w'.rows[copy.key].etag == n + if copy.key in w.rows then w.rows[copy.key].etag else 0
  {
    if n == 1 {
      more := [Nudge(copy)];
      assert more[..0] == [];
      NudgeRaises(w, copy);
    } else {
      var init := PutsRaise(w, copy, n - 1);
      more := init + [Nudge(copy)];
      assert more[..|more| - 1] == init;
      NudgeRaises(Continue(w, init), copy);
    }
  }

  /** In every run, a copy some poller holds can come to win a row it does not describe,
      without that row being removed again, if and only if it is exposed now; and it is
      exposed only when its row was removed since it was listed. */
  lemma WrongWinIffExposed(steps: seq<Step>, i: nat)
    requires i < |Run(steps).held|
    ensures var w := Run(steps); var copy := w.held[i].copy;
      (exists more :: KeepsRow(w, more, copy.key) && WinsWrongly(Continue(w, more), copy)) <==> Exposed(w, copy)
    ensures var w := Run(steps); var h := w.held[i];
      Exposed(w, h.copy) ==> h.life < Life(w, h.copy.key) || h.copy.key !in w.rows
  {
    RunInv(steps);
    var w := Run(steps);
    var copy := w.held[i].copy;
    assert HeldOk(w, w.held[i]);
    if Exposed(w, copy) {
      var more := WayToWrongWin(w, copy);
    } else {
      forall more | KeepsRow(w, more, copy.key) ensures !WinsWrongly(Continue(w, more), copy) {
        UnexposedStays(steps, more, copy);
      }
    }
  }

  lemma WayToWrongWin(w: World, copy: Reminder) returns (more: seq<Step>)
    requires Exposed(w, copy) && copy.etag > 0
    ensures KeepsRow(w, more, copy.key) && WinsWrongly(Continue(w, more), copy)
    ensures forall n :: 0 <= n < |more| ==> more[n] == Nudge(copy)
  {
    if WinsWrongly(w, copy) {
      more := [];
    } else {
      more := PutsRaise(w, copy, copy.etag - if copy.key in w.rows then w.rows[copy.key].etag else 0);
      KeepsRowPuts(w, more, copy.key);
    }
  }

  /** Once the row may be removed, every copy held is exposed: a delete and as many puts as
      the copy's ETag let it win a row it does not describe. */
  lemma RemovalExposesEveryCopy(steps: seq<Step>, i: nat) returns (more: seq<Step>)
    requires i < |Run(steps).held|
    ensures var copy := Run(steps).held[i].copy;
      && |more| == copy.etag + 1 && more[0] == Delete(copy.key) && (forall n :: 0 < n < |more| ==> more[n] == Nudge(copy))
      && WinsWrongly(Continue(Run(steps), more), copy)
  {
    RunInv(steps);
    var w := Run(steps);
    var copy := w.held[i].copy;
    assert HeldOk(w, w.held[i]);
    var gone := Next(w, Delete(copy.key));
    var puts := PutsRaise(gone, copy, copy.etag);
    more := [Delete(copy.key)] + puts;
    ContinueAfter(w, Delete(copy.key), puts);
  }

  lemma {:induction false} ContinueAfter(w: World, step: Step, more: seq<Step>)
    ensures Continue(w, [step] + more) == Continue(Next(w, step), more)
  {
    var all := [step] + more;
    if more == [] {
      assert all[..0] == [];
    } else {
      ContinueAfter(w, step, more[..|more| - 1]);
      assert all[..|all| - 1] == [step] + more[..|more| - 1];
    }
  }

  /** And that does happen: ETags restart at one, so after a delete and a new put an
      old copy wins a row it never saw and delivers a time the row never had. */
  lemma StaleCopyCanWin() returns (steps: seq<Step>)
    ensures var w := Run(steps);
      && |w.held| == 1 && Wins(w.rows, w.held[0].copy)
      && w.held[0].copy != w.rows[w.held[0].copy.key]
      && w.held[0].copy.dueAt != w.rows[w.held[0].copy.key].dueAt
  {
    var key := Key("t", "k", "n");
    var early, late := Reminder(key, "m", 5, 5, 10, 0), Reminder(key, "m", 90, 90, 10, 0);
    var s1 := [Put(early)];
    var s2 := s1 + [List(key, 7)];
    var s3 := s2 + [Delete(key)];
    steps := s3 + [Put(late)];
    assert s1[..0] == [] && s2[..1] == s1 && s3[..2] == s2 && steps[..3] == s3;
    var row := early.(etag := 1);
    assert Run(s1) == World(map[key := row], map[key := 1], [], [Reset(key, 1)]);
    assert Run(s2) == Run(s1).(held := [Held(row, 7, 1, 1)]);
    assert Run(s3) == Run(s2).(rows := map[]);
    assert Run(steps).rows == map[key := late.(etag := 1)];
  }
}
