/** Persisted Reminders: the table, its pollers, and at-most-once delivery. */
module Reminders {
  import opened Basics
  import opened Orders
  import opened DueTimes

  datatype Key = Key(grainType: string, grainKey: string, name: string)
  datatype Reminder = Reminder(key: Key, call: string, first: Time, dueAt: Time, interval: Duration, etag: nat)
  type Table = map<Key, Reminder>

  ghost predicate Keyed(t: Table) {
    forall key :: key in t ==> t[key].key == key && t[key].etag > 0
  }

  // ---- table operations --------------------------------------------------------------------

  predicate Wins(t: Table, copy: Reminder) {
    copy.key in t && t[copy.key].etag == copy.etag
  }

  function Claimed(t: Table, copy: Reminder, next: Time): Table {
    if !Wins(t, copy) then t
    else if next == ZERO_TIME then t - {copy.key}
    else t[copy.key := t[copy.key].(dueAt := next, etag := t[copy.key].etag + 1)]
  }

  function Stored(t: Table, r: Reminder): Table {
    t[r.key := r.(etag := if r.key in t then t[r.key].etag + 1 else 1)]
  }

  predicate DueLess(a: Reminder, b: Reminder) {
    if a.dueAt != b.dueAt then a.dueAt < b.dueAt
    else if a.key.grainType != b.key.grainType then StringLess(a.key.grainType, b.key.grainType)
    else if a.key.grainKey != b.key.grainKey then StringLess(a.key.grainKey, b.key.grainKey)
    else StringLess(a.key.name, b.key.name)
  }

  lemma DueOrder()
    ensures StrictWeak(DueLess)
  {
    StringOrder();
    TotalIsWeak(StringLess);
  }

  /** `s` lists each row due at `now` exactly once. */
  ghost predicate ListsDue(t: Table, now: Time, s: seq<Reminder>) {
    Distinct(s) && forall r :: r in s <==> r.key in t && t[r.key] == r && r.dueAt <= now
  }

  datatype DueReply = DueCancelled | DueRows(rows: seq<Reminder>)
  datatype ClaimReply = ClaimWon | ClaimLost | ClaimCancelled

  /** `cancelled` says whether the caller's context has ended. */
  class ReminderTable {
    var reminders: Table

    constructor ()
      ensures reminders == map[] && Keyed(reminders)
    {
      reminders := map[];
    }

    method ListDue(cancelled: bool, now: Time) returns (reply: DueReply)
      requires Keyed(reminders)
      ensures reply == DueCancelled <==> cancelled
      ensures reply.DueRows? ==> forall r :: r in reply.rows <==> r.key in reminders && reminders[r.key] == r && r.dueAt <= now
      ensures reply.DueRows? ==> forall i, j :: 0 <= i < j < |reply.rows| ==> reply.rows[i].dueAt <= reply.rows[j].dueAt
      ensures reply.DueRows? ==> ListsDue(reminders, now, reply.rows) && Sorted(DueLess, reply.rows)
    {
      if cancelled {
        return DueCancelled;
      }
      var found: seq<Reminder> := [];
      var rest := reminders.Keys;
      while rest != {}
        invariant rest <= reminders.Keys
        invariant Distinct(found)
        invariant forall r :: r in found <==>
          r.key in reminders && r.key !in rest && reminders[r.key] == r && r.dueAt <= now
        decreases |rest|
      {
        var key :| key in rest;
        rest := rest - {key};
        if !(reminders[key].dueAt > now) {
          found := found + [reminders[key]];
        }
      }
      var result := Sort(DueLess, found);
      DueOrder();
      SortSorts(DueLess, found);
      DistinctCounts(found);
      DistinctCounts(result);
      forall r ensures r in result <==> r in found {
        assert r in result <==> r in multiset(result);
        assert r in found <==> r in multiset(found);
      }
      InDueOrder(result);
      return DueRows(result);
    }

    method Claim(cancelled: bool, reminder: Reminder, nextDueAt: Time) returns (reply: ClaimReply)
      requires Keyed(reminders)
      modifies this
      ensures reply == ClaimCancelled <==> cancelled
      ensures reply == ClaimWon <==>
        !cancelled && reminder.key in old(reminders) && old(reminders)[reminder.key].etag == reminder.etag
      ensures reply != ClaimWon ==> reminders == old(reminders)
      ensures reply == ClaimWon ==>
        reminders == if nextDueAt == ZERO_TIME then old(reminders) - {reminder.key}
                     else var row := old(reminders)[reminder.key];
                       old(reminders)[reminder.key := row.(dueAt := nextDueAt, etag := row.etag + 1)]
      ensures reminders == if cancelled then old(reminders) else Claimed(old(reminders), reminder, nextDueAt)
      ensures Keyed(reminders)
    {
      if cancelled {
        return ClaimCancelled;
      }
      if reminder.key !in reminders || reminders[reminder.key].etag != reminder.etag {
        return ClaimLost;
      }
      if nextDueAt == ZERO_TIME {
        reminders := reminders - {reminder.key};
        return ClaimWon;
      }
      var current := reminders[reminder.key];
      current := current.(dueAt := nextDueAt);
      current := current.(etag := current.etag + 1);
      reminders := reminders[reminder.key := current];
      return ClaimWon;
    }

    method Put(cancelled: bool, reminder: Reminder) returns (ok: bool)
      requires Keyed(reminders)
      modifies this
      ensures ok == !cancelled
      ensures !ok ==> reminders == old(reminders)
      ensures ok ==> var etag := if reminder.key in old(reminders) then old(reminders)[reminder.key].etag + 1 else 1;
        reminders == old(reminders)[reminder.key := reminder.(etag := etag)]
      ensures reminders == if ok then Stored(old(reminders), reminder) else old(reminders)
      ensures Keyed(reminders)
    {
      if cancelled {
        return false;
      }
      var etag := 1;
      if reminder.key in reminders {
        etag := reminders[reminder.key].etag + 1;
      }
      reminders := reminders[reminder.key := reminder.(etag := etag)];
      return true;
    }

    method Delete(cancelled: bool, key: Key) returns (ok: bool)
      requires Keyed(reminders)
      modifies this
      ensures ok == !cancelled
      ensures reminders == if ok then old(reminders) - {key} else old(reminders)
      ensures Keyed(reminders)
    {
      if cancelled {
        return false;
      }
      reminders := reminders - {key};
      return true;
    }
  }

  /** The row of a delivered Reminder afterwards: re-armed, or gone when one-shot. */
  ghost predicate Rearmed(after: Table, r: Reminder, now: Time) {
    var next := NextDueAt(r.dueAt, r.interval, now);
    if next == ZERO_TIME then r.key !in after
    else r.key in after && after[r.key] == r.(dueAt := next, etag := r.etag + 1)
  }

  ghost predicate Delivered(before: Table, after: Table, now: Time, delivered: seq<Reminder>) {
    && (forall r :: r in delivered ==> r.key in before && before[r.key] == r && Rearmed(after, r, now))
    && (forall key :: key in before && before[key] !in delivered ==> key in after && after[key] == before[key])
  }

  /** The row is armed again: one version later, at a time after `now` and at most one period away. */
  ghost predicate Repeats(after: Table, r: Reminder, now: Time) {
    && r.key in after
    && var row := after[r.key];
       row == r.(dueAt := row.dueAt, etag := r.etag + 1) && now < row.dueAt <= now + r.interval
  }

  lemma DeliveredMeans(before: Table, after: Table, now: Time, delivered: seq<Reminder>, r: Reminder)
    requires Delivered(before, after, now, delivered) && r in delivered && r.dueAt <= now
    ensures r.interval <= 0 ==> r.key !in after
    ensures r.interval > 0 && now >= ZERO_TIME ==> Repeats(after, r, now)
  {
    NextDueAtIs(r.dueAt, r.interval, now);
  }

  lemma InDueOrder(s: seq<Reminder>)
    requires Sorted(DueLess, s)
    ensures forall i, j :: 0 <= i < j < |s| ==> s[i].dueAt <= s[j].dueAt
  {
    forall i, j | 0 <= i < j < |s| ensures s[i].dueAt <= s[j].dueAt {
      assert !DueLess(s[j], s[i]);
    }
  }

  lemma DeliverOne(before: Table, mid: Table, now: Time, delivered: seq<Reminder>, r: Reminder)
    requires Delivered(before, mid, now, delivered) && r !in delivered
    requires r.key in before && before[r.key] == r
    ensures Wins(mid, r)
    ensures Delivered(before, Claimed(mid, r, NextDueAt(r.dueAt, r.interval, now)), now, delivered + [r])
  {
    var after := Claimed(mid, r, NextDueAt(r.dueAt, r.interval, now));
    forall d | d in delivered + [r] ensures d.key in before && before[d.key] == d && Rearmed(after, d, now) {
      if d != r {
        assert d.key != r.key;
      }
    }
  }

  /** Of the first `i` due rows exactly those owned, whose claim does not fail, were delivered. */
  ghost predicate Chosen(delivered: seq<Reminder>, due: seq<Reminder>, i: nat, owns: Key -> bool, claimFails: Key -> bool) {
    i <= |due| && forall r :: r in delivered <==> r in due[..i] && owns(r.key) && !claimFails(r.key)
  }

  lemma ChosenNext(delivered: seq<Reminder>, due: seq<Reminder>, i: nat, owns: Key -> bool, claimFails: Key -> bool)
    requires Chosen(delivered, due, i, owns, claimFails) && i < |due|
    ensures Chosen(if owns(due[i].key) && !claimFails(due[i].key) then delivered + [due[i]] else delivered,
                   due, i + 1, owns, claimFails)
    ensures forall r :: r in delivered ==> r in due[..i]
  {
    assert due[..i + 1] == due[..i] + [due[i]];
  }

  /** The first `i` due rows have been dealt with. */
  ghost predicate Polled(
    before: Table, after: Table, now: Time, delivered: seq<Reminder>, due: seq<Reminder>, i: nat,
    owns: Key -> bool, claimFails: Key -> bool) {
    && ListsDue(before, now, due) && Sorted(DueLess, due)
    && Delivered(before, after, now, delivered)
    && Sorted(DueLess, delivered) && Distinct(delivered)
    && Chosen(delivered, due, i, owns, claimFails)
  }

  /** Dealing with one more: it is skipped, or its claim wins and it is delivered. */
  lemma RowPolled(
    before: Table, after: Table, now: Time, delivered: seq<Reminder>, due: seq<Reminder>, i: nat,
    owns: Key -> bool, claimFails: Key -> bool)
    requires Polled(before, after, now, delivered, due, i, owns, claimFails) && i < |due|
    ensures var r := due[i];
      if owns(r.key) && !claimFails(r.key)
      then Wins(after, r)
        && Polled(before, Claimed(after, r, NextDueAt(r.dueAt, r.interval, now)), now, delivered + [r], due, i + 1, owns, claimFails)
      else Polled(before, after, now, delivered, due, i + 1, owns, claimFails)
  {
    assert due[i] in due;
    ChosenNext(delivered, due, i, owns, claimFails);
    if owns(due[i].key) && !claimFails(due[i].key) {
      LaterInOrder(due, i, delivered);
      DeliverOne(before, after, now, delivered, due[i]);
    }
  }

  lemma PolledEnds(
    before: Table, after: Table, now: Time, delivered: seq<Reminder>, due: seq<Reminder>, i: nat,
    owns: Key -> bool, claimFails: Key -> bool)
    requires Keyed(before) && Polled(before, after, now, delivered, due, i, owns, claimFails)
    ensures forall r :: r in delivered ==> owns(r.key) && r.dueAt <= now && !claimFails(r.key)
    ensures i == |due| ==>
      forall key :: key in before && owns(key) && !claimFails(key) && before[key].dueAt <= now ==> before[key] in delivered
  {
    ChosenAreDue(delivered, due, i, owns, claimFails);
    if i == |due| {
      forall key | key in before && owns(key) && !claimFails(key) && before[key].dueAt <= now ensures before[key] in delivered {
        assert before[key] in due;
        DueIsChosen(delivered, due, owns, claimFails, before[key]);
      }
    }
  }

  lemma ChosenAreDue(delivered: seq<Reminder>, due: seq<Reminder>, i: nat, owns: Key -> bool, claimFails: Key -> bool)
    requires Chosen(delivered, due, i, owns, claimFails)
    ensures forall r :: r in delivered ==> r in due && owns(r.key) && !claimFails(r.key)
  {
    forall r | r in delivered ensures r in due {
      assert r in due[..i];
    }
  }

  lemma DueIsChosen(delivered: seq<Reminder>, due: seq<Reminder>, owns: Key -> bool, claimFails: Key -> bool, r: Reminder)
    requires Chosen(delivered, due, |due|, owns, claimFails) && r in due && owns(r.key) && !claimFails(r.key)
    ensures r in delivered
  {
    assert due[..|due|] == due;
  }

  /** One round of the poller, with no other client in between. `listFails` and
      `claimFails` say where the table answers with an error; `budget` rows are looked at
      before the context is cancelled. It delivers due rows it owns, in due order, and
      re-arms or removes exactly those; it misses only what the faults make it miss. */
  method Poll(table: ReminderTable, now: Time, owns: Key -> bool, listFails: bool, claimFails: Key -> bool, budget: nat)
    returns (delivered: seq<Reminder>)
    requires Keyed(table.reminders)
    modifies table
    ensures Keyed(table.reminders)
    ensures Sorted(DueLess, delivered) && Distinct(delivered)
    ensures Delivered(old(table.reminders), table.reminders, now, delivered)
    ensures forall r :: r in delivered ==> r.key in old(table.reminders) && old(table.reminders)[r.key] == r
    ensures forall r :: r in delivered && r.interval <= 0 ==> r.key !in table.reminders
    ensures forall r :: r in delivered && r.interval > 0 && now >= ZERO_TIME ==> Repeats(table.reminders, r, now)
    ensures forall key :: key in old(table.reminders) && old(table.reminders)[key] !in delivered ==>
      key in table.reminders && table.reminders[key] == old(table.reminders)[key]
    ensures forall i, j :: 0 <= i < j < |delivered| ==> delivered[i].dueAt <= delivered[j].dueAt
    ensures listFails ==> delivered == [] && table.reminders == old(table.reminders)
    ensures forall r :: r in delivered ==> owns(r.key) && r.dueAt <= now && !claimFails(r.key)
    ensures !listFails && budget >= |old(table.reminders)| ==>
      forall key :: key in old(table.reminders) && owns(key) && !claimFails(key) && old(table.reminders)[key].dueAt <= now
        ==> old(table.reminders)[key] in delivered
  {
    ghost var before := table.reminders;
    delivered := [];
    var listed := table.ListDue(listFails, now);
    if listed.DueCancelled? {
      return;
    }
    var due := listed.rows;
    DueFits(before, now, due);
    var i := 0;
    while i < |due| && i < budget
      invariant 0 <= i <= |due|
      invariant Keyed(table.reminders)
      invariant Polled(before, table.reminders, now, delivered, due, i, owns, claimFails)
    {
      var reminder := due[i];
      RowPolled(before, table.reminders, now, delivered, due, i, owns, claimFails);
      i := i + 1;
      if !owns(reminder.key) {
        continue;
      }
      var next := NextDueAt(reminder.dueAt, reminder.interval, now);
      var claimed := table.Claim(claimFails(reminder.key), reminder, next);
      if claimed != ClaimWon {
        continue;
      }
      delivered := delivered + [reminder];
    }
    PolledEnds(before, table.reminders, now, delivered, due, i, owns, claimFails);
    InDueOrder(delivered);
    forall r | r in delivered
      ensures r.interval <= 0 ==> r.key !in table.reminders
      ensures r.interval > 0 && now >= ZERO_TIME ==> Repeats(table.reminders, r, now)
    {
      DeliveredMeans(before, table.reminders, now, delivered, r);
    }
  }

  lemma LaterInOrder(due: seq<Reminder>, i: nat, earlier: seq<Reminder>)
    requires i < |due| && Sorted(DueLess, due) && Distinct(due)
    requires Sorted(DueLess, earlier) && Distinct(earlier)
    requires forall r :: r in earlier ==> r in due[..i]
    ensures due[i] !in earlier
    ensures Sorted(DueLess, earlier + [due[i]]) && Distinct(earlier + [due[i]])
  {
    forall r | r in earlier ensures r != due[i] && !DueLess(due[i], r) {
      var k :| 0 <= k < i && due[k] == r;
    }
  }

  lemma DueFits(t: Table, now: Time, due: seq<Reminder>)
    requires ListsDue(t, now, due)
    ensures |due| <= |t|
  {
    DistinctSize(due);
    var keys := set r | r in due :: r.key;
    KeysOfDistinct(due, t);
    assert keys <= t.Keys;
    assert |t.Keys - keys| == |t.Keys| - |keys|;
  }

  lemma {:induction false} KeysOfDistinct(s: seq<Reminder>, t: Table)
    requires Distinct(s) && forall r :: r in s ==> r.key in t && t[r.key] == r
    ensures |set r | r in s :: r.key| == |s|
  {
    if s != [] {
      var init, last := s[..|s| - 1], s[|s| - 1];
      KeysOfDistinct(init, t);
      assert s == init + [last];
      var keys := set r | r in init :: r.key;
      forall r | r in init ensures r.key != last.key {
        assert r in s && last in s && last !in init;
      }
      assert (set r | r in s :: r.key) == keys + {last.key};
    }
  }
}
