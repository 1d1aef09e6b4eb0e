/** What the single steps do, said of events, rows, attempts and times alone: which events and rows
    an eviction removes, what a pass takes up, what an answer of a relay changes, which breakers
    are collected and in which order a table is loaded. */
module PublishSteps {
  import opened Breakers
  import opened RelayNames
  import opened PublishModel
  import opened PublishSafety
  import opened PublishLoss

  // ----- eviction -----

  /** No relay has the event and it is more than a day old. */
  ghost predicate IsExpired(it: Item, log: seq<Attempt>, now: int) {
    AcceptedBy(it, log) == {} && now - it.createdAt > 24 * 60 * 60 * SECOND
  }

  /** Some relay has the event and it is more than ten minutes old. */
  ghost predicate IsStraggler(it: Item, log: seq<Attempt>, now: int) {
    AcceptedBy(it, log) != {} && now - it.createdAt > 10 * 60 * SECOND
  }

  /** Exactly these events leave: those no target is left for, those some relay took that are over
      ten minutes old, and those no relay took that are over a day old, unless their row
      cannot be deleted. */
  lemma EvictionIsExact(s: State, step: Step, it: Item)
    requires Inv(s) && Enabled(s, step) && Evicts(step)
    ensures it in Apply(s, step).q.items <==>
      && it in s.q.items
      && it.pending != {}
      && !IsStraggler(it, s.log, step.now)
      && (IsExpired(it, s.log, step.now) ==> it.dbID != 0 && it.dbID in step.stuck)
  {
    EvictingStep(s, step);
    InStaying(s.q.items, step.now, step.stuck, it);
    if it in s.q.items { DeliveredMeans(s, it); }
    hide Inv, Enabled, Apply, AcceptedBy, Staying;
  }

  lemma EvictingStep(s: State, step: Step)
    requires Enabled(s, step) && Evicts(step)
    ensures Apply(s, step).q.items == Staying(s.q.items, step.now, step.stuck)
    ensures Apply(s, step).q.table == Delete(s.q.table, RowsGoing(s.q.items, step.now, step.stuck))
  {
  }

  lemma DeliveredMeans(s: State, it: Item)
    requires Inv(s) && it in s.q.items
    ensures it.delivered <==> AcceptedBy(it, s.log) != {}
  {
    assert ItemOk(it, s.log);
    if it.delivered {
      var r :| r in it.targets && Accepts(s.log, it.serial, r) == 1;
      assert r in AcceptedBy(it, s.log);
    }
  }

  /** The rows that go with them are those of events without targets and of expired ones. */
  lemma RowEvictionIsExact(s: State, step: Step, row: Row)
    requires Inv(s) && Enabled(s, step) && Evicts(step) && row in s.q.table.rows
    ensures row !in Apply(s, step).q.table.rows <==>
      && row.id !in step.stuck
      && exists it :: it in s.q.items && it.dbID == row.id && (it.pending == {} || IsExpired(it, s.log, step.now))
  {
    var ids := RowsGoing(s.q.items, step.now, step.stuck);
    EvictingStep(s, step);
    InWithout(s.q.table.rows, ids, row);
    assert row.id != 0;
    hide Enabled, Apply;
    forall it | it in s.q.items && it.dbID == row.id
      ensures RowGoes(it, step.now, step.stuck) <==>
        row.id !in step.stuck && (it.pending == {} || IsExpired(it, s.log, step.now))
    {
      RowGoesMeans(s, it, step.now, step.stuck);
    }
    hide Inv, Without, RowGoes, IsExpired;
  }

  lemma RowGoesMeans(s: State, it: Item, now: int, stuck: set<int>)
    requires Inv(s) && it in s.q.items
    ensures RowGoes(it, now, stuck) <==>
      it.dbID != 0 && it.dbID !in stuck && (it.pending == {} || IsExpired(it, s.log, now))
  {
    DeliveredMeans(s, it);
    hide Inv, AcceptedBy;
  }

  // ----- what a pass takes up -----

  ghost predicate IsWanted(items: seq<Item>, r: Relay) {
    exists it :: it in items && r in it.pending
  }

  /** A pass takes up exactly the wanted relays whose breaker is closed, or open and due. */
  lemma TakenUpRelays(s: State, begin: Step, r: Relay)
    requires Inv(s) && begin.Begin? && Enabled(s, begin)
    ensures var t, b := Apply(s, begin), BreakerOf(s.q, r);
      && (r in t.phase.work <==>
            IsWanted(t.q.items, r) && (b.state == Closed || (b.state == Open && b.nextProbe <= begin.now)))
      && (r in t.phase.probes <==> r in t.phase.work && b.state == Open)
  {
    EvictKeepsBreakers(s.q, begin.now, begin.stuck);
    var q := Evicted(s.q, begin.now, begin.stuck);
    assert r in Wanted(q.items) <==> IsWanted(q.items, r);
  }

  /** A closed relay is given every event that waits for it, in the order of enqueueing; an open one
      only the first of them. */
  lemma TakenUpEvents(s: State, begin: Step, r: Relay, n: nat)
    requires Inv(s) && begin.Begin? && Enabled(s, begin) && r in Apply(s, begin).phase.work
    ensures var t := Apply(s, begin);
      var given, waits := t.phase.work[r], exists it :: it in t.q.items && it.serial == n && r in it.pending;
      && Increasing(given)
      && (n in given ==> waits)
      && (if BreakerOf(s.q, r).state == Closed then waits ==> n in given
          else |given| == 1 && (waits ==> given[0] <= n))
  {
    EvictKeepsBreakers(s.q, begin.now, begin.stuck);
    EvictKeepsItems(s.q, s.log, s.nextSerial, begin.now, begin.stuck);
    var q := Evicted(s.q, begin.now, begin.stuck);
    hide Inv, Evicted;
    assert Apply(s, begin).q.items == q.items && Apply(s, begin).phase.work == WorkFor(q, begin.now);
    hide Apply, Enabled;
    WorkIsAFilter(q, begin.now, r, n);
  }

  lemma WorkIsAFilter(q: Queue, now: int, r: Relay, n: nat)
    requires forall i, j :: 0 <= i < j < |q.items| ==> q.items[i].serial < q.items[j].serial
    requires r in WorkFor(q, now)
    ensures var given, waits := WorkFor(q, now)[r], exists it :: it in q.items && it.serial == n && r in it.pending;
      && Increasing(given)
      && (n in given ==> waits)
      && (if BreakerOf(q, r).state == Closed then waits ==> n in given
          else |given| == 1 && (waits ==> given[0] <= n))
  {
    InPendingOn(q.items, r, n);
    PendingOnIncreases(q.items, r);
    CollectedWorkOk(q, now, r);
    hide PendingOn;
    var all := PendingOn(q.items, r);
    assert BreakerOf(q, r).state != Closed ==> WorkFor(q, now)[r] == all[..1];
  }

  // ----- the answers of a relay -----

  /** A rejection is counted; the third one ends the waiting for that relay, and its count. */
  lemma RejectionIsCounted(s: State, step: Step) returns (i: nat)
    requires Inv(s) && step.Publish? && !step.ok && Enabled(s, step)
    ensures i < |s.q.items| && s.q.items[i].serial == s.phase.rest[0]
    ensures var t, r := Apply(s, step), s.phase.relay;
      && |t.q.items| == |s.q.items| && t.q.items == s.q.items[i := t.q.items[i]]
      && (var it, it', n := s.q.items[i], t.q.items[i], Rejections(t.log, s.q.items[i].serial, r);
          && n == Rejections(s.log, it.serial, r) + 1
          && it'.pending == (if n == 3 then it.pending - {r} else it.pending)
          && it'.rejects == (if n == 3 then it.rejects - {r} else it.rejects[r := n])
          && it' == it.(pending := it'.pending, rejects := it'.rejects))
      && t.q.table == s.q.table && t.q.breakers == s.q.breakers
  {
    i := FirstOfBatch(s);
    var it, r := s.q.items[i], s.phase.relay;
    assert Apply(s, step).q == RejectedIn(s.q, i, r) && Apply(s, step).log == s.log + [Attempt(it.serial, r, false)];
    hide Apply, Enabled;
    assert ItemOk(it, s.log);
    assert Accepts(s.log, it.serial, r) + Rejections(s.log, it.serial, r) <= REJECT_THRESHOLD;
    hide Inv;
    CountGoesOn(it, s.log, r);
    hide ItemOk, Rejections, RejectedItem;
  }

  lemma CountGoesOn(it: Item, log: seq<Attempt>, r: Relay)
    requires ItemOk(it, log) && r in it.pending
    requires Accepts(log, it.serial, r) + Rejections(log, it.serial, r) <= REJECT_THRESHOLD
    ensures var it', n := RejectedItem(it, r), Rejections(log + [Attempt(it.serial, r, false)], it.serial, r);
      && n == Rejections(log, it.serial, r) + 1
      && it'.pending == (if n == 3 then it.pending - {r} else it.pending)
      && it'.rejects == (if n == 3 then it.rejects - {r} else it.rejects[r := n])
      && it' == it.(pending := it'.pending, rejects := it'.rejects)
  {
    CountsAfter(log, Attempt(it.serial, r, false), it.serial, r);
    hide Tally;
    assert !Finished(log, it.serial, r);
  }

  /** The event that is published next, which still waits for the relay. */
  lemma FirstOfBatch(s: State) returns (i: nat)
    requires Inv(s) && s.phase.Batch? && s.phase.rest != []
    ensures i < |s.q.items| && i == IndexOf(s.q.items, s.phase.rest[0])
    ensures s.phase.relay in s.q.items[i].pending
  {
    PendingItem(s.q.items, s.phase.relay, s.phase.rest[0]);
    i := IndexOf(s.q.items, s.phase.rest[0]);
  }

  /** The first acceptance takes the event's row out of the table; a row that cannot be deleted stays
      and is not forgotten. */
  lemma AcceptanceIsBooked(s: State, step: Step) returns (i: nat)
    requires Inv(s) && step.Publish? && step.ok && Enabled(s, step)
    ensures i < |s.q.items| && s.q.items[i].serial == s.phase.rest[0]
    ensures var t, r := Apply(s, step), s.phase.relay;
      && |t.q.items| == |s.q.items| && t.q.items == s.q.items[i := t.q.items[i]]
      && (var it, it' := s.q.items[i], t.q.items[i];
          var rowGoes := AcceptedBy(it, s.log) == {} && it.dbID !in step.stuck;
          && it' == it.(pending := it.pending - {r}, delivered := true, dbID := if rowGoes then 0 else it.dbID)
          && forall row :: row in s.q.table.rows ==>
              (row in t.q.table.rows <==> !(rowGoes && row.id == it.dbID)))
      && t.q.breakers == s.q.breakers
  {
    i := FirstOfBatch(s);
    var it, t := s.q.items[i], Apply(s, step);
    DeliveredMeans(s, it);
    forall row | row in s.q.table.rows
      ensures row in Without(s.q.table.rows, {it.dbID}) <==> row.id != it.dbID
    {
      InWithout(s.q.table.rows, {it.dbID}, row);
    }
  }

  // ----- breakers that nobody needs -----

  /** At the end of a pass the breaker of a wanted relay stays; of the others exactly the open ones
      stay, until 30 minutes after their probe was due. New ones are made for relays looked at. */
  lemma BreakerCollectionIsExact(s: State, end: Step, r: Relay)
    requires Inv(s) && end.End? && Enabled(s, end)
    ensures var t := Apply(s, end);
      if r in s.q.breakers then
        var b := s.q.breakers[r];
        && (r in t.q.breakers <==>
              IsWanted(t.q.items, r) || (b.state == Open && end.sweepAt - b.nextProbe <= 30 * 60 * SECOND))
        && (r in t.q.breakers ==> t.q.breakers[r] == b)
      else
        && (r in t.q.breakers <==> r in end.touched)
        && (r in t.q.breakers ==> t.q.breakers[r] == FRESH_BREAKER)
  {
    var q := Evicted(s.q, end.now, end.stuck);
    assert r in Wanted(q.items) <==> IsWanted(q.items, r);
    assert r in s.q.breakers ==> s.q.breakers[r].state != HalfOpen;
  }

  // ----- sleeping -----

  ghost predicate AllWantedAreOpen(q: Queue) {
    forall r :: IsWanted(q.items, r) ==> BreakerOf(q, r).state == Open
  }

  function TimeToProbe(q: Queue, r: Relay, now: int): int {
    if BreakerOf(q, r).nextProbe <= now then 0 else BreakerOf(q, r).nextProbe - now
  }

  /** The sleep after a pass: none while nothing waits for a relay, 30 s while some wanted relay is not
      down, otherwise the time until the first probe is due. */
  lemma SleepIs(q: Queue, now: int, d: int)
    requires IsSleep(q, now, d)
    ensures (forall r :: !IsWanted(q.items, r)) ==> d == 0
    ensures (exists r :: IsWanted(q.items, r) && BreakerOf(q, r).state != Open) ==> d == 30 * SECOND
    ensures (exists r :: IsWanted(q.items, r)) && AllWantedAreOpen(q) ==>
      && (forall r :: IsWanted(q.items, r) ==> d <= TimeToProbe(q, r, now))
      && (exists r :: IsWanted(q.items, r) && d == TimeToProbe(q, r, now))
  {
    forall r ensures r in Wanted(q.items) <==> IsWanted(q.items, r) {
    }
    hide Wanted, IsWanted;
    if r :| IsWanted(q.items, r) {
      assert r in Wanted(q.items) && q.items != [] by { if q.items == [] { NothingIsWanted(r); } }
    }
  }

  lemma NothingIsWanted(r: Relay)
    ensures !IsWanted([], r)
  {
  }

  /** Time goes on with every reading of the clock. */
  lemma ClockGoesOn(s: State, step: Step)
    requires Enabled(s, step)
    ensures s.clock <= Apply(s, step).clock
    ensures step.Enqueue? || step.Begin? || step.Connect? || step.Restart? ==> Apply(s, step).clock == step.now
    ensures step.End? ==> Apply(s, step).clock == step.wakeAt
  {
    hide Evicted, Collected, WorkFor, ProbesFor, PassEnded, Reloaded, Enqueued, PublishedTo, ConnectFailed, BatchDone;
  }

  // ----- loading -----

  /** Events are loaded in the order of their creation, those of one second in the order of their ids. */
  lemma LoadIsInOrder(s: State, step: Step, i: nat, j: nat)
    requires Inv(s) && step.Restart? && Enabled(s, step) && i < j < |Apply(s, step).q.items|
    ensures var items := Apply(s, step).q.items;
      items[i].createdAt < items[j].createdAt ||
      (items[i].createdAt == items[j].createdAt && items[i].dbID < items[j].dbID)
  {
    SortedSorts(s.q.table.rows);
    assert DistinctIds(s.q.table.rows);
    LoadedInOrder(Sorted(s.q.table.rows), s.nextSerial);
    assert Earlier(Apply(s, step).q.items[i], Apply(s, step).q.items[j]);
  }

  ghost predicate Earlier(a: Item, b: Item) {
    a.createdAt < b.createdAt || (a.createdAt == b.createdAt && a.dbID < b.dbID)
  }

  lemma {:induction false} LoadedInOrder(rows: seq<Row>, serial: nat)
    requires DistinctIds(rows) && InOrder(rows)
    ensures forall i :: 0 <= i < |LoadedItems(rows, serial)| ==> ComesFrom(LoadedItems(rows, serial)[i], rows)
    ensures forall i, j :: 0 <= i < j < |LoadedItems(rows, serial)| ==>
              Earlier(LoadedItems(rows, serial)[i], LoadedItems(rows, serial)[j])
  {
    if rows != [] {
      var init, last := rows[..|rows| - 1], rows[|rows| - 1];
      LoadedInOrder(init, serial);
      var before, items := LoadedItems(init, serial), LoadedItems(rows, serial);
      forall i | 0 <= i < |items| ensures ComesFrom(items[i], rows) {
        if i < |before| {
          assert ComesFrom(before[i], init);
          var k :| 0 <= k < |init| && IsLoadedFrom(before[i], init[k]);
          assert IsLoadedFrom(items[i], rows[k]);
        } else {
          assert IsLoadedFrom(items[i], rows[|rows| - 1]);
        }
      }
      forall i, j | 0 <= i < j < |items| ensures Earlier(items[i], items[j]) {
        if j == |before| {
          assert ComesFrom(before[i], init);
          var k :| 0 <= k < |init| && IsLoadedFrom(before[i], init[k]);
          assert Before(rows[k], rows[|rows| - 1]);
        } else {
          assert Earlier(before[i], before[j]);
        }
      }
    }
  }

  ghost predicate ComesFrom(it: Item, rows: seq<Row>) {
    exists k :: 0 <= k < |rows| && IsLoadedFrom(it, rows[k])
  }

  ghost predicate IsLoadedFrom(it: Item, row: Row) {
    it.dbID == row.id && it.createdAt == row.createdAt * SECOND
  }
}
