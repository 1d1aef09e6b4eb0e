/** The invariant of the publish queue over every run. */
module PublishSafety {
  import opened Breakers
  import opened RelayNames
  import opened PublishModel

  // ----- the log -----

  ghost function Tally(log: seq<Attempt>, a: Attempt): nat {
    if log == [] then 0
    else Tally(log[..|log| - 1], a) + if log[|log| - 1] == a then 1 else 0
  }

  ghost function Accepts(log: seq<Attempt>, n: nat, r: Relay): nat {
    Tally(log, Attempt(n, r, true))
  }

  ghost function Rejections(log: seq<Attempt>, n: nat, r: Relay): nat {
    Tally(log, Attempt(n, r, false))
  }

  lemma CountsAfter(log: seq<Attempt>, a: Attempt, n: nat, r: Relay)
    ensures Accepts(log + [a], n, r) == Accepts(log, n, r) + if a == Attempt(n, r, true) then 1 else 0
    ensures Rejections(log + [a], n, r) == Rejections(log, n, r) + if a == Attempt(n, r, false) then 1 else 0
  {
    assert (log + [a])[..|log|] == log;
  }

  // ----- the invariant -----

  /** No relay takes an event twice, none sees it more than three times, and no attempt
      names an event that was not queued yet. */
  ghost predicate LogOk(log: seq<Attempt>, nextSerial: nat) {
    forall n: nat, r: Relay ::
      && Accepts(log, n, r) <= 1
      && Accepts(log, n, r) + Rejections(log, n, r) <= REJECT_THRESHOLD
      && (n >= nextSerial ==> Accepts(log, n, r) + Rejections(log, n, r) == 0)
  }

  /** A target is finished with an event once it accepted it or rejected it three times. */
  ghost predicate Finished(log: seq<Attempt>, n: nat, r: Relay) {
    Accepts(log, n, r) == 1 || Rejections(log, n, r) == REJECT_THRESHOLD
  }

  /** An item's fields are exactly what its targets and the attempts so far determine. */
  ghost predicate ItemOk(it: Item, log: seq<Attempt>) {
    && it.targets != {}
    && it.pending <= it.targets
    && (forall r :: r in it.targets ==> (r in it.pending <==> !Finished(log, it.serial, r)))
    && (forall r :: r !in it.targets ==> Accepts(log, it.serial, r) + Rejections(log, it.serial, r) == 0)
    && (it.delivered <==> exists r :: r in it.targets && Accepts(log, it.serial, r) == 1)
    && (forall r :: r in it.pending ==> RejectCount(it, r) == Rejections(log, it.serial, r))
  }

  ghost predicate ItemsOk(items: seq<Item>, log: seq<Attempt>, nextSerial: nat) {
    && (forall i :: 0 <= i < |items| ==> items[i].serial < nextSerial && ItemOk(items[i], log))
    && (forall i, j :: 0 <= i < j < |items| ==> items[i].serial < items[j].serial)
  }

  ghost predicate AllClean(relays: set<Relay>) {
    forall r :: r in relays ==> Clean(r)
  }

  ghost predicate RowMatches(row: Row, it: Item) {
    && row.id == it.dbID && row.body == Stored(it.evt) && row.createdAt == Unix(it.createdAt)
    && (AllClean(it.targets) <==> ParseRelays(row.relays) == it.targets)
  }

  ghost predicate Persisted(it: Item, rows: seq<Row>) {
    exists row :: row in rows && RowMatches(row, it)
  }

  ghost predicate RowsOk(t: Table) {
    && (forall i :: 0 <= i < |t.rows| ==> 0 < t.rows[i].id <= t.lastId)
    && (forall i, j :: 0 <= i < j < |t.rows| ==> t.rows[i].id < t.rows[j].id)
  }

  /** Row ids are unambiguous, and an item that remembers a row id has that row. */
  ghost predicate TableOk(items: seq<Item>, t: Table) {
    && RowsOk(t)
    && (forall i :: 0 <= i < |items| ==> 0 <= items[i].dbID <= t.lastId)
    && (forall i, j :: 0 <= i < j < |items| && items[i].dbID != 0 ==> items[i].dbID != items[j].dbID)
    && (forall i :: 0 <= i < |items| && items[i].dbID != 0 ==> Persisted(items[i], t.rows))
  }

  ghost predicate BreakersOk(breakers: map<Relay, Breaker>, clock: int) {
    forall r :: r in breakers ==> Healthy(breakers[r], clock)
  }

  ghost predicate OnlyHalfOpen(breakers: map<Relay, Breaker>, probes: set<Relay>) {
    forall r :: r in breakers && breakers[r].state == HalfOpen ==> r in probes
  }

  ghost predicate TakenUp(q: Queue, r: Relay, probes: set<Relay>) {
    && r in q.breakers
    && q.breakers[r].state != Open
    && (q.breakers[r].state == HalfOpen <==> r in probes)
  }

  /** Relays still to be visited hold a prefix of what is pending on them. */
  ghost predicate WorkOk(q: Queue, work: map<Relay, seq<nat>>, probes: set<Relay>) {
    forall r :: r in work ==> work[r] != [] && work[r] <= PendingOn(q.items, r) && TakenUp(q, r, probes)
  }

  ghost predicate RestOk(items: seq<Item>, r: Relay, rest: seq<nat>) {
    && (forall k :: 0 <= k < |rest| ==> rest[k] in PendingOn(items, r))
    && (forall j, k :: 0 <= j < k < |rest| ==> rest[j] < rest[k])
  }

  ghost predicate PhaseOk(q: Queue, phase: Phase) {
    match phase
    case Idle => OnlyHalfOpen(q.breakers, {})
    case Loop(work, probes) => OnlyHalfOpen(q.breakers, probes) && probes <= work.Keys && WorkOk(q, work, probes)
    case Batch(work, probes, r, rest) =>
      && OnlyHalfOpen(q.breakers, probes) && probes <= work.Keys + {r} && WorkOk(q, work, probes)
      && r !in work && TakenUp(q, r, probes) && RestOk(q.items, r, rest)
    case Leaving(probes) => OnlyHalfOpen(q.breakers, probes)
    case Ending => OnlyHalfOpen(q.breakers, {})
  }

  ghost predicate Inv(s: State) {
    && LogOk(s.log, s.nextSerial)
    && ItemsOk(s.q.items, s.log, s.nextSerial)
    && TableOk(s.q.items, s.q.table)
    && BreakersOk(s.q.breakers, s.clock)
    && PhaseOk(s.q, s.phase)
  }

  // ----- sequences of items and rows -----

  lemma {:induction false} InPendingOn(items: seq<Item>, r: Relay, n: nat)
    ensures n in PendingOn(items, r) <==> exists it :: it in items && it.serial == n && r in it.pending
  {
    if items != [] {
      var init, last := items[..|items| - 1], items[|items| - 1];
      InPendingOn(init, r, n);
      assert forall it :: it in items <==> it in init || it == last;
    }
  }

  ghost predicate Increasing(s: seq<nat>) {
    forall j, k :: 0 <= j < k < |s| ==> s[j] < s[k]
  }

  lemma {:induction false} PendingOnIncreases(items: seq<Item>, r: Relay)
    requires forall i, j :: 0 <= i < j < |items| ==> items[i].serial < items[j].serial
    ensures Increasing(PendingOn(items, r))
  {
    if items != [] {
      var init, last := items[..|items| - 1], items[|items| - 1];
      PendingOnIncreases(init, r);
      var before := PendingOn(init, r);
      forall k | 0 <= k < |before| ensures before[k] < last.serial {
        InPendingOn(init, r, before[k]);
      }
    }
  }

  lemma {:induction false} PendingOnUpdate(items: seq<Item>, i: nat, it: Item, r: Relay)
    requires i < |items| && it.serial == items[i].serial
    requires r in it.pending <==> r in items[i].pending
    ensures PendingOn(items[i := it], r) == PendingOn(items, r)
  {
    var init := items[..|items| - 1];
    if i == |items| - 1 {
      assert items[i := it][..i] == init;
    } else {
      PendingOnUpdate(init, i, it, r);
      assert items[i := it][..|items| - 1] == init[i := it];
    }
  }

  lemma PendingOnAppend(items: seq<Item>, it: Item, r: Relay)
    ensures PendingOn(items + [it], r) == PendingOn(items, r) + if r in it.pending then [it.serial] else []
  {
    assert (items + [it])[..|items|] == items;
  }

  lemma {:induction false} InStaying(items: seq<Item>, now: int, stuck: set<int>, it: Item)
    ensures it in Staying(items, now, stuck) <==> it in items && Stays(it, now, stuck)
  {
    if items != [] {
      var init, last := items[..|items| - 1], items[|items| - 1];
      InStaying(init, now, stuck, it);
      assert it in items <==> it in init || it == last;
    }
  }

  /** Eviction keeps the order: what stays is a subsequence. */
  lemma {:induction false} StayingKeepsOrder(items: seq<Item>, now: int, stuck: set<int>)
    requires forall i, j :: 0 <= i < j < |items| ==> items[i].serial < items[j].serial
    ensures var kept := Staying(items, now, stuck);
            forall i, j :: 0 <= i < j < |kept| ==> kept[i].serial < kept[j].serial
  {
    if items != [] {
      var init, last := items[..|items| - 1], items[|items| - 1];
      StayingKeepsOrder(init, now, stuck);
      var before := Staying(init, now, stuck);
      forall k | 0 <= k < |before| ensures before[k].serial < last.serial {
        InStaying(init, now, stuck, before[k]);
      }
    }
  }

  lemma {:induction false} InWithout(rows: seq<Row>, ids: set<int>, row: Row)
    ensures row in Without(rows, ids) <==> row in rows && row.id !in ids
  {
    if rows != [] {
      var init, last := rows[..|rows| - 1], rows[|rows| - 1];
      InWithout(init, ids, row);
      assert row in rows <==> row in init || row == last;
    }
  }

  lemma {:induction false} DeleteKeepsRowsOk(t: Table, ids: set<int>)
    requires RowsOk(t)
    ensures RowsOk(Delete(t, ids))
    decreases |t.rows|
  {
    if t.rows != [] {
      var init, last := t.rows[..|t.rows| - 1], t.rows[|t.rows| - 1];
      DeleteKeepsRowsOk(t.(rows := init), ids);
      var before := Without(init, ids);
      forall k | 0 <= k < |before| ensures before[k].id < last.id {
        InWithout(init, ids, before[k]);
      }
    }
  }

  lemma SameIdSameRow(t: Table, a: Row, b: Row)
    requires RowsOk(t) && a in t.rows && b in t.rows && a.id == b.id
    ensures a == b
  {
  }

  lemma RowOf(items: seq<Item>, t: Table, i: nat) returns (row: Row)
    requires TableOk(items, t) && i < |items| && items[i].dbID != 0
    ensures row in t.rows && RowMatches(row, items[i])
  {
    assert Persisted(items[i], t.rows);
    row :| row in t.rows && RowMatches(row, items[i]);
  }

  // ----- each step keeps the invariant -----

  lemma {:induction false} StayingKeepsDistinct(items: seq<Item>, now: int, stuck: set<int>)
    requires forall i, j :: 0 <= i < j < |items| && items[i].dbID != 0 ==> items[i].dbID != items[j].dbID
    ensures var kept := Staying(items, now, stuck);
            forall i, j :: 0 <= i < j < |kept| && kept[i].dbID != 0 ==> kept[i].dbID != kept[j].dbID
  {
    if items != [] {
      var init, last := items[..|items| - 1], items[|items| - 1];
      StayingKeepsDistinct(init, now, stuck);
      var before := Staying(init, now, stuck);
      forall k | 0 <= k < |before| && before[k].dbID != 0 ensures before[k].dbID != last.dbID {
        InStaying(init, now, stuck, before[k]);
      }
    }
  }

  lemma EvictKeepsItems(q: Queue, log: seq<Attempt>, nextSerial: nat, now: int, stuck: set<int>)
    requires ItemsOk(q.items, log, nextSerial)
    ensures ItemsOk(Evicted(q, now, stuck).items, log, nextSerial)
  {
    var kept := Staying(q.items, now, stuck);
    StayingKeepsOrder(q.items, now, stuck);
    forall i | 0 <= i < |kept| ensures kept[i] in q.items {
      InStaying(q.items, now, stuck, kept[i]);
    }
  }

  lemma EvictKeepsTable(q: Queue, now: int, stuck: set<int>)
    requires TableOk(q.items, q.table)
    ensures TableOk(Evicted(q, now, stuck).items, Evicted(q, now, stuck).table)
  {
    var kept, ids := Staying(q.items, now, stuck), RowsGoing(q.items, now, stuck);
    StayingKeepsDistinct(q.items, now, stuck);
    DeleteKeepsRowsOk(q.table, ids);
    forall i | 0 <= i < |kept|
      ensures 0 <= kept[i].dbID <= q.table.lastId
      ensures kept[i].dbID != 0 ==> Persisted(kept[i], Without(q.table.rows, ids))
    {
      var it := kept[i];
      InStaying(q.items, now, stuck, it);
      if it.dbID != 0 {
        assert Persisted(it, q.table.rows);
        var row :| row in q.table.rows && RowMatches(row, it);
        InWithout(q.table.rows, ids, row);
        assert forall gone :: gone in q.items && gone.dbID == it.dbID ==> gone == it;
      }
    }
  }

  lemma CollectKeepsBreakers(q: Queue, clock: int, now: int)
    requires BreakersOk(q.breakers, clock) && clock <= now && OnlyHalfOpen(q.breakers, {})
    ensures BreakersOk(Collected(q, now).breakers, now)
    ensures OnlyHalfOpen(Collected(q, now).breakers, ProbesFor(q, now))
    ensures forall r :: r in WorkFor(q, now) ==> TakenUp(Collected(q, now), r, ProbesFor(q, now))
  {
    forall r | r in Collected(q, now).breakers ensures Healthy(Collected(q, now).breakers[r], now) {
      OperationsKeepHealthy(BreakerOf(q, r), clock, now);
    }
  }

  lemma CollectedWorkOk(q: Queue, now: int, r: Relay)
    requires r in WorkFor(q, now)
    ensures WorkFor(q, now)[r] != [] && WorkFor(q, now)[r] <= PendingOn(q.items, r)
  {
    var it :| it in q.items && r in it.pending;
    InPendingOn(q.items, r, it.serial);
  }

  lemma BeginKeepsInv(s: State, step: Step)
    requires Inv(s) && step.Begin? && Enabled(s, step)
    ensures Inv(Apply(s, step))
  {
    hide Evicted, Collected, WorkFor, ProbesFor;
    var q := Evicted(s.q, step.now, step.stuck);
    EvictKeepsBreakers(s.q, step.now, step.stuck);
    EvictKeepsItems(s.q, s.log, s.nextSerial, step.now, step.stuck);
    EvictKeepsTable(s.q, step.now, step.stuck);
    CollectKeepsBreakers(q, s.clock, step.now);
    CollectKeepsRest(q, step.now);
    forall r | r in WorkFor(q, step.now)
      ensures WorkFor(q, step.now)[r] != [] && WorkFor(q, step.now)[r] <= PendingOn(q.items, r)
    {
      CollectedWorkOk(q, step.now, r);
    }
  }

  lemma EvictKeepsBreakers(q: Queue, now: int, stuck: set<int>)
    ensures Evicted(q, now, stuck).breakers == q.breakers
  {
  }

  lemma CollectKeepsRest(q: Queue, now: int)
    ensures Collected(q, now).items == q.items && Collected(q, now).table == q.table
    ensures ProbesFor(q, now) <= WorkFor(q, now).Keys
  {
  }

  lemma ConnectKeepsInv(s: State, step: Step)
    requires Inv(s) && step.Connect? && Enabled(s, step)
    ensures Inv(Apply(s, step))
  {
    var r := step.relay;
    forall r' | r' in s.q.breakers ensures Healthy(s.q.breakers[r'], step.now) {
      OperationsKeepHealthy(s.q.breakers[r'], s.clock, step.now);
    }
    OperationsKeepHealthy(BreakerOf(s.q, r), s.clock, step.now);
    if step.ok {
      PendingOnIncreases(s.q.items, r);
    }
  }

  lemma FinishKeepsInv(s: State, step: Step)
    requires Inv(s) && step.Finish? && Enabled(s, step)
    ensures Inv(Apply(s, step))
  {
    OperationsKeepHealthy(BreakerOf(s.q, s.phase.relay), s.clock, s.clock);
  }

  lemma RollbackKeepsInv(s: State, step: Step)
    requires Inv(s) && step.Rollback? && Enabled(s, step)
    ensures Inv(Apply(s, step))
  {
    forall r | r in s.q.breakers ensures Healthy(AfterRollback(s.q.breakers[r]), s.clock) {
      OperationsKeepHealthy(s.q.breakers[r], s.clock, s.clock);
    }
  }

  lemma EndKeepsInv(s: State, step: Step)
    requires Inv(s) && step.End? && Enabled(s, step)
    ensures Inv(Apply(s, step))
  {
    EvictKeepsItems(s.q, s.log, s.nextSerial, step.now, step.stuck);
    EvictKeepsTable(s.q, step.now, step.stuck);
    forall r | r in s.q.breakers ensures Healthy(s.q.breakers[r], step.wakeAt) {
      OperationsKeepHealthy(s.q.breakers[r], s.clock, step.wakeAt);
    }
  }

  lemma EnqueueKeepsInv(s: State, step: Step)
    requires Inv(s) && step.Enqueue? && Enabled(s, step)
    ensures Inv(Apply(s, step))
  {
    forall r | r in s.q.breakers ensures Healthy(s.q.breakers[r], step.now) {
      OperationsKeepHealthy(s.q.breakers[r], s.clock, step.now);
    }
    if step.relays != [] {
      NewItemIsPersisted(s, step);
      NewItemIsOk(s, step);
      NewItemKeepsPhase(s, step);
    }
  }

  lemma NewItemIsOk(s: State, step: Step)
    requires LogOk(s.log, s.nextSerial) && ItemsOk(s.q.items, s.log, s.nextSerial)
    requires step.Enqueue? && Enabled(s, step) && step.relays != []
    ensures ItemsOk(Apply(s, step).q.items, s.log, s.nextSerial + 1)
  {
    var it := Apply(s, step).q.items[|s.q.items|];
    assert step.relays[0] in it.targets;
    forall r: Relay ensures !Finished(s.log, it.serial, r) &&
      Accepts(s.log, it.serial, r) + Rejections(s.log, it.serial, r) == 0 {
    }
    assert ItemOk(it, s.log);
  }

  lemma NewItemKeepsPhase(s: State, step: Step)
    requires PhaseOk(s.q, s.phase) && step.Enqueue? && Enabled(s, step) && step.relays != []
    ensures PhaseOk(Apply(s, step).q, s.phase)
  {
    var after := Apply(s, step).q;
    forall r ensures PendingOn(s.q.items, r) <= PendingOn(after.items, r) {
      PendingOnAppend(s.q.items, after.items[|s.q.items|], r);
    }
  }

  lemma NewItemIsPersisted(s: State, step: Step)
    requires Inv(s) && step.Enqueue? && Enabled(s, step) && step.relays != []
    ensures TableOk(Apply(s, step).q.items, Apply(s, step).q.table)
  {
    var t := Apply(s, step);
    var it := t.q.items[|s.q.items|];
    if step.insertOk {
      var row := t.q.table.rows[|s.q.table.rows|];
      RelaysRoundTrip(step.relays);
      assert AllClean(it.targets) <==> (forall r :: r in step.relays ==> Clean(r));
      assert RowMatches(row, it);
    }
    forall i | 0 <= i < |s.q.items| && s.q.items[i].dbID != 0
      ensures Persisted(s.q.items[i], t.q.table.rows)
    {
      var row :| row in s.q.table.rows && RowMatches(row, s.q.items[i]);
      assert row in t.q.table.rows;
    }
  }

  lemma AcceptedItemOk(it: Item, log: seq<Attempt>, r: Relay, stuck: set<int>)
    requires ItemOk(it, log) && r in it.pending
    requires Accepts(log, it.serial, r) <= 1
    ensures ItemOk(AcceptedItem(it, r, stuck), log + [Attempt(it.serial, r, true)])
  {
    hide Tally;
    var a := Attempt(it.serial, r, true);
    forall r' {
      CountsAfter(log, a, it.serial, r');
    }
    assert !Finished(log, it.serial, r);
    assert Accepts(log + [a], it.serial, r) == 1;
  }

  lemma RejectedItemOk(it: Item, log: seq<Attempt>, r: Relay)
    requires ItemOk(it, log) && r in it.pending
    requires Accepts(log, it.serial, r) + Rejections(log, it.serial, r) <= REJECT_THRESHOLD
    ensures ItemOk(RejectedItem(it, r), log + [Attempt(it.serial, r, false)])
  {
    hide Tally;
    var a := Attempt(it.serial, r, false);
    var after := RejectedItem(it, r);
    forall r' {
      CountsAfter(log, a, it.serial, r');
    }
    assert !Finished(log, it.serial, r);
    if it.delivered {
      var r' :| r' in it.targets && Accepts(log, it.serial, r') == 1;
      assert Accepts(log + [a], it.serial, r') == 1;
    }
  }

  lemma OtherItemOk(it: Item, log: seq<Attempt>, a: Attempt)
    requires ItemOk(it, log) && a.serial != it.serial
    ensures ItemOk(it, log + [a])
  {
    hide Tally;
    forall r {
      CountsAfter(log, a, it.serial, r);
    }
    if it.delivered {
      var r :| r in it.targets && Accepts(log, it.serial, r) == 1;
      CountsAfter(log, a, it.serial, r);
    }
  }

  lemma AttemptKeepsLogOk(log: seq<Attempt>, a: Attempt, nextSerial: nat)
    requires LogOk(log, nextSerial) && a.serial < nextSerial && !Finished(log, a.serial, a.relay)
    ensures LogOk(log + [a], nextSerial)
  {
    hide Tally;
    forall n: nat, r: Relay {
      CountsAfter(log, a, n, r);
    }
  }

  lemma PublishKeepsInv(s: State, step: Step)
    requires Inv(s) && step.Publish? && Enabled(s, step)
    ensures Inv(Apply(s, step))
    ensures IndexOf(s.q.items, s.phase.rest[0]) >= 0
  {
    var n, r := s.phase.rest[0], s.phase.relay;
    PendingItem(s.q.items, r, n);
    var i := IndexOf(s.q.items, n);
    AttemptKeepsLogOk(s.log, Attempt(n, r, step.ok), s.nextSerial);
    PublishKeepsItems(s, step, i);
    if step.ok {
      AcceptKeepsTable(s.q, i, r, step.stuck);
    } else {
      RejectKeepsTable(s.q, i, r);
    }
    PublishKeepsPhase(s.q, Apply(s, step).q, i, s.phase);
  }

  /** A serial that waits in a batch belongs to a queued item that still wants the relay. */
  lemma PendingItem(items: seq<Item>, r: Relay, n: nat)
    requires n in PendingOn(items, r)
    requires forall i, j :: 0 <= i < j < |items| ==> items[i].serial < items[j].serial
    ensures IndexOf(items, n) >= 0 && r in items[IndexOf(items, n)].pending
  {
    InPendingOn(items, r, n);
    var it :| it in items && it.serial == n && r in it.pending;
    assert items[IndexOf(items, n)] == it;
  }

  lemma PublishKeepsItems(s: State, step: Step, i: nat)
    requires Inv(s) && step.Publish? && Enabled(s, step)
    requires i == IndexOf(s.q.items, s.phase.rest[0]) && s.phase.relay in s.q.items[i].pending
    ensures ItemsOk(Apply(s, step).q.items, Apply(s, step).log, s.nextSerial)
  {
    var items, r, a := s.q.items, s.phase.relay, Attempt(s.phase.rest[0], s.phase.relay, step.ok);
    var after := Apply(s, step).q.items;
    assert Accepts(s.log, items[i].serial, r) <= 1
      && Accepts(s.log, items[i].serial, r) + Rejections(s.log, items[i].serial, r) <= REJECT_THRESHOLD;
    if step.ok {
      AcceptedItemOk(items[i], s.log, r, step.stuck);
    } else {
      RejectedItemOk(items[i], s.log, r);
    }
    forall j | 0 <= j < |after| ensures ItemOk(after[j], s.log + [a]) && after[j].serial == items[j].serial {
      if j != i {
        OtherItemOk(items[j], s.log, a);
      }
    }
  }

  lemma AcceptKeepsTable(q: Queue, i: nat, r: Relay, stuck: set<int>)
    requires TableOk(q.items, q.table) && i < |q.items|
    ensures TableOk(AcceptedIn(q, i, r, stuck).items, AcceptedIn(q, i, r, stuck).table)
  {
    var it, after := q.items[i], AcceptedIn(q, i, r, stuck);
    DeleteKeepsRowsOk(q.table, {it.dbID});
    forall j | 0 <= j < |after.items| && after.items[j].dbID != 0
      ensures Persisted(after.items[j], after.table.rows)
    {
      assert Persisted(q.items[j], q.table.rows);
      var row :| row in q.table.rows && RowMatches(row, q.items[j]);
      assert RowMatches(row, after.items[j]);
      InWithout(q.table.rows, {it.dbID}, row);
    }
  }

  lemma RejectKeepsTable(q: Queue, i: nat, r: Relay)
    requires TableOk(q.items, q.table) && i < |q.items|
    ensures TableOk(RejectedIn(q, i, r).items, q.table)
  {
    var after := RejectedIn(q, i, r);
    forall j | 0 <= j < |after.items| && after.items[j].dbID != 0
      ensures Persisted(after.items[j], q.table.rows)
    {
      assert Persisted(q.items[j], q.table.rows);
      var row :| row in q.table.rows && RowMatches(row, q.items[j]);
      assert RowMatches(row, after.items[j]);
    }
  }

  lemma PublishKeepsPhase(q: Queue, after: Queue, i: nat, phase: Phase)
    requires phase.Batch? && phase.rest != [] && PhaseOk(q, phase)
    requires i < |q.items| && q.items[i].serial == phase.rest[0]
    requires |after.items| == |q.items| && after.items == q.items[i := after.items[i]]
    requires after.items[i].serial == q.items[i].serial && after.breakers == q.breakers
    requires forall r :: r != phase.relay ==> (r in after.items[i].pending <==> r in q.items[i].pending)
    ensures PhaseOk(after, phase.(rest := phase.rest[1..]))
  {
    var r, rest := phase.relay, phase.rest;
    forall r' | r' in phase.work ensures PendingOn(after.items, r') == PendingOn(q.items, r') {
      PendingOnUpdate(q.items, i, after.items[i], r');
    }
    forall k | 1 <= k < |rest| ensures rest[k] in PendingOn(after.items, r) {
      InPendingOn(q.items, r, rest[k]);
      var it :| it in q.items && it.serial == rest[k] && r in it.pending;
      var j :| 0 <= j < |q.items| && q.items[j] == it;
      assert after.items[j] == it;
      InPendingOn(after.items, r, rest[k]);
    }
  }

  // ----- loading -----

  lemma {:induction false} InInsertSorted(row: Row, rows: seq<Row>, x: Row)
    ensures x in InsertSorted(row, rows) <==> x == row || x in rows
  {
    if rows != [] && !Before(row, rows[0]) {
      InInsertSorted(row, rows[1..], x);
      assert x in rows <==> x == rows[0] || x in rows[1..];
    }
  }

  ghost predicate DistinctIds(rows: seq<Row>) {
    forall i, j :: 0 <= i < j < |rows| ==> rows[i].id != rows[j].id
  }

  ghost predicate InOrder(rows: seq<Row>) {
    forall i, j :: 0 <= i < j < |rows| ==> Before(rows[i], rows[j])
  }

  lemma {:induction false} InsertSortedSorts(row: Row, rows: seq<Row>)
    requires DistinctIds(rows) && InOrder(rows)
    requires forall x :: x in rows ==> x.id != row.id
    ensures DistinctIds(InsertSorted(row, rows)) && InOrder(InsertSorted(row, rows))
  {
    if rows == [] || Before(row, rows[0]) {
      var all := [row] + rows;
      forall j | 1 <= j < |all| ensures Before(row, all[j]) && row.id != all[j].id {
        assert all[j] in rows;
      }
    } else {
      var rest := InsertSorted(row, rows[1..]);
      InsertSortedSorts(row, rows[1..]);
      forall x | x in rest ensures Before(rows[0], x) && rows[0].id != x.id {
        InInsertSorted(row, rows[1..], x);
      }
    }
  }

  /** The order of load: same rows, by creation time and then id. */
  lemma {:induction false} SortedSorts(rows: seq<Row>)
    requires DistinctIds(rows)
    ensures forall x :: x in Sorted(rows) <==> x in rows
    ensures DistinctIds(Sorted(rows)) && InOrder(Sorted(rows))
  {
    if rows != [] {
      SortedSorts(rows[1..]);
      InsertSortedSorts(rows[0], Sorted(rows[1..]));
      forall x ensures x in Sorted(rows) <==> x in rows {
        InInsertSorted(rows[0], Sorted(rows[1..]), x);
        assert x in rows <==> x == rows[0] || x in rows[1..];
      }
    }
  }

  ghost predicate LoadedFrom(it: Item, rows: seq<Row>, serial: nat) {
    exists row :: row in rows && Loadable(row) && it == LoadedItem(row, serial)
  }

  /** What load makes of rows in load order: each item comes from a row of its own. */
  lemma {:induction false} ItemsComeFromRows(rows: seq<Row>, serial: nat)
    requires DistinctIds(rows)
    ensures forall i ::
      0 <= i < |LoadedItems(rows, serial)| ==> LoadedFrom(LoadedItems(rows, serial)[i], rows, serial + i)
    ensures forall i, j :: 0 <= i < j < |LoadedItems(rows, serial)| ==>
              LoadedItems(rows, serial)[i].dbID != LoadedItems(rows, serial)[j].dbID
  {
    if rows != [] {
      var init, last := rows[..|rows| - 1], rows[|rows| - 1];
      ItemsComeFromRows(init, serial);
      var before := LoadedItems(init, serial);
      forall i | 0 <= i < |before|
        ensures LoadedFrom(before[i], rows, serial + i) && before[i].dbID != last.id
      {
        assert LoadedFrom(before[i], init, serial + i);
        var row :| row in init && Loadable(row) && before[i] == LoadedItem(row, serial + i);
        assert row in rows;
      }
      if Loadable(last) {
        assert last in rows;
        assert LoadedFrom(LoadedItem(last, serial + |before|), rows, serial + |before|);
      }
    }
  }

  lemma LoadedItemOk(row: Row, serial: nat)
    requires Loadable(row)
    ensures ItemOk(LoadedItem(row, serial), [])
    ensures RowMatches(row, LoadedItem(row, serial))
  {
    ParsedNamesAreClean(row.relays);
  }

  lemma LoadedRow(t: Table, serial: nat, stuck: set<int>, i: nat) returns (row: Row)
    requires RowsOk(t) && i < |Reloaded(t, serial, stuck).items|
    ensures row in t.rows && Loadable(row) && Reloaded(t, serial, stuck).items[i] == LoadedItem(row, serial + i)
    ensures row in Reloaded(t, serial, stuck).table.rows
  {
    SortedSorts(t.rows);
    var rows, gone := Sorted(t.rows), UselessRows(t.rows, stuck);
    ItemsComeFromRows(rows, serial);
    assert LoadedFrom(LoadedItems(rows, serial)[i], rows, serial + i);
    row :| row in rows && Loadable(row) && LoadedItems(rows, serial)[i] == LoadedItem(row, serial + i);
    InWithout(t.rows, gone, row);
    if row.id in gone {
      var other :| other in t.rows && !Loadable(other) && other.id == row.id;
      SameIdSameRow(t, row, other);
    }
  }

  lemma LoadedItemsOk(t: Table, serial: nat, stuck: set<int>)
    requires RowsOk(t)
    ensures ItemsOk(Reloaded(t, serial, stuck).items, [], serial + |Reloaded(t, serial, stuck).items|)
  {
    var q := Reloaded(t, serial, stuck);
    forall i | 0 <= i < |q.items| ensures ItemOk(q.items[i], []) && q.items[i].serial == serial + i {
      var row := LoadedRow(t, serial, stuck, i);
      LoadedItemOk(row, serial + i);
    }
  }

  lemma LoadedTableOk(t: Table, serial: nat, stuck: set<int>)
    requires RowsOk(t)
    ensures TableOk(Reloaded(t, serial, stuck).items, Reloaded(t, serial, stuck).table)
  {
    var q := Reloaded(t, serial, stuck);
    SortedSorts(t.rows);
    ItemsComeFromRows(Sorted(t.rows), serial);
    DeleteKeepsRowsOk(t, UselessRows(t.rows, stuck));
    forall i | 0 <= i < |q.items|
      ensures 0 < q.items[i].dbID <= t.lastId && Persisted(q.items[i], q.table.rows)
    {
      var row := LoadedRow(t, serial, stuck, i);
      LoadedItemOk(row, serial + i);
    }
  }

  /** Loading any well-formed table starts a process in a good state. */
  lemma RestartKeepsInv(s: State, step: Step)
    requires RowsOk(s.q.table) && step.Restart? && Enabled(s, step)
    ensures Inv(Apply(s, step))
  {
    LoadedItemsOk(s.q.table, s.nextSerial, step.stuck);
    LoadedTableOk(s.q.table, s.nextSerial, step.stuck);
  }

  lemma StepKeepsInv(s: State, step: Step)
    requires Inv(s) && Enabled(s, step)
    ensures Inv(Apply(s, step))
  {
    match step
    case Enqueue(_, _, _, _, _) => EnqueueKeepsInv(s, step);
    case Begin(_, _) => BeginKeepsInv(s, step);
    case Connect(_, _, _) => ConnectKeepsInv(s, step);
    case Publish(_, _) => PublishKeepsInv(s, step);
    case Finish => FinishKeepsInv(s, step);
    case Bail =>
    case Leave(_) =>
    case Rollback => RollbackKeepsInv(s, step);
    case End(_, _, _, _, _) => EndKeepsInv(s, step);
    case Restart(_, _) => RestartKeepsInv(s, step);
  }

  /** Every run, with enqueues, crashes and any environment answers in any place, keeps the
      invariant. */
  lemma {:induction false} RunKeepsInv(s: State, steps: seq<Step>)
    requires Inv(s) && Legal(s, steps)
    ensures Inv(Exec(s, steps))
    decreases |steps|
  {
    if steps != [] {
      StepKeepsInv(s, steps[0]);
      RunKeepsInv(Apply(s, steps[0]), steps[1..]);
    }
  }
}
