/** When an event may leave the queue, its table, or both. */
module PublishLoss {
  import opened Breakers
  import opened RelayNames
  import opened PublishModel
  import opened PublishSafety

  // ----- conservation -----

  ghost function AcceptedBy(it: Item, log: seq<Attempt>): set<Relay> {
    set r | r in it.targets && Accepts(log, it.serial, r) == 1
  }

  ghost function GivenUpOn(it: Item, log: seq<Attempt>): set<Relay> {
    set r | r in it.targets && Rejections(log, it.serial, r) == REJECT_THRESHOLD
  }

  /** Over every run, the relays an item was queued for split into those it still waits for,
      those that accepted it and those that rejected it three times; it counts as delivered
      exactly when the second part is not empty, and no pair of event and relay sees more
      than three publishes. */
  lemma {:induction false} TargetsAreConserved(s: State, steps: seq<Step>, it: Item)
    requires Inv(s) && Legal(s, steps) && it in Exec(s, steps).q.items
    ensures Conserved(it, Exec(s, steps).log)
  {
    RunKeepsInv(s, steps);
    ItemIsConserved(it, Exec(s, steps).log, Exec(s, steps).nextSerial);
  }

  ghost predicate Conserved(it: Item, log: seq<Attempt>) {
    && it.targets == it.pending + AcceptedBy(it, log) + GivenUpOn(it, log)
    && it.pending !! AcceptedBy(it, log) !! GivenUpOn(it, log)
    && (it.delivered <==> AcceptedBy(it, log) != {})
    && (forall r :: Accepts(log, it.serial, r) + Rejections(log, it.serial, r) <= REJECT_THRESHOLD)
  }

  lemma ItemIsConserved(it: Item, log: seq<Attempt>, nextSerial: nat)
    requires ItemOk(it, log) && LogOk(log, nextSerial)
    ensures Conserved(it, log)
  {
    forall r ensures Accepts(log, it.serial, r) <= 1 &&
      Accepts(log, it.serial, r) + Rejections(log, it.serial, r) <= REJECT_THRESHOLD {
    }
    if it.delivered {
      var r :| r in it.targets && Accepts(log, it.serial, r) == 1;
      assert r in AcceptedBy(it, log);
    }
  }

  // ----- leaving the queue -----

  ghost predicate SameEvent(a: Item, b: Item) {
    a.serial == b.serial && a.evt == b.evt && a.targets == b.targets && a.createdAt == b.createdAt
  }

  ghost predicate AllRejected(it: Item, log: seq<Attempt>) {
    forall r :: r in it.targets ==> Rejections(log, it.serial, r) == REJECT_THRESHOLD
  }

  ghost predicate AllFinished(it: Item, log: seq<Attempt>) {
    forall r :: r in it.targets ==> Finished(log, it.serial, r)
  }

  /** Why an event may be dropped at `now`, after the attempts of `log`: if no relay has it,
      every target rejected it three times or it is older than a day; if some relay has it,
      every target is done with it or it is older than ten minutes. */
  ghost predicate MayDrop(it: Item, log: seq<Attempt>, now: int) {
    if AcceptedBy(it, log) == {} then AllRejected(it, log) || now - it.createdAt > TTL_UNDELIVERED
    else AllFinished(it, log) || now - it.createdAt > TTL_DELIVERED
  }

  /** Why a row may go with its event: the ten minutes are no reason for it. */
  ghost predicate MayDropRow(it: Item, log: seq<Attempt>, now: int) {
    if AcceptedBy(it, log) == {} then AllRejected(it, log) || now - it.createdAt > TTL_UNDELIVERED
    else AllFinished(it, log)
  }

  ghost predicate Evicts(step: Step) {
    step.Begin? || step.End?
  }

  lemma DroppedWithReason(it: Item, log: seq<Attempt>, now: int)
    requires ItemOk(it, log) && FateOf(it, now) != Keep
    ensures MayDrop(it, log, now)
    ensures FateOf(it, now) != DropStraggler ==> MayDropRow(it, log, now)
    ensures it.delivered <==> AcceptedBy(it, log) != {}
  {
    if it.delivered {
      var r :| r in it.targets && Accepts(log, it.serial, r) == 1;
      assert r in AcceptedBy(it, log);
    } else if it.pending == {} {
      forall r | r in it.targets ensures Rejections(log, it.serial, r) == REJECT_THRESHOLD {
        assert Finished(log, it.serial, r);
      }
    }
  }

  ghost predicate IsQueued(s: State, it: Item) {
    exists now :: now in s.q.items && SameEvent(it, now)
  }

  /** The event is in the queue before the step and not after it, and there is a reason. */
  ghost predicate DropsEvent(s: State, step: Step, it: Item) {
    && Enabled(s, step) && Evicts(step)
    && (exists now :: now in s.q.items && SameEvent(it, now) && MayDrop(now, s.log, step.now))
    && !IsQueued(Apply(s, step), it)
  }

  lemma EvictKeepsOrDrops(s: State, step: Step, it: Item, now: Item)
    requires Inv(s) && Enabled(s, step) && Evicts(step) && now in s.q.items && SameEvent(it, now)
    ensures IsQueued(Apply(s, step), it) || MayDrop(now, s.log, step.now)
  {
    InStaying(s.q.items, step.now, step.stuck, now);
    if Stays(now, step.now, step.stuck) {
      assert now in Apply(s, step).q.items;
    } else {
      DroppedWithReason(now, s.log, step.now);
    }
  }

  lemma OtherStepsKeepItems(s: State, step: Step, it: Item)
    requires Enabled(s, step) && !step.Restart? && !Evicts(step) && IsQueued(s, it)
    ensures IsQueued(Apply(s, step), it)
  {
    var now :| now in s.q.items && SameEvent(it, now);
    var i :| 0 <= i < |s.q.items| && s.q.items[i] == now;
    assert SameEvent(it, Apply(s, step).q.items[i]);
  }

  lemma StepKeepsOrDrops(s: State, step: Step, it: Item)
    requires Inv(s) && Enabled(s, step) && !step.Restart? && IsQueued(s, it)
    ensures IsQueued(Apply(s, step), it) || DropsEvent(s, step, it)
  {
    if Evicts(step) {
      var now :| now in s.q.items && SameEvent(it, now);
      EvictKeepsOrDrops(s, step, it, now);
    } else {
      OtherStepsKeepItems(s, step, it);
    }
    hide Inv, Enabled, Apply, MayDrop;
  }

  /** Some step of the run drops the event, with a reason. */
  ghost predicate Dropped(s: State, steps: seq<Step>, it: Item)
    requires Legal(s, steps)
    decreases |steps|
  {
    steps != [] && (DropsEvent(s, steps[0], it) || Dropped(Apply(s, steps[0]), steps[1..], it))
  }

  /** Over every run of one process a queued event is still queued at the end, or left in the
      step of an eviction that had a reason for it. */
  lemma {:induction false} EventStaysOrHasReason(s: State, steps: seq<Step>, it: Item)
    requires Inv(s) && Legal(s, steps) && IsQueued(s, it)
    requires forall k :: 0 <= k < |steps| ==> !steps[k].Restart?
    ensures IsQueued(Exec(s, steps), it) || Dropped(s, steps, it)
    decreases |steps|
  {
    hide Inv, Enabled, Apply, IsQueued, DropsEvent;
    if steps != [] && !DropsEvent(s, steps[0], it) {
      StepKeepsOrDrops(s, steps[0], it);
      StepKeepsInv(s, steps[0]);
      EventStaysOrHasReason(Apply(s, steps[0]), steps[1..], it);
    }
  }

  // ----- events that no relay has accepted -----

  /** The step hands the event to a relay that takes it. */
  ghost predicate Delivers(s: State, step: Step, serial: nat) {
    step.Publish? && step.ok && Enabled(s, step) && s.phase.rest[0] == serial
  }

  /** The step drops an event that no relay has accepted, for one of the two reasons there are. */
  ghost predicate DropsUndelivered(s: State, step: Step, it: Item) {
    && Enabled(s, step) && Evicts(step)
    && (exists now :: now in s.q.items && SameEvent(it, now) && AcceptedBy(now, s.log) == {}
                      && (AllRejected(now, s.log) || step.now - now.createdAt > TTL_UNDELIVERED))
    && !IsQueued(Apply(s, step), it)
  }

  ghost predicate AcceptedOrDropped(s: State, steps: seq<Step>, it: Item)
    requires Legal(s, steps)
    decreases |steps|
  {
    steps != [] &&
    (Delivers(s, steps[0], it.serial) || DropsUndelivered(s, steps[0], it) ||
      AcceptedOrDropped(Apply(s, steps[0]), steps[1..], it))
  }

  ghost predicate NoneAccepted(log: seq<Attempt>, serial: nat) {
    forall r :: Accepts(log, serial, r) == 0
  }

  lemma StepKeepsNoneAccepted(s: State, step: Step, serial: nat)
    requires Enabled(s, step) && !step.Restart? && !Delivers(s, step, serial) && NoneAccepted(s.log, serial)
    ensures NoneAccepted(Apply(s, step).log, serial)
  {
    if step.Publish? {
      forall r ensures Accepts(Apply(s, step).log, serial, r) == 0 {
        CountsAfter(s.log, Attempt(s.phase.rest[0], s.phase.relay, step.ok), serial, r);
      }
    }
  }

  lemma UndeliveredIsDropped(s: State, step: Step, it: Item)
    requires Inv(s) && NoneAccepted(s.log, it.serial) && DropsEvent(s, step, it)
    ensures DropsUndelivered(s, step, it)
  {
    hide Apply, IsQueued;
    var now :| now in s.q.items && SameEvent(it, now) && MayDrop(now, s.log, step.now);
    assert AcceptedBy(now, s.log) == {};
  }

  /** Over every run of one process, an event that no relay has accepted stays queued until the
      step in which one does, or until an eviction after every target relay rejected it three
      times or its age passed 24 hours. */
  lemma {:induction false} UndeliveredEventStays(s: State, steps: seq<Step>, it: Item)
    requires Inv(s) && Legal(s, steps) && IsQueued(s, it) && NoneAccepted(s.log, it.serial)
    requires forall k :: 0 <= k < |steps| ==> !steps[k].Restart?
    ensures IsQueued(Exec(s, steps), it) || AcceptedOrDropped(s, steps, it)
    decreases |steps|
  {
    hide Inv, Enabled, Apply, IsQueued, DropsEvent, DropsUndelivered, Delivers, NoneAccepted;
    if steps != [] && !Delivers(s, steps[0], it.serial) {
      StepKeepsOrDrops(s, steps[0], it);
      if DropsEvent(s, steps[0], it) {
        UndeliveredIsDropped(s, steps[0], it);
      } else {
        StepKeepsNoneAccepted(s, steps[0], it.serial);
        StepKeepsInv(s, steps[0]);
        UndeliveredEventStays(Apply(s, steps[0]), steps[1..], it);
      }
    }
  }

  // ----- leaving the table, crashes included -----

  /** The step hands the event of row `id` to a relay that takes it. */
  ghost predicate DeliversRow(s: State, step: Step, id: int) {
    && step.Publish? && step.ok && Enabled(s, step)
    && exists i :: 0 <= i < |s.q.items| && s.q.items[i].dbID == id && s.q.items[i].serial == s.phase.rest[0]
  }

  /** The row is in the table before the step and not after it, with a reason of its item. */
  ghost predicate EvictsRow(s: State, step: Step, row: Row) {
    && Enabled(s, step) && Evicts(step)
    && row in s.q.table.rows && row !in Apply(s, step).q.table.rows
    && exists i :: 0 <= i < |s.q.items| && s.q.items[i].dbID == row.id && MayDropRow(s.q.items[i], s.log, step.now)
  }

  lemma StepKeepsRow(s: State, step: Step, row: Row)
    requires Inv(s) && Enabled(s, step) && row in s.q.table.rows && Loadable(row)
    ensures row in Apply(s, step).q.table.rows || DeliversRow(s, step, row.id) || EvictsRow(s, step, row)
  {
    match step
    case Begin(_, _) => EvictKeepsRow(s, step, row);
    case End(_, _, _, _, _) => EvictKeepsRow(s, step, row);
    case Publish(ok, stuck) =>
      var i := IndexOf(s.q.items, s.phase.rest[0]);
      if i >= 0 {
        InWithout(s.q.table.rows, {s.q.items[i].dbID}, row);
      }
    case Restart(now, stuck) =>
      var gone := UselessRows(s.q.table.rows, stuck);
      InWithout(s.q.table.rows, gone, row);
      if row.id in gone {
        var other :| other in s.q.table.rows && !Loadable(other) && other.id == row.id;
        SameIdSameRow(s.q.table, row, other);
      }
    case _ =>
  }

  lemma EvictKeepsRow(s: State, step: Step, row: Row)
    requires Inv(s) && Enabled(s, step) && Evicts(step) && row in s.q.table.rows
    ensures row in Apply(s, step).q.table.rows || EvictsRow(s, step, row)
  {
    var ids := RowsGoing(s.q.items, step.now, step.stuck);
    InWithout(s.q.table.rows, ids, row);
    if row.id in ids {
      var it :| it in s.q.items && RowGoes(it, step.now, step.stuck) && it.dbID == row.id;
      var i :| 0 <= i < |s.q.items| && s.q.items[i] == it;
      DroppedWithReason(it, s.log, step.now);
    }
  }

  ghost predicate AccountedFor(s: State, steps: seq<Step>, row: Row)
    requires Legal(s, steps)
    decreases |steps|
  {
    steps != [] &&
    (DeliversRow(s, steps[0], row.id) || EvictsRow(s, steps[0], row) ||
      AccountedFor(Apply(s, steps[0]), steps[1..], row))
  }

  /** Over every run, with crashes and reloads anywhere in it, a loadable row stays in the
      table until the step in which a relay accepts its event, or the eviction that removes it
      with a reason counted from the last start. */
  lemma {:induction false} RowStaysUntilAccountedFor(s: State, steps: seq<Step>, row: Row)
    requires Inv(s) && Legal(s, steps) && row in s.q.table.rows && Loadable(row)
    ensures row in Exec(s, steps).q.table.rows || AccountedFor(s, steps, row)
    decreases |steps|
  {
    hide Inv, Enabled, Apply, DeliversRow, EvictsRow;
    if steps != [] && !DeliversRow(s, steps[0], row.id) && !EvictsRow(s, steps[0], row) {
      StepKeepsRow(s, steps[0], row);
      StepKeepsInv(s, steps[0]);
      RowStaysUntilAccountedFor(Apply(s, steps[0]), steps[1..], row);
    }
  }

  /** No item of this row has been accepted by a relay. */
  ghost predicate RowUndelivered(s: State, id: int) {
    forall i :: 0 <= i < |s.q.items| && s.q.items[i].dbID == id ==> !s.q.items[i].delivered
  }

  /** The row leaves in this step, undelivered, for one of the two reasons there are. */
  ghost predicate EvictsUndelivered(s: State, step: Step, row: Row) {
    && Enabled(s, step) && Evicts(step)
    && row in s.q.table.rows && row !in Apply(s, step).q.table.rows
    && exists i :: 0 <= i < |s.q.items| && s.q.items[i].dbID == row.id && AcceptedBy(s.q.items[i], s.log) == {}
                   && (AllRejected(s.q.items[i], s.log) || step.now - s.q.items[i].createdAt > TTL_UNDELIVERED)
  }

  ghost predicate RowAcceptedOrDropped(s: State, steps: seq<Step>, row: Row)
    requires Legal(s, steps)
    decreases |steps|
  {
    steps != [] &&
    (DeliversRow(s, steps[0], row.id) || EvictsUndelivered(s, steps[0], row) ||
      RowAcceptedOrDropped(Apply(s, steps[0]), steps[1..], row))
  }

  lemma StepKeepsRowUndelivered(s: State, step: Step, row: Row)
    requires Inv(s) && Enabled(s, step) && row in s.q.table.rows && RowUndelivered(s, row.id) &&
      !DeliversRow(s, step, row.id)
    ensures RowUndelivered(Apply(s, step), row.id)
  {
    match step
    case Begin(now, stuck) => EvictKeepsUndelivered(s, step, row.id);
    case End(now, _, _, stuck, _) => EvictKeepsUndelivered(s, step, row.id);
    case Restart(_, stuck) => ReloadIsUndelivered(s.q.table, s.nextSerial, stuck);
    case _ =>
  }

  lemma EvictKeepsUndelivered(s: State, step: Step, id: int)
    requires Enabled(s, step) && Evicts(step) && RowUndelivered(s, id)
    ensures RowUndelivered(Apply(s, step), id)
  {
    var after := Apply(s, step).q.items;
    forall i | 0 <= i < |after| && after[i].dbID == id ensures !after[i].delivered {
      InStaying(s.q.items, step.now, step.stuck, after[i]);
    }
  }

  lemma ReloadIsUndelivered(t: Table, serial: nat, stuck: set<int>)
    requires RowsOk(t)
    ensures forall i :: 0 <= i < |Reloaded(t, serial, stuck).items| ==> !Reloaded(t, serial, stuck).items[i].delivered
  {
    var items := Reloaded(t, serial, stuck).items;
    forall i | 0 <= i < |items| ensures !items[i].delivered {
      var _ := LoadedRow(t, serial, stuck, i);
    }
  }

  lemma UndeliveredIsEvicted(s: State, step: Step, row: Row)
    requires Inv(s) && RowUndelivered(s, row.id) && EvictsRow(s, step, row)
    ensures EvictsUndelivered(s, step, row)
  {
    hide Apply;
    var i :| 0 <= i < |s.q.items| && s.q.items[i].dbID == row.id && MayDropRow(s.q.items[i], s.log, step.now);
    assert ItemOk(s.q.items[i], s.log) && !s.q.items[i].delivered;
    assert AcceptedBy(s.q.items[i], s.log) == {};
  }

  /** Over every run, crashes and reloads included, the row of an event that no relay has
      accepted stays in the table until the step in which one does, or until an eviction that
      removes it after every target relay rejected it three times since the last start or its
      stored age passed 24 hours. */
  lemma {:induction false} UndeliveredRowStays(s: State, steps: seq<Step>, row: Row)
    requires Inv(s) && Legal(s, steps) && row in s.q.table.rows && Loadable(row) && RowUndelivered(s, row.id)
    ensures row in Exec(s, steps).q.table.rows || RowAcceptedOrDropped(s, steps, row)
    decreases |steps|
  {
    hide Inv, Enabled, Apply, DeliversRow, EvictsRow, EvictsUndelivered, RowUndelivered;
    if steps != [] && !DeliversRow(s, steps[0], row.id) {
      StepKeepsRow(s, steps[0], row);
      if EvictsRow(s, steps[0], row) {
        UndeliveredIsEvicted(s, steps[0], row);
      } else {
        StepKeepsRowUndelivered(s, steps[0], row);
        StepKeepsInv(s, steps[0]);
        UndeliveredRowStays(Apply(s, steps[0]), steps[1..], row);
      }
    }
  }

  // ----- rows that a restart deletes -----

  /** An enqueue whose insert succeeds leaves a loadable row exactly when some relay name in
      it is more than white space. */
  lemma EnqueuedRowIsLoadable(s: State, step: Step)
    requires Inv(s) && step.Enqueue? && Enabled(s, step) && step.relays != [] && step.insertOk
    ensures var rows := Apply(s, step).q.table.rows;
            && rows[|rows| - 1] in rows && rows[|rows| - 1].body == Stored(step.evt)
            && rows[|rows| - 1].id == Apply(s, step).q.items[|s.q.items|].dbID
            && (Loadable(rows[|rows| - 1]) <==> exists r :: r in step.relays && !IsBlank(r))
  {
    var rows := Apply(s, step).q.table.rows;
    assert rows[|rows| - 1].relays == Join(step.relays);
    OnlyBlankNamesVanish(step.relays);
  }

  lemma UselessRowGoes(row: Row, lastId: nat, serial: nat)
    requires !Loadable(row)
    ensures Reloaded(Table([row], lastId), serial, {}) == Queue([], map[], Table([], lastId))
  {
    assert Sorted([row]) == [row] by { assert [row][1..] == []; }
    assert LoadedItems([row], serial) == [] by { assert [row][..0] == []; }
    assert row.id in UselessRows([row], {});
    assert Without([row], UselessRows([row], {})) == [] by { assert [row][..0] == []; }
  }

  lemma TwoSteps(s: State, a: Step, b: Step)
    requires Enabled(s, a) && Enabled(Apply(s, a), b)
    ensures Legal(s, [a, b]) && Exec(s, [a, b]) == Apply(Apply(s, a), b)
  {
    hide Enabled, Apply;
    var s1 := Apply(s, a);
    var s2 := Apply(s1, b);
    assert [a, b][1..] == [b] && [b][1..] == [];
    assert Legal(s2, []) && Exec(s2, []) == s2;
    assert Legal(s1, [b]) && Exec(s1, [b]) == s2;
  }

  ghost function EmptyQueue(): State {
    State(Queue([], map[], Table([], 0)), 0, Idle, [], 0)
  }

  lemma EmptyQueueIsGood()
    ensures Inv(EmptyQueue())
  {
  }

  /** Otherwise the event is lost at the next start: here it is queued for one blank name, no
      relay has seen it, and neither queue nor table has it any more. */
  lemma BlankNameIsLost(evt: Event)
    ensures var add := Enqueue(evt, [" "], 0, 0, true);
      && Inv(EmptyQueue()) && Legal(EmptyQueue(), [add, Restart(0, {})])
      && Apply(EmptyQueue(), add).q.table.rows == [Row(1, Stored(evt), " ", 0)]
      && Exec(EmptyQueue(), [add, Restart(0, {})]).q == Queue([], map[], Table([], 1))
  {
    EmptyQueueIsGood();
    hide Inv, Legal, Exec, Reloaded, Loadable, ParseRelays;
    var add, row := Enqueue(evt, [" "], 0, 0, true), Row(1, Stored(evt), " ", 0);
    assert Join([" "]) == " ";
    var s1 := Apply(EmptyQueue(), add);
    assert s1.q.table == Table([row], 1) && s1.nextSerial == 1 && s1.clock == 0;
    TwoSteps(EmptyQueue(), add, Restart(0, {}));
    BlankRowIsUseless(row);
    UselessRowGoes(row, 1, 1);
  }

  lemma BlankRowIsUseless(row: Row)
    requires row.relays == " "
    ensures !Loadable(row)
  {
    OnlyBlankNamesVanish([" "]);
    assert Join([" "]) == " ";
  }
}
