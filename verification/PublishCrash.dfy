/** The table as a mirror of memory, and what a crash costs. */
module PublishCrash {
  import opened Breakers
  import opened RelayNames
  import opened PublishModel
  import opened PublishSafety

  /** Every database operation of the step succeeds. */
  ghost predicate DbWorks(step: Step) {
    match step
    case Enqueue(_, _, _, _, insertOk) => insertOk
    case Begin(_, stuck) => stuck == {}
    case Publish(_, stuck) => stuck == {}
    case End(_, _, _, stuck, _) => stuck == {}
    case Restart(_, stuck) => stuck == {}
    case _ => true
  }

  /** Items hold a row id exactly while they are undelivered, and each row has its item.
      (That the item's row exists and has the item's contents is part of `Inv`.) */
  ghost predicate Mirror(q: Queue) {
    && (forall i :: 0 <= i < |q.items| ==> (q.items[i].delivered <==> q.items[i].dbID == 0))
    && (forall k :: 0 <= k < |q.table.rows| ==> HasItem(q.items, q.table.rows[k].id))
  }

  ghost predicate HasItem(items: seq<Item>, id: int) {
    exists i :: 0 <= i < |items| && items[i].dbID == id
  }

  ghost predicate Mirrors(row: Row, items: seq<Item>) {
    exists i :: 0 <= i < |items| && !items[i].delivered && RowMatches(row, items[i])
  }

  /** The rows are, one for one, the undelivered events in memory. */
  lemma MirrorMeans(s: State)
    requires Inv(s) && Mirror(s.q)
    ensures forall row :: row in s.q.table.rows ==> Mirrors(row, s.q.items)
    ensures forall i :: 0 <= i < |s.q.items| && !s.q.items[i].delivered ==> Persisted(s.q.items[i], s.q.table.rows)
  {
    forall row | row in s.q.table.rows ensures Mirrors(row, s.q.items) {
      RowHasItem(s, row);
    }
  }

  lemma RowHasItem(s: State, row: Row)
    requires TableOk(s.q.items, s.q.table) && Mirror(s.q) && row in s.q.table.rows
    ensures Mirrors(row, s.q.items)
  {
    assert HasItem(s.q.items, row.id);
    var i :| 0 <= i < |s.q.items| && s.q.items[i].dbID == row.id;
    var other := RowOf(s.q.items, s.q.table, i);
    SameIdSameRow(s.q.table, row, other);
  }

  lemma EvictKeepsMirror(q: Queue, now: int)
    requires RowsOk(q.table) && Mirror(q)
    ensures Mirror(Evicted(q, now, {}))
  {
    var after := Evicted(q, now, {});
    var ids := RowsGoing(q.items, now, {});
    forall i | 0 <= i < |after.items| ensures after.items[i] in q.items {
      InStaying(q.items, now, {}, after.items[i]);
    }
    forall k | 0 <= k < |after.table.rows| ensures HasItem(after.items, after.table.rows[k].id) {
      var row := after.table.rows[k];
      InWithout(q.table.rows, ids, row);
      assert HasItem(q.items, row.id);
      var i :| 0 <= i < |q.items| && q.items[i].dbID == row.id;
      InStaying(q.items, now, {}, q.items[i]);
      assert !RowGoes(q.items[i], now, {});
    }
  }

  lemma AcceptKeepsMirror(q: Queue, i: nat, r: Relay)
    requires Mirror(q) && i < |q.items|
    ensures Mirror(AcceptedIn(q, i, r, {}))
  {
    var after := AcceptedIn(q, i, r, {});
    forall k | 0 <= k < |after.table.rows| ensures HasItem(after.items, after.table.rows[k].id) {
      var row := after.table.rows[k];
      InWithout(q.table.rows, {q.items[i].dbID}, row);
      assert HasItem(q.items, row.id);
      var j :| 0 <= j < |q.items| && q.items[j].dbID == row.id;
      assert after.items[j].dbID == row.id;
    }
  }

  lemma RejectKeepsMirror(q: Queue, i: nat, r: Relay)
    requires Mirror(q) && i < |q.items|
    ensures Mirror(RejectedIn(q, i, r))
  {
    var after := RejectedIn(q, i, r);
    forall k | 0 <= k < |q.table.rows| ensures HasItem(after.items, q.table.rows[k].id) {
      assert HasItem(q.items, q.table.rows[k].id);
      var j :| 0 <= j < |q.items| && q.items[j].dbID == q.table.rows[k].id;
      assert after.items[j].dbID == q.table.rows[k].id;
    }
  }

  lemma PublishKeepsMirror(s: State, step: Step)
    requires Mirror(s.q) && step.Publish? && Enabled(s, step) && DbWorks(step)
    ensures Mirror(Apply(s, step).q)
  {
    var i := IndexOf(s.q.items, s.phase.rest[0]);
    if i >= 0 {
      AcceptKeepsMirror(s.q, i, s.phase.relay);
      RejectKeepsMirror(s.q, i, s.phase.relay);
    }
  }

  lemma EnqueueKeepsMirror(s: State, step: Step)
    requires Inv(s) && Mirror(s.q) && step.Enqueue? && Enabled(s, step) && DbWorks(step)
    ensures Mirror(Apply(s, step).q)
  {
    if step.relays != [] {
      var after := Apply(s, step).q;
      forall k | 0 <= k < |after.table.rows| ensures HasItem(after.items, after.table.rows[k].id) {
        if k < |s.q.table.rows| {
          assert HasItem(s.q.items, s.q.table.rows[k].id);
          var i :| 0 <= i < |s.q.items| && s.q.items[i].dbID == s.q.table.rows[k].id;
          assert after.items[i] == s.q.items[i];
        } else {
          assert after.items[|s.q.items|].dbID == after.table.rows[k].id;
        }
      }
    }
  }

  /** Each loadable row becomes an item. */
  lemma {:induction false} RowBecomesItem(rows: seq<Row>, serial: nat, row: Row)
    requires row in rows && Loadable(row)
    ensures exists i ::
      0 <= i < |LoadedItems(rows, serial)| && LoadedItems(rows, serial)[i] == LoadedItem(row, serial + i)
  {
    var init, last := rows[..|rows| - 1], rows[|rows| - 1];
    var before := LoadedItems(init, serial);
    if row in init {
      RowBecomesItem(init, serial, row);
      var i :| 0 <= i < |before| && before[i] == LoadedItem(row, serial + i);
      assert LoadedItems(rows, serial)[i] == before[i];
    } else {
      assert LoadedItems(rows, serial)[|before|] == LoadedItem(row, serial + |before|);
    }
  }

  lemma ReloadStartsMirror(t: Table, serial: nat)
    requires RowsOk(t)
    ensures Mirror(Reloaded(t, serial, {}))
  {
    var q := Reloaded(t, serial, {});
    SortedSorts(t.rows);
    LoadedTableOk(t, serial, {});
    forall i | 0 <= i < |q.items| ensures !q.items[i].delivered && q.items[i].dbID > 0 {
      var row := LoadedRow(t, serial, {}, i);
    }
    forall k | 0 <= k < |q.table.rows| ensures HasItem(q.items, q.table.rows[k].id) {
      var row := q.table.rows[k];
      InWithout(t.rows, UselessRows(t.rows, {}), row);
      RowBecomesItem(Sorted(t.rows), serial, row);
    }
  }

  lemma StepKeepsMirror(s: State, step: Step)
    requires Inv(s) && Mirror(s.q) && Enabled(s, step) && DbWorks(step)
    ensures Mirror(Apply(s, step).q)
  {
    match step
    case Enqueue(_, _, _, _, _) => EnqueueKeepsMirror(s, step);
    case Begin(now, _) => EvictKeepsMirror(s.q, now);
    case Publish(_, _) => PublishKeepsMirror(s, step);
    case End(now, _, _, _, _) => EvictKeepsMirror(s.q, now);
    case Restart(_, _) => ReloadStartsMirror(s.q.table, s.nextSerial);
    case _ =>
  }

  /** While database operations succeed, the table holds exactly the undelivered events, at
      every moment of every run. */
  lemma {:induction false} RunKeepsMirror(s: State, steps: seq<Step>)
    requires Inv(s) && Mirror(s.q) && Legal(s, steps)
    requires forall k :: 0 <= k < |steps| ==> DbWorks(steps[k])
    ensures Inv(Exec(s, steps)) && Mirror(Exec(s, steps).q)
    decreases |steps|
  {
    if steps != [] {
      StepKeepsInv(s, steps[0]);
      StepKeepsMirror(s, steps[0]);
      RunKeepsMirror(Apply(s, steps[0]), steps[1..]);
    }
  }

  /** `after` is what a restart makes of `it`: the same event and row, waiting again for all
      its original targets, its age counted from the same second. */
  ghost predicate Revived(it: Item, after: Item) {
    && after.evt == it.evt && after.dbID == it.dbID && !after.delivered
    && after.targets == it.targets && after.pending == it.targets
    && after.createdAt <= it.createdAt < after.createdAt + SECOND
  }

  lemma SameSecond(t: int)
    ensures Unix(t) * SECOND <= t < Unix(t) * SECOND + SECOND
  {
  }

  ghost predicate ComesBack(it: Item, after: seq<Item>) {
    exists j :: 0 <= j < |after| && Revived(it, after[j])
  }

  ghost predicate WasUndelivered(after: Item, items: seq<Item>) {
    exists i :: 0 <= i < |items| && !items[i].delivered && items[i].dbID == after.dbID && items[i].evt == after.evt
  }

  /** A crash at any moment: an undelivered event comes back with all its targets (a superset
      of what it still waited for) exactly when its relay names all survive storage, and
      nothing but undelivered events comes back. */
  lemma CrashRevivesUndelivered(s: State, step: Step)
    requires Inv(s) && Mirror(s.q) && step.Restart? && Enabled(s, step)
    ensures forall i :: 0 <= i < |s.q.items| && !s.q.items[i].delivered ==>
              (ComesBack(s.q.items[i], Apply(s, step).q.items) <==> AllClean(s.q.items[i].targets))
    ensures forall j :: 0 <= j < |Apply(s, step).q.items| ==> WasUndelivered(Apply(s, step).q.items[j], s.q.items)
  {
    var after := Apply(s, step).q.items;
    forall i | 0 <= i < |s.q.items| && !s.q.items[i].delivered
      ensures ComesBack(s.q.items[i], after) <==> AllClean(s.q.items[i].targets)
    {
      if AllClean(s.q.items[i].targets) {
        CleanComesBack(s, step, i);
      }
      if ComesBack(s.q.items[i], after) {
        BackIsClean(s, step, i);
      }
    }
    forall j | 0 <= j < |after| ensures WasUndelivered(after[j], s.q.items) {
      var row := LoadedRow(s.q.table, s.nextSerial, step.stuck, j);
      RowHasItem(s, row);
    }
  }

  lemma CleanComesBack(s: State, step: Step, i: nat)
    requires Inv(s) && Mirror(s.q) && step.Restart? && Enabled(s, step)
    requires i < |s.q.items| && !s.q.items[i].delivered && AllClean(s.q.items[i].targets)
    ensures ComesBack(s.q.items[i], Apply(s, step).q.items)
  {
    assert ItemOk(s.q.items[i], s.log);
    var row := RowOf(s.q.items, s.q.table, i);
    CleanRowRevives(s.q.table, s.q.items[i], row, s.nextSerial, step.stuck);
  }

  lemma CleanRowRevives(t: Table, it: Item, row: Row, serial: nat, stuck: set<int>)
    requires RowsOk(t) && row in t.rows && RowMatches(row, it) && AllClean(it.targets) && it.targets != {}
    ensures ComesBack(it, Reloaded(t, serial, stuck).items)
  {
    SameSecond(it.createdAt);
    SortedSorts(t.rows);
    RowBecomesItem(Sorted(t.rows), serial, row);
    var after := Reloaded(t, serial, stuck).items;
    var j :| 0 <= j < |after| && after[j] == LoadedItem(row, serial + j);
    assert Revived(it, after[j]);
  }

  lemma BackIsClean(s: State, step: Step, i: nat)
    requires RowsOk(s.q.table) && step.Restart? && Enabled(s, step)
    requires i < |s.q.items| && ComesBack(s.q.items[i], Apply(s, step).q.items)
    ensures AllClean(s.q.items[i].targets)
  {
    var after := Apply(s, step).q.items;
    var j :| 0 <= j < |after| && Revived(s.q.items[i], after[j]);
    var row := LoadedRow(s.q.table, s.nextSerial, step.stuck, j);
    ParsedNamesAreClean(row.relays);
  }
}
