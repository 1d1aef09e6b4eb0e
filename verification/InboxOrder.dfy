/** In which order a drain takes the rows, and which ends of an item end the drain, said of sources,
    priorities and ids alone. */
module InboxOrder {
  import opened InboxModel
  import opened InboxDrain

  // ----- order -----

  /** The row that is dequeued has the least priority value, and the least id among its equals. */
  lemma TopIsFirst(rows: seq<Row>, i: nat)
    requires rows != [] && i < |rows|
    ensures var top := rows[TopIndex(rows)];
      top.priority < rows[i].priority || (top.priority == rows[i].priority && top.id <= rows[i].id)
  {
  }

  /** `a` may be processed before `b`: users and compact requests before triggers, triggers before
      heartbeats, and by id among those of equal rank. */
  predicate MayPrecede(a: Row, b: Row) {
    match a.source
    case Heartbeat => b.source == Heartbeat && a.id < b.id
    case Trigger => b.source == Heartbeat || (b.source == Trigger && a.id < b.id)
    case _ => b.source == Heartbeat || b.source == Trigger || a.id < b.id
  }

  ghost predicate PrecedesAll(a: Row, rows: seq<Row>) {
    forall b :: b in rows ==> MayPrecede(a, b)
  }

  /** The next item precedes whatever stays in the table. */
  lemma NextPrecedes(t: Table, mergeOk: bool)
    requires Shape(t) && t.rows != []
    ensures var (item, rest) := Next(t, mergeOk);
      && Shape(rest) && rest.lastId == t.lastId
      && PrecedesAll(item, rest.rows)
      && (forall row :: row in rest.rows ==> row in t.rows)
  {
    var k := TopIndex(t.rows);
    var item, rows := t.rows[k], Without(t.rows, k);
    TopPrecedes(t, k);
    WithoutIsPart(t.rows, k);
    PartKeepsShape(rows, t);
    FiltersAreParts(rows);
    PartKeepsShape(OtherRows(rows), Table(rows, t.lastId));
    hide Shape, TopIndex, IsPart;
    forall row | row in OtherRows(rows) ensures row in rows {
      FilterMembers(rows, row);
    }
  }

  lemma TopPrecedes(t: Table, k: nat)
    requires Shape(t) && k < |t.rows| && k == TopIndex(t.rows)
    ensures PrecedesAll(t.rows[k], Without(t.rows, k))
    ensures forall row :: row in Without(t.rows, k) ==> row in t.rows
  {
    forall i | 0 <= i < |t.rows| && i != k ensures MayPrecede(t.rows[k], t.rows[i]) {
      TopIsFirst(t.rows, i);
    }
  }

  /** A drain that is not over with its first item goes on with the rows that are left. */
  lemma DrainGoesOn(t: Table, turns: nat -> Turn, k: nat)
    requires Drain(t, turns, k).log != []
    ensures t.rows != []
    ensures var (next, rest), log := Next(t, turns(k).mergeOk), Drain(t, turns, k).log;
      log == [next] || log == [next] + Drain(rest, turns, k + 1).log
  {
    hide Next, Stops;
  }

  /** The items of a drain stand for rows of the table. */
  lemma {:induction false} LogComesFromRows(t: Table, turns: nat -> Turn, k: nat, item: Row)
    requires Shape(t) && item in Drain(t, turns, k).log
    ensures exists row :: row in t.rows && row.source == item.source && row.id == item.id
    decreases |t.rows|
  {
    DrainGoesOn(t, turns, k);
    var (next, rest) := Next(t, turns(k).mergeOk);
    NextPrecedes(t, turns(k).mergeOk);
    var top := t.rows[TopIndex(t.rows)];
    assert top.source == next.source && top.id == next.id;
    hide Next, Drain, TopIndex, Shape;
    if item != next {
      LogComesFromRows(rest, turns, k + 1, item);
    }
  }

  ghost predicate InRankOrder(log: seq<Row>) {
    forall i, j :: 0 <= i < j < |log| ==> MayPrecede(log[i], log[j])
  }

  /** Whatever stops it and whichever queries fail, a drain processes users and compact requests
      before triggers, triggers before heartbeats, and each rank in the order of arrival. */
  lemma {:induction false} DrainGoesByRank(t: Table, turns: nat -> Turn, k: nat)
    requires Shape(t)
    ensures InRankOrder(Drain(t, turns, k).log)
    decreases |t.rows|
  {
    if Drain(t, turns, k).log != [] {
      DrainGoesOn(t, turns, k);
      var (next, rest) := Next(t, turns(k).mergeOk);
      NextPrecedes(t, turns(k).mergeOk);
      hide Next, Drain, Shape, InRankOrder;
      OneInOrder(next);
      DrainGoesByRank(rest, turns, k + 1);
      NextPrecedesLog(next, rest, turns, k + 1);
      RankOrderCons(next, Drain(rest, turns, k + 1).log);
    }
  }

  lemma OneInOrder(row: Row)
    ensures InRankOrder([row])
  {
  }

  lemma NextPrecedesLog(next: Row, rest: Table, turns: nat -> Turn, k: nat)
    requires Shape(rest) && PrecedesAll(next, rest.rows)
    ensures PrecedesAll(next, Drain(rest, turns, k).log)
  {
    forall item | item in Drain(rest, turns, k).log ensures MayPrecede(next, item) {
      LogComesFromRows(rest, turns, k, item);
      var row :| row in rest.rows && row.source == item.source && row.id == item.id;
      assert MayPrecede(next, row);
    }
  }

  lemma RankOrderCons(next: Row, log: seq<Row>)
    requires PrecedesAll(next, log) && InRankOrder(log)
    ensures InRankOrder([next] + log)
  {
    var all := [next] + log;
    forall i, j | 0 <= i < j < |all| ensures MayPrecede(all[i], all[j]) {
      assert all[j] == log[j - 1] && log[j - 1] in log;
      if i > 0 { assert MayPrecede(log[i - 1], log[j - 1]); }
    }
  }

  // ----- the end of a drain -----

  /** What ends a drain: the preemption of anything but a compact request, and a trigger that has
      no room to go to. */
  predicate EndsDrain(source: Source, result: Result) {
    match source
    case User => result.Preempted?
    case Trigger => result.Preempted? || result.NoRoom?
    case Heartbeat => result.Preempted?
    case Compact => false
  }

  /** No item but the last one ended the drain; the last one did so exactly when the drain reports
      it, and it is back as the newest row exactly when it is no heartbeat and its insert worked. */
  ghost predicate EndsAsItShould(d: Drained, t: Table, turns: nat -> Turn, k: nat) {
    var n := |d.log|;
    && (forall j :: 0 <= j < n - 1 ==> !EndsDrain(d.log[j].source, turns(k + j).result))
    && (if n == 0 || !EndsDrain(d.log[n - 1].source, turns(k + n - 1).result) then
          (d.why == Empty || d.why == DequeueFailed) && d.table.lastId == t.lastId
        else
          var item, result := d.log[n - 1], turns(k + n - 1).result;
          && d.why == (if result.Preempted? then WasPreempted else WasNoRoom)
          && if result.requeueOk && item.source != Heartbeat
             then d.table.lastId == t.lastId + 1 && EndsWith(d.table.rows, item.(id := t.lastId + 1))
             else d.table.lastId == t.lastId)
  }

  predicate EndsWith(rows: seq<Row>, row: Row) {
    rows != [] && rows[|rows| - 1] == row
  }

  lemma {:induction false} DrainEndsAsItShould(t: Table, turns: nat -> Turn, k: nat)
    ensures EndsAsItShould(Drain(t, turns, k), t, turns, k)
    decreases |t.rows|
  {
    DrainUnfolds(t, turns, k);
    if turns(k).dequeueOk && t.rows != [] {
      var (item, rest) := Next(t, turns(k).mergeOk);
      assert rest.lastId == t.lastId && |rest.rows| < |t.rows|;
      hide Next, Drain;
      if !EndsDrain(item.source, turns(k).result) {
        DrainEndsAsItShould(rest, turns, k + 1);
        hide Stops, EndsDrain;
        LaterEnd(Drain(rest, turns, k + 1), item, rest, t, turns, k);
      }
    }
  }

  lemma LaterEnd(d: Drained, item: Row, rest: Table, t: Table, turns: nat -> Turn, k: nat)
    requires EndsAsItShould(d, rest, turns, k + 1) && rest.lastId == t.lastId
    requires !EndsDrain(item.source, turns(k).result)
    ensures EndsAsItShould(d.(log := [item] + d.log), t, turns, k)
  {
    hide EndsDrain, EndsWith;
    var log := [item] + d.log;
    forall j | 0 <= j < |log| - 1 ensures !EndsDrain(log[j].source, turns(k + j).result) {
      if j > 0 { assert log[j] == d.log[j - 1] && turns(k + j) == turns(k + 1 + (j - 1)); }
    }
    if d.log != [] {
      assert log[|log| - 1] == d.log[|d.log| - 1] && turns(k + |log| - 1) == turns(k + 1 + |d.log| - 1);
    }
  }

  // ----- the statements on heartbeats and stale rows -----

  /** A heartbeat is queued exactly when there is none. */
  lemma HeartbeatIsQueuedOnce(t: Table)
    ensures var t' := WithHeartbeat(t);
      if exists row :: row in t.rows && row.source == Heartbeat then t' == t
      else
        && t'.lastId == t.lastId + 1
        && t'.rows == t.rows + [Row(t'.lastId, 2, Heartbeat, "", "")]
  {
    if row :| row in t.rows && row.source == Heartbeat {
      var i :| 0 <= i < |t.rows| && t.rows[i] == row;
    }
  }

  /** At a start the queued users and triggers stay, in order, and nothing else does. */
  lemma PurgeIsExact(rows: seq<Row>, row: Row)
    ensures row in Purged(rows) <==> row in rows && (row.source == User || row.source == Trigger)
    ensures IsPart(Purged(rows), rows)
  {
    FilterMembers(rows, row);
    FiltersAreParts(rows);
  }
}
