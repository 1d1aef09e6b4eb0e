/** The inbox table and what one drain of it must process. */
module InboxModel {

  const USER_PRIORITY := 0
  const TRIGGER_PRIORITY := 1
  const HEARTBEAT_PRIORITY := 2

  datatype Source = User | Trigger | Heartbeat | Compact

  datatype Row = Row(id: int, priority: int, source: Source, content: string, replyTo: string)

  /** Rows in id order; `lastId` is the AUTOINCREMENT sequence. */
  datatype Table = Table(rows: seq<Row>, lastId: int)

  // ----- the statements -----

  /** EnqueueInbox */
  function Insert(t: Table, priority: int, source: Source, content: string, replyTo: string): Table {
    Table(t.rows + [Row(t.lastId + 1, priority, source, content, replyTo)], t.lastId + 1)
  }

  /** ORDER BY priority ASC, id ASC */
  predicate Ahead(a: Row, b: Row) {
    a.priority < b.priority || (a.priority == b.priority && a.id < b.id)
  }

  /** Where DequeueInbox finds its row. */
  function TopIndex(rows: seq<Row>): (k: nat)
    requires rows != []
    ensures k < |rows|
    ensures forall i :: 0 <= i < |rows| && i != k ==> !Ahead(rows[i], rows[k])
  {
    if |rows| == 1 then 0
    else
      var k := 1 + TopIndex(rows[1..]);
      assert forall i :: 1 <= i < |rows| ==> rows[i] == rows[1..][i - 1];
      if Ahead(rows[k], rows[0]) then k else 0
  }

  function Without<T>(s: seq<T>, k: nat): seq<T>
    requires k < |s|
  {
    s[..k] + s[k + 1..]
  }

  function UserRows(rows: seq<Row>): seq<Row> {
    if rows == [] then [] else (if rows[0].source.User? then [rows[0]] else []) + UserRows(rows[1..])
  }

  function OtherRows(rows: seq<Row>): seq<Row> {
    if rows == [] then [] else (if rows[0].source.User? then [] else [rows[0]]) + OtherRows(rows[1..])
  }

  predicate IsStale(row: Row) {
    row.source.Heartbeat? || row.source.Compact?
  }

  /** DeleteStaleItems */
  function Purged(rows: seq<Row>): seq<Row> {
    if rows == [] then [] else (if IsStale(rows[0]) then [] else [rows[0]]) + Purged(rows[1..])
  }

  predicate HasHeartbeat(rows: seq<Row>) {
    exists i :: 0 <= i < |rows| && rows[i].source.Heartbeat?
  }

  /** EnqueueHeartbeatIfEmpty */
  function WithHeartbeat(t: Table): Table {
    if HasHeartbeat(t.rows) then t else Insert(t, HEARTBEAT_PRIORITY, Heartbeat, "", "")
  }

  /** Requeue */
  function Requeued(t: Table, item: Row): Table {
    if item.source.Heartbeat? then t else Insert(t, item.priority, item.source, item.content, item.replyTo)
  }

  function Joined(content: string, extra: seq<Row>): string
    decreases |extra|
  {
    if extra == [] then content else content + "\n" + Joined(extra[0].content, extra[1..])
  }

  /** mergeUserItems, with the rows that DequeueUserBatch returned. */
  function Merged(item: Row, extra: seq<Row>): Row {
    if extra == [] then item
    else item.(content := Joined(item.content, extra), replyTo := extra[|extra| - 1].replyTo)
  }

  // ----- the shape of the table -----

  function PriorityOf(source: Source): int {
    match source
    case User => USER_PRIORITY
    case Compact => USER_PRIORITY
    case Trigger => TRIGGER_PRIORITY
    case Heartbeat => HEARTBEAT_PRIORITY
  }

  predicate Ascending(rows: seq<Row>) {
    forall i, j :: 0 <= i < j < |rows| ==> rows[i].id < rows[j].id
  }

  predicate AtMostOne(rows: seq<Row>, source: Source) {
    forall i, j :: 0 <= i < j < |rows| ==> !(rows[i].source == source && rows[j].source == source)
  }

  predicate RowsAreSound(rows: seq<Row>) {
    && Ascending(rows)
    && (forall i :: 0 <= i < |rows| ==> rows[i].priority == PriorityOf(rows[i].source))
    && AtMostOne(rows, Heartbeat)
  }

  predicate Shape(t: Table) {
    && RowsAreSound(t.rows)
    && (forall i :: 0 <= i < |t.rows| ==> t.rows[i].id <= t.lastId)
  }

  /** `part` is `rows` with some rows left out. */
  ghost predicate IsPart(part: seq<Row>, rows: seq<Row>) {
    exists at: seq<nat> :: Picks(at, part, rows)
  }

  ghost predicate Picks(at: seq<nat>, part: seq<Row>, rows: seq<Row>) {
    && |at| == |part|
    && (forall i :: 0 <= i < |at| ==> at[i] < |rows| && part[i] == rows[at[i]])
    && (forall i, j :: 0 <= i < j < |at| ==> at[i] < at[j])
  }

  lemma PartKeepsShape(part: seq<Row>, t: Table)
    requires Shape(t) && IsPart(part, t.rows)
    ensures Shape(Table(part, t.lastId))
  {
    var at: seq<nat> :| Picks(at, part, t.rows);
  }

  lemma PartDrop(row: Row, part: seq<Row>, rows: seq<Row>)
    requires IsPart(part, rows)
    ensures IsPart(part, [row] + rows)
  {
    var at: seq<nat> :| Picks(at, part, rows);
    assert Picks(seq(|at|, i requires 0 <= i < |at| => at[i] + 1), part, [row] + rows);
  }

  lemma PartKeep(row: Row, part: seq<Row>, rows: seq<Row>)
    requires IsPart(part, rows)
    ensures IsPart([row] + part, [row] + rows)
  {
    var at: seq<nat> :| Picks(at, part, rows);
    assert Picks([0] + seq(|at|, i requires 0 <= i < |at| => at[i] + 1), [row] + part, [row] + rows);
  }

  lemma PartCons(row: Row, part: seq<Row>, rows: seq<Row>, keep: bool)
    requires IsPart(part, rows)
    ensures IsPart(if keep then [row] + part else part, [row] + rows)
  {
    if keep { PartKeep(row, part, rows); } else { PartDrop(row, part, rows); }
  }

  lemma {:induction false} FiltersAreParts(rows: seq<Row>)
    ensures IsPart(UserRows(rows), rows) && IsPart(OtherRows(rows), rows) && IsPart(Purged(rows), rows)
  {
    if rows == [] {
      assert Picks([], [], rows);
    } else {
      var row, rest := rows[0], rows[1..];
      assert rows == [row] + rest;
      FiltersAreParts(rest);
      assert UserRows(rows) == (if row.source.User? then [row] + UserRows(rest) else UserRows(rest));
      assert OtherRows(rows) == (if row.source.User? then OtherRows(rest) else [row] + OtherRows(rest));
      assert Purged(rows) == (if IsStale(row) then Purged(rest) else [row] + Purged(rest));
      hide IsPart, UserRows, OtherRows, Purged;
      PartCons(row, UserRows(rest), rest, row.source.User?);
      PartCons(row, OtherRows(rest), rest, !row.source.User?);
      PartCons(row, Purged(rest), rest, !IsStale(row));
    }
  }

  lemma WithoutIsPart(rows: seq<Row>, k: nat)
    requires k < |rows|
    ensures IsPart(Without(rows, k), rows)
  {
    var at := seq(|rows| - 1, i requires 0 <= i < |rows| - 1 => if i < k then i else i + 1);
    assert Picks(at, Without(rows, k), rows);
  }

  lemma {:induction false} FilterMembers(rows: seq<Row>, row: Row)
    ensures row in UserRows(rows) <==> row in rows && row.source.User?
    ensures row in OtherRows(rows) <==> row in rows && !row.source.User?
    ensures row in Purged(rows) <==> row in rows && !IsStale(row)
  {
    if rows != [] {
      FilterMembers(rows[1..], row);
      assert row in rows <==> row == rows[0] || row in rows[1..];
    }
  }

  /** What a requeued item looks like: a fresh id above all others, and nothing else changed. */
  lemma RequeueKeepsTheItem(t: Table, item: Row)
    requires Shape(t) && item.priority == PriorityOf(item.source)
    ensures Shape(Requeued(t, item))
    ensures item.source.Heartbeat? ==> Requeued(t, item) == t
    ensures !item.source.Heartbeat? ==>
      var t' := Requeued(t, item);
      && |t'.rows| == |t.rows| + 1
      && t'.rows[..|t.rows|] == t.rows
      && (var row := t'.rows[|t.rows|];
            && row == item.(id := row.id)
            && row.id > t.lastId
            && (forall earlier :: earlier in t.rows ==> earlier.id < row.id))
  {
  }

  // ----- what a drain must process -----

  function InsertAhead(row: Row, rows: seq<Row>): seq<Row> {
    if rows == [] || Ahead(row, rows[0]) then [row] + rows else [rows[0]] + InsertAhead(row, rows[1..])
  }

  /** All rows by priority, then by id. */
  function Sorted(rows: seq<Row>): seq<Row> {
    if rows == [] then [] else InsertAhead(rows[0], Sorted(rows[1..]))
  }

  /** All user rows folded into the first of them. */
  function Folded(rows: seq<Row>): seq<Row> {
    if rows == [] then []
    else if rows[0].source.User? then [Merged(rows[0], UserRows(rows[1..]))] + OtherRows(rows[1..])
    else [rows[0]] + Folded(rows[1..])
  }

  function Plan(rows: seq<Row>): seq<Row> {
    Folded(Sorted(rows))
  }
}
