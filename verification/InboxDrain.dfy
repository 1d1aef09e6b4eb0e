/** One uninterrupted drain of the inbox, and the plan it follows: sort, then fold. */
module InboxDrain {
  import opened InboxModel

  // ----- sorting -----

  ghost predicate IsSorted(s: seq<Row>) {
    forall i, j :: 0 <= i < j < |s| ==> Ahead(s[i], s[j])
  }

  lemma {:induction false} InsertMembers(row: Row, s: seq<Row>)
    ensures |InsertAhead(row, s)| == |s| + 1
    ensures forall x :: x in InsertAhead(row, s) <==> x == row || x in s
  {
    if s != [] && !Ahead(row, s[0]) { InsertMembers(row, s[1..]); }
  }

  lemma {:induction false} InsertSorts(row: Row, s: seq<Row>)
    requires IsSorted(s) && forall x :: x in s ==> x.id != row.id
    ensures IsSorted(InsertAhead(row, s))
  {
    if s != [] && !Ahead(row, s[0]) {
      InsertSorts(row, s[1..]);
      InsertMembers(row, s[1..]);
      var rest := InsertAhead(row, s[1..]);
      forall i | 0 <= i < |rest| ensures Ahead(s[0], rest[i]) {
        assert rest[i] in rest;
      }
    }
  }

  lemma {:induction false} SortedIsSorted(rows: seq<Row>)
    requires Ascending(rows)
    ensures IsSorted(Sorted(rows))
    ensures forall x :: x in Sorted(rows) <==> x in rows
  {
    if rows != [] {
      SortedIsSorted(rows[1..]);
      InsertMembers(rows[0], Sorted(rows[1..]));
      InsertSorts(rows[0], Sorted(rows[1..]));
    }
  }

  lemma {:induction false} SortedStays(s: seq<Row>)
    requires IsSorted(s)
    ensures Sorted(s) == s
  {
    if s != [] { SortedStays(s[1..]); }
  }

  /** The row that DequeueInbox finds comes first. */
  lemma {:induction false} TopComesFirst(rows: seq<Row>, k: nat)
    requires Ascending(rows) && k < |rows|
    requires forall i :: 0 <= i < |rows| && i != k ==> Ahead(rows[k], rows[i])
    ensures Sorted(rows) == [rows[k]] + Sorted(Without(rows, k))
  {
    var rest := rows[1..];
    if k == 0 {
      assert Without(rows, 0) == rest;
      SortedIsSorted(rest);
      if rest != [] {
        InsertMembersOfSorted(rest);
        assert Sorted(rest)[0] in rest;
      }
    } else {
      TopComesFirst(rest, k - 1);
      assert Without(rows, k) == [rows[0]] + Without(rest, k - 1);
      assert ([rows[0]] + Without(rest, k - 1))[1..] == Without(rest, k - 1);
      assert rest[k - 1] == rows[k];
    }
  }

  lemma {:induction false} InsertMembersOfSorted(rows: seq<Row>)
    ensures |Sorted(rows)| == |rows|
  {
    if rows != [] {
      InsertMembersOfSorted(rows[1..]);
      InsertMembers(rows[0], Sorted(rows[1..]));
    }
  }

  // ----- folding -----

  lemma InsertAtFront(row: Row, s: seq<Row>)
    requires forall x :: x in s ==> Ahead(row, x)
    ensures InsertAhead(row, s) == [row] + s
  {
    assert s != [] ==> s[0] in s;
  }

  lemma FilterCons(row: Row, s: seq<Row>)
    ensures UserRows([row] + s) == if row.source.User? then [row] + UserRows(s) else UserRows(s)
    ensures OtherRows([row] + s) == if row.source.User? then OtherRows(s) else [row] + OtherRows(s)
  {
    assert ([row] + s)[1..] == s;
  }

  lemma InsertCons(row: Row, x: Row, s: seq<Row>)
    ensures InsertAhead(row, [x] + s) == if Ahead(row, x) then [row, x] + s else [x] + InsertAhead(row, s)
  {
    assert ([x] + s)[1..] == s;
    assert [row, x] + s == [row] + ([x] + s);
  }

  lemma {:induction false} FilterInsert(row: Row, s: seq<Row>)
    requires IsSorted(s)
    ensures UserRows(InsertAhead(row, s)) == if row.source.User? then InsertAhead(row, UserRows(s)) else UserRows(s)
    ensures OtherRows(InsertAhead(row, s)) == if row.source.User? then OtherRows(s) else InsertAhead(row, OtherRows(s))
  {
    if s == [] || Ahead(row, s[0]) {
      FilterCons(row, s);
      forall x | x in UserRows(s) || x in OtherRows(s) ensures Ahead(row, x) {
        FilterMembers(s, x);
      }
      InsertAtFront(row, UserRows(s));
      InsertAtFront(row, OtherRows(s));
    } else {
      var rest := s[1..];
      assert s == [s[0]] + rest;
      FilterInsert(row, rest);
      InsertCons(row, s[0], rest);
      hide UserRows, OtherRows, InsertAhead;
      FilterCons(s[0], rest);
      FilterCons(s[0], InsertAhead(row, rest));
      InsertCons(row, s[0], UserRows(rest));
      InsertCons(row, s[0], OtherRows(rest));
    }
  }

  lemma {:induction false} FilterSorted(rows: seq<Row>)
    requires Ascending(rows)
    ensures UserRows(Sorted(rows)) == Sorted(UserRows(rows))
    ensures OtherRows(Sorted(rows)) == Sorted(OtherRows(rows))
  {
    if rows != [] {
      FilterSorted(rows[1..]);
      SortedIsSorted(rows[1..]);
      FilterInsert(rows[0], Sorted(rows[1..]));
      assert rows == [rows[0]] + rows[1..];
      FilterCons(rows[0], rows[1..]);
      SortedCons(rows[0], UserRows(rows[1..]));
      SortedCons(rows[0], OtherRows(rows[1..]));
    }
  }

  lemma SortedCons(row: Row, s: seq<Row>)
    ensures Sorted([row] + s) == InsertAhead(row, Sorted(s))
  {
    assert ([row] + s)[1..] == s;
  }

  lemma {:induction false} NothingToFold(s: seq<Row>)
    requires forall x :: x in s ==> !x.source.User?
    ensures Folded(s) == s
  {
    if s != [] {
      assert s[0] in s;
      NothingToFold(s[1..]);
    }
  }

  lemma UserRowsAreSorted(rows: seq<Row>)
    requires RowsAreSound(rows)
    ensures Sorted(UserRows(rows)) == UserRows(rows)
  {
    FiltersAreParts(rows);
    PartKeepsShape(UserRows(rows), Table(rows, if rows == [] then 0 else rows[|rows| - 1].id));
    forall x | x in UserRows(rows) ensures x.source.User? {
      FilterMembers(rows, x);
    }
    SortedStays(UserRows(rows));
  }

  // ----- one drain -----

  /** How the processing of an item ends; `requeueOk` is false when the re-insert fails. */
  datatype Result = Completed | Preempted(requeueOk: bool) | NoRoom(requeueOk: bool)

  /** What the environment answers in one iteration of the loop. */
  datatype Turn = Turn(dequeueOk: bool, mergeOk: bool, result: Result)

  datatype Stop = Empty | DequeueFailed | WasPreempted | WasNoRoom

  /** A compact item is never requeued; heartbeats and prompts without a room are dropped. */
  predicate Stops(item: Row, result: Result) {
    !item.source.Compact? && (result.Preempted? || (result.NoRoom? && item.source.Trigger?))
  }

  function AfterItem(t: Table, item: Row, result: Result): Table {
    if Stops(item, result) && result.requeueOk then Requeued(t, item) else t
  }

  /** Dequeue and mergeUserItems: the item, and the table without it. */
  function Next(t: Table, mergeOk: bool): (r: (Row, Table))
    requires t.rows != []
    ensures |r.1.rows| < |t.rows|
  {
    var k := TopIndex(t.rows);
    var item, rest := t.rows[k], Without(t.rows, k);
    OthersAreFewer(rest);
    if item.source.User? && mergeOk then (Merged(item, UserRows(rest)), Table(OtherRows(rest), t.lastId))
    else (item, Table(rest, t.lastId))
  }

  lemma {:induction false} OthersAreFewer(rows: seq<Row>)
    ensures |OtherRows(rows)| <= |rows|
  {
    if rows != [] { OthersAreFewer(rows[1..]); }
  }

  datatype Drained = Drained(log: seq<Row>, table: Table, why: Stop)

  function StopOf(result: Result): Stop {
    if result.NoRoom? then WasNoRoom else WasPreempted
  }

  /** drainOnce; `turns(k)` answers its k-th iteration. */
  function Drain(t: Table, turns: nat -> Turn, k: nat): Drained
    decreases |t.rows|
  {
    if !turns(k).dequeueOk then Drained([], t, DequeueFailed)
    else if t.rows == [] then Drained([], t, Empty)
    else
      var (item, rest) := Next(t, turns(k).mergeOk);
      var result := turns(k).result;
      if Stops(item, result) then Drained([item], AfterItem(rest, item, result), StopOf(result))
      else
        var d := Drain(rest, turns, k + 1);
        d.(log := [item] + d.log)
  }

  /** The three ways one iteration can go. */
  lemma DrainUnfolds(t: Table, turns: nat -> Turn, k: nat)
    ensures !turns(k).dequeueOk ==> Drain(t, turns, k) == Drained([], t, DequeueFailed)
    ensures turns(k).dequeueOk && t.rows == [] ==> Drain(t, turns, k) == Drained([], t, Empty)
    ensures turns(k).dequeueOk && t.rows != [] ==>
      var (item, rest), result := Next(t, turns(k).mergeOk), turns(k).result;
      var t' := AfterItem(rest, item, result);
      if Stops(item, result) then Drain(t, turns, k) == Drained([item], t', StopOf(result))
      else
        && |t'.rows| < |t.rows|
        && Drain(t, turns, k) == Drain(t', turns, k + 1).(log := [item] + Drain(t', turns, k + 1).log)
  {
    hide Next;
  }

  lemma TopIsAhead(rows: seq<Row>)
    requires rows != [] && Ascending(rows)
    ensures var k := TopIndex(rows); forall i :: 0 <= i < |rows| && i != k ==> Ahead(rows[k], rows[i])
  {
  }

  /** The next item is the head of the plan, and what stays in the table has the rest as plan. */
  lemma NextIsPlanned(t: Table)
    requires Shape(t) && t.rows != []
    ensures Plan(t.rows) == [Next(t, true).0] + Plan(Next(t, true).1.rows)
    ensures Shape(Next(t, true).1)
  {
    var k := TopIndex(t.rows);
    var item, rest := t.rows[k], Without(t.rows, k);
    TopIsAhead(t.rows);
    TopComesFirst(t.rows, k);
    assert Sorted(t.rows)[1..] == Sorted(rest);
    WithoutIsPart(t.rows, k);
    PartKeepsShape(rest, t);
    FilterSorted(rest);
    FiltersAreParts(rest);
    PartKeepsShape(OtherRows(rest), Table(rest, t.lastId));
    UserRowsAreSorted(rest);
    var others := OtherRows(rest);
    SortedIsSorted(others);
    forall x | x in Sorted(others) ensures !x.source.User? {
      FilterMembers(rest, x);
    }
    NothingToFold(Sorted(others));
  }

  /** Whether the last item of a drain went back into the table. */
  predicate WentBack(d: Drained, t: Table) {
    d.table.lastId != t.lastId
  }

  /** The rows of the table that were there before the drain. */
  function LeftOver(d: Drained, t: Table): seq<Row> {
    if WentBack(d, t) && d.table.rows != [] then d.table.rows[..|d.table.rows| - 1] else d.table.rows
  }

  ghost predicate FollowsPlan(d: Drained, t: Table) {
    && d.log <= Plan(t.rows)
    && Plan(LeftOver(d, t)) == Plan(t.rows)[|d.log|..]
    && (WentBack(d, t) ==>
          && d.log != [] && d.table.rows != []
          && !d.why.Empty? && !d.why.DequeueFailed?
          && d.table.rows[|d.table.rows| - 1] == d.log[|d.log| - 1].(id := t.lastId + 1))
    && (d.why.Empty? ==> d.log == Plan(t.rows) && d.table.rows == [])
  }

  /** With no producer beside it, a drain processes the plan from its start, and the rows left
      in the table still have the unprocessed part of it as their plan; the item that stopped
      the drain, and no other, may be back under a fresh id. */
  lemma {:induction false} DrainFollowsPlan(t: Table, turns: nat -> Turn, k: nat)
    requires Shape(t) && forall i :: turns(i).mergeOk
    ensures FollowsPlan(Drain(t, turns, k), t)
    decreases |t.rows|
  {
    if t.rows == [] || !turns(k).dequeueOk {
      assert LeftOver(Drain(t, turns, k), t) == t.rows;
    } else {
      var (item, rest) := Next(t, true);
      NextIsPlanned(t);
      hide Plan, FollowsPlan, Next;
      if Stops(item, turns(k).result) {
        StoppedDrainFollows(t, item, rest, turns(k).result);
      } else {
        DrainFollowsPlan(rest, turns, k + 1);
        LongerDrainFollows(t, item, rest, Drain(rest, turns, k + 1));
      }
    }
  }

  lemma StoppedDrainFollows(t: Table, item: Row, rest: Table, result: Result)
    requires rest.lastId == t.lastId && Plan(t.rows) == [item] + Plan(rest.rows) && Stops(item, result)
    ensures FollowsPlan(Drained([item], AfterItem(rest, item, result), StopOf(result)), t)
  {
    hide Plan;
    assert LeftOver(Drained([item], AfterItem(rest, item, result), StopOf(result)), t) == rest.rows;
  }

  lemma LongerDrainFollows(t: Table, item: Row, rest: Table, d: Drained)
    requires rest.lastId == t.lastId && Plan(t.rows) == [item] + Plan(rest.rows) && FollowsPlan(d, rest)
    ensures FollowsPlan(d.(log := [item] + d.log), t)
  {
    hide Plan;
  }

  /** If an item stopped the drain, that item is back in the table, unless it is a heartbeat or
      its insert failed. */
  ghost predicate PutsBack(d: Drained, t: Table, turns: nat -> Turn, k: nat) {
    d.why.WasPreempted? || d.why.WasNoRoom? ==>
      && d.log != []
      && var item, result := d.log[|d.log| - 1], turns(k + |d.log| - 1).result;
        && !result.Completed?
        && (WentBack(d, t) <==> result.requeueOk && !item.source.Heartbeat?)
  }

  lemma {:induction false} StoppedItemGoesBack(t: Table, turns: nat -> Turn, k: nat)
    ensures PutsBack(Drain(t, turns, k), t, turns, k)
    decreases |t.rows|
  {
    DrainUnfolds(t, turns, k);
    if turns(k).dequeueOk && t.rows != [] {
      var (item, rest) := Next(t, turns(k).mergeOk);
      assert rest.lastId == t.lastId && |rest.rows| < |t.rows|;
      hide Next, Drain, PutsBack;
      if Stops(item, turns(k).result) {
        StopPutsBack(t, item, rest, turns, k);
      } else {
        StoppedItemGoesBack(rest, turns, k + 1);
        LongerPutsBack(t, item, rest, Drain(rest, turns, k + 1), turns, k);
      }
    }
  }

  lemma StopPutsBack(t: Table, item: Row, rest: Table, turns: nat -> Turn, k: nat)
    requires Stops(item, turns(k).result) && rest.lastId == t.lastId
    ensures PutsBack(Drained([item], AfterItem(rest, item, turns(k).result), StopOf(turns(k).result)), t, turns, k)
  {
  }

  lemma LongerPutsBack(t: Table, item: Row, rest: Table, d: Drained, turns: nat -> Turn, k: nat)
    requires PutsBack(d, rest, turns, k + 1) && rest.lastId == t.lastId
    ensures PutsBack(d.(log := [item] + d.log), t, turns, k)
  {
    assert d.log != [] ==> ([item] + d.log)[|d.log|] == d.log[|d.log| - 1];
  }

  /** When nothing stops it, a drain does the whole plan. */
  lemma {:induction false} FullDrainDoesThePlan(t: Table, turns: nat -> Turn, k: nat)
    requires Shape(t) && forall i :: turns(i) == Turn(true, true, Completed)
    ensures Drain(t, turns, k) == Drained(Plan(t.rows), Table([], t.lastId), Empty)
    decreases |t.rows|
  {
    if t.rows != [] {
      NextIsPlanned(t);
      hide Plan;
      FullDrainDoesThePlan(Next(t, true).1, turns, k + 1);
    } else {
      DrainFollowsPlan(t, turns, k);
    }
  }

  lemma {:induction false} JoinedAppend(content: string, extra: seq<Row>, row: Row)
    ensures Joined(content, extra + [row]) == Joined(content, extra) + "\n" + row.content
    decreases |extra|
  {
    if extra != [] {
      JoinedAppend(extra[0].content, extra[1..], row);
      assert (extra + [row])[1..] == extra[1..] + [row];
    }
  }
}
