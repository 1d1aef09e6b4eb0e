/** The inbox store as an object over its table, with the in-place sort of a user batch. */
module InboxStores {
  import opened Common
  import opened InboxModel

  predicate SortedById(s: seq<Row>) {
    forall i, j :: 0 <= i < j < |s| ==> s[i].id <= s[j].id
  }

  /** A listing by id of rows with different ids is the only one. */
  lemma {:induction false} OneListing(a: seq<Row>, b: seq<Row>)
    requires SortedById(a) && Ascending(b) && multiset(a) == multiset(b)
    ensures a == b
  {
    assert |multiset(a)| == |a| && |multiset(b)| == |b|;
    if a != [] {
      SameFirst(a, b);
      SameRest(a, b);
      OneListing(a[1..], b[1..]);
      assert a == [a[0]] + a[1..] && b == [b[0]] + b[1..];
    }
  }

  lemma SameRest(a: seq<Row>, b: seq<Row>)
    requires a != [] && b != [] && a[0] == b[0] && multiset(a) == multiset(b)
    ensures multiset(a[1..]) == multiset(b[1..])
  {
    assert a == [a[0]] + a[1..] && b == [a[0]] + b[1..];
    assert multiset(a[1..]) == multiset(a) - multiset{a[0]} && multiset(b[1..]) == multiset(b) - multiset{a[0]};
  }

  lemma SameFirst(a: seq<Row>, b: seq<Row>)
    requires SortedById(a) && Ascending(b) && multiset(a) == multiset(b) && a != [] && b != []
    ensures a[0] == b[0]
  {
    assert a[0] in multiset(b) && b[0] in multiset(a);
    var i :| 0 <= i < |b| && b[i] == a[0];
    var j :| 0 <= j < |a| && a[j] == b[0];
  }

  function Swapped(s: seq<Row>, k: nat): seq<Row>
    requires 0 < k < |s|
  {
    s[k := s[k - 1]][k - 1 := s[k]]
  }

  lemma SwapKeepsRows(s: seq<Row>, k: nat)
    requires 0 < k < |s|
    ensures multiset(Swapped(s, k)) == multiset(s)
  {
    assert s == s[..k - 1] + [s[k - 1], s[k]] + s[k + 1..];
    assert Swapped(s, k) == s[..k - 1] + [s[k], s[k - 1]] + s[k + 1..];
  }

  /** The first n + 1 rows are in order but for the one at k, which may belong further down. */
  predicate SortedBut(s: seq<Row>, n: nat, k: nat)
    requires k <= n < |s|
  {
    forall i, j :: 0 <= i < j <= n && j != k ==> s[i].id <= s[j].id
  }

  lemma SwapSinks(s: seq<Row>, n: nat, k: nat)
    requires 0 < k <= n < |s| && SortedBut(s, n, k) && s[k].id < s[k - 1].id
    ensures SortedBut(Swapped(s, k), n, k - 1)
  {
  }

  lemma SunkIsSorted(s: seq<Row>, n: nat, k: nat)
    requires k <= n < |s| && SortedBut(s, n, k) && (k > 0 ==> s[k - 1].id <= s[k].id)
    ensures SortedById(s[..n + 1])
  {
  }

  /** One round of the sort: the row at `n` goes down to its place. */
  method Sink(items: array<Row>, n: nat)
    requires n < items.Length && SortedById(items[..n])
    modifies items
    ensures multiset(items[..]) == multiset(old(items[..]))
    ensures SortedById(items[..n + 1])
  {
    var k := n;
    assert forall i :: 0 <= i < n ==> items[..n][i] == items[i];
    while k > 0 && items[k].id < items[k - 1].id
      invariant 0 <= k <= n
      invariant multiset(items[..]) == multiset(old(items[..]))
      invariant SortedBut(items[..], n, k)
    {
      SwapKeepsRows(items[..], k);
      SwapSinks(items[..], n, k);
      ghost var was := items[..];
      items[k], items[k - 1] := items[k - 1], items[k];
      assert items[..] == Swapped(was, k);
      k := k - 1;
    }
    SunkIsSorted(items[..], n, k);
    assert items[..][..n + 1] == items[..n + 1];
  }

  /** slices.SortFunc by id */
  method SortById(items: array<Row>)
    modifies items
    ensures multiset(items[..]) == multiset(old(items[..]))
    ensures SortedById(items[..])
  {
    for n := 0 to items.Length
      invariant multiset(items[..]) == multiset(old(items[..]))
      invariant SortedById(items[..n])
    {
      Sink(items, n);
    }
    assert items[..items.Length] == items[..];
  }

  datatype Dequeued = NoRows | QueryError | Got(item: Row)

  class InboxStore {
    var rows: seq<Row>
    var lastId: int

    ghost function View(): Table
      reads this
    {
      Table(rows, lastId)
    }

    /** NewInboxStore on the table of an earlier process. */
    constructor (t: Table)
      ensures View() == Table(Purged(t.rows), t.lastId)
      ensures forall row :: row in rows <==> row in t.rows && (row.source == User || row.source == Trigger)
    {
      forall row {
        FilterMembers(t.rows, row);
      }
      rows, lastId := Purged(t.rows), t.lastId;
    }

    method Enqueue(priority: int, source: Source, content: string, replyTo: string, dbOk: bool) returns (ok: bool)
      modifies this
      ensures ok == dbOk
      ensures View() == if ok then Insert(old(View()), priority, source, content, replyTo) else old(View())
    {
      if dbOk {
        lastId := lastId + 1;
        rows := rows + [Row(lastId, priority, source, content, replyTo)];
      }
      ok := dbOk;
    }

    method Dequeue(dbOk: bool) returns (r: Dequeued)
      modifies this
      ensures !dbOk ==> r == QueryError && View() == old(View())
      ensures dbOk && old(rows) == [] ==> r == NoRows && View() == old(View())
      ensures dbOk && old(rows) != [] ==>
        && r == Got(old(rows)[TopIndex(old(rows))])
        && View() == Table(Without(old(rows), TopIndex(old(rows))), old(lastId))
        && forall other :: other in old(rows) ==>
            r.item.priority < other.priority || (r.item.priority == other.priority && r.item.id <= other.id)
    {
      if !dbOk { return QueryError; }
      if rows == [] { return NoRows; }
      var top := 0;
      for i := 1 to |rows|
        invariant top < i
        invariant forall j :: 0 <= j < i && j != top ==> !Ahead(rows[j], rows[top])
        invariant forall j :: 0 <= j < top ==> Ahead(rows[top], rows[j])
      {
        if Ahead(rows[i], rows[top]) { top := i; }
      }
      TopIndexIs(rows, top);
      r := Got(rows[top]);
      rows := Without(rows, top);
    }

    method Requeue(item: Row, dbOk: bool) returns (ok: bool)
      modifies this
      ensures ok == (dbOk || item.source.Heartbeat?)
      ensures View() == if dbOk then Requeued(old(View()), item) else old(View())
    {
      if item.source.Heartbeat? { return true; }
      ok := Enqueue(item.priority, item.source, item.content, item.replyTo, dbOk);
    }

    /** DELETE ... RETURNING: all user rows, in no promised order. */
    method DeleteUserItems() returns (items: array<Row>)
      modifies this
      ensures fresh(items)
      ensures multiset(items[..]) == multiset(UserRows(old(rows)))
      ensures View() == Table(OtherRows(old(rows)), old(lastId))
    {
      var users := UserRows(rows);
      items := new Row[|users|](i requires 0 <= i < |users| => users[i]);
      assert items[..] == users;
      rows := OtherRows(rows);
    }

    method DequeueUserBatch(dbOk: bool) returns (batch: Option<seq<Row>>)
      requires Shape(View())
      modifies this
      ensures dbOk ==> batch == Some(UserRows(old(rows))) && View() == Table(OtherRows(old(rows)), old(lastId))
      ensures !dbOk ==> batch == None && View() == old(View())
    {
      if !dbOk { return None; }
      ghost var users := UserRows(rows);
      FiltersAreParts(rows);
      PartKeepsShape(users, View());
      var items := DeleteUserItems();
      SortById(items);
      OneListing(items[..], users);
      batch := Some(items[..]);
    }

    method EnqueueHeartbeat(dbOk: bool) returns (inserted: bool)
      modifies this
      ensures View() == if dbOk then WithHeartbeat(old(View())) else old(View())
      ensures inserted <==> dbOk && forall row :: row in old(rows) ==> row.source != Heartbeat
    {
      inserted := dbOk && !HasHeartbeat(rows);
      if inserted {
        var _ := Enqueue(HEARTBEAT_PRIORITY, Heartbeat, "", "", true);
      }
    }
  }

  /** The row that no other is ahead of is where the query looks, the first one among equals. */
  lemma {:induction false} TopIndexIs(rows: seq<Row>, top: nat)
    requires top < |rows|
    requires forall j :: 0 <= j < |rows| && j != top ==> !Ahead(rows[j], rows[top])
    requires forall j :: 0 <= j < top ==> Ahead(rows[top], rows[j])
    ensures TopIndex(rows) == top
  {
    if |rows| > 1 {
      if top > 0 {
        TopIndexIs(rows[1..], top - 1);
      } else {
        var k := 1 + TopIndex(rows[1..]);
        assert !Ahead(rows[k], rows[0]);
      }
    }
  }
}
