/** The store of sent replies: a SQL table that is to behave, in each conversation, as a list
    of at most 500 entries in insertion order. */
module OutboxStores {

  const MAX_PER_CONVERSATION: nat := 500

  // ----- the table and its statements -----

  datatype Row = Row(rowid: int, conversation: string, message: string, text: string)

  predicate Keyed(row: Row, c: string, m: string) {
    row.conversation == c && row.message == m
  }

  predicate HasKey(rows: seq<Row>, c: string, m: string) {
    exists i :: 0 <= i < |rows| && Keyed(rows[i], c, m)
  }

  /** A new row gets one more than the largest rowid of the table. */
  function NextRowid(rows: seq<Row>): int {
    if rows == [] then 1 else rows[|rows| - 1].rowid + 1
  }

  function Retexted(rows: seq<Row>, c: string, m: string, text: string): seq<Row> {
    if rows == [] then []
    else [if Keyed(rows[0], c, m) then rows[0].(text := text) else rows[0]] + Retexted(rows[1..], c, m, text)
  }

  /** UpsertOutbox */
  function Upsert(rows: seq<Row>, c: string, m: string, text: string): seq<Row> {
    if HasKey(rows, c, m) then Retexted(rows, c, m, text) else rows + [Row(NextRowid(rows), c, m, text)]
  }

  /** CountOutbox */
  function Count(rows: seq<Row>, c: string): nat {
    if rows == [] then 0 else (if rows[0].conversation == c then 1 else 0) + Count(rows[1..], c)
  }

  /** DeleteOldestOutbox: rows are in rowid order. */
  function DeleteOldest(rows: seq<Row>, c: string, limit: nat): seq<Row> {
    if rows == [] || limit == 0 then rows
    else if rows[0].conversation == c then DeleteOldest(rows[1..], c, limit - 1)
    else [rows[0]] + DeleteOldest(rows[1..], c, limit)
  }

  datatype Found = Missing | Text(text: string)

  /** GetOutbox */
  function Lookup(rows: seq<Row>, c: string, m: string): Found {
    if rows == [] then Missing
    else if Keyed(rows[0], c, m) then Text(rows[0].text)
    else Lookup(rows[1..], c, m)
  }

  /** What a committed Put leaves in the table. */
  function AfterPut(rows: seq<Row>, c: string, m: string, text: string): seq<Row> {
    var rows' := Upsert(rows, c, m, text);
    var n := Count(rows', c);
    if n > MAX_PER_CONVERSATION then DeleteOldest(rows', c, n - MAX_PER_CONVERSATION) else rows'
  }

  // ----- the store -----

  /** Which database operation of a Put fails, if any. */
  datatype Fault = NoFault | BeginFails | UpsertFails | CountFails | EvictFails | CommitFails

  /** Whether a Put with that fault ends in a commit; eviction is only tried above the limit. */
  predicate Commits(rows: seq<Row>, c: string, m: string, text: string, fault: Fault) {
    fault == NoFault || (fault == EvictFails && Count(Upsert(rows, c, m, text), c) <= MAX_PER_CONVERSATION)
  }

  function PutTo(rows: seq<Row>, c: string, m: string, text: string, fault: Fault): seq<Row> {
    if m == "" || !Commits(rows, c, m, text, fault) then rows else AfterPut(rows, c, m, text)
  }

  class OutboxStore {
    var rows: seq<Row>

    constructor ()
      ensures rows == []
    {
      rows := [];
    }

    /** Put: all of it or nothing. */
    method Put(conversationID: string, messageID: string, text: string, fault: Fault)
      modifies this
      ensures rows == PutTo(old(rows), conversationID, messageID, text, fault)
    {
      if messageID == "" || fault == BeginFails {
        return;
      }
      var tx := rows;
      if fault == UpsertFails {
        return;
      }
      tx := Upsert(tx, conversationID, messageID, text);
      if fault == CountFails {
        return;
      }
      var count := Count(tx, conversationID);
      if count > MAX_PER_CONVERSATION {
        var excess := count - MAX_PER_CONVERSATION;
        if fault == EvictFails {
          return;
        }
        tx := DeleteOldest(tx, conversationID, excess);
      }
      if fault != CommitFails {
        rows := tx;
      }
    }

    /** Get */
    method Get(conversationID: string, messageID: string, dbOk: bool) returns (text: string)
      ensures text == if dbOk then GetFrom(rows, conversationID, messageID) else ""
    {
      if messageID == "" || !dbOk {
        return "";
      }
      var found := Lookup(rows, conversationID, messageID);
      return match found case Missing => "" case Text(t) => t;
    }
  }

  function GetFrom(rows: seq<Row>, c: string, m: string): string {
    if m == "" then "" else match Lookup(rows, c, m) case Missing => "" case Text(t) => t
  }

  // ----- the reference: one bounded list per conversation -----

  datatype Entry = Entry(message: string, text: string)

  predicate Has(list: seq<Entry>, m: string) {
    exists i :: 0 <= i < |list| && list[i].message == m
  }

  function UpdateIn(list: seq<Entry>, m: string, text: string): seq<Entry> {
    if list == [] then []
    else [if list[0].message == m then Entry(m, text) else list[0]] + UpdateIn(list[1..], m, text)
  }

  function Trim(list: seq<Entry>): seq<Entry> {
    if |list| > MAX_PER_CONVERSATION then list[|list| - MAX_PER_CONVERSATION..] else list
  }

  function FifoPut(list: seq<Entry>, m: string, text: string): seq<Entry> {
    if Has(list, m) then UpdateIn(list, m, text) else Trim(list + [Entry(m, text)])
  }

  function FifoGet(list: seq<Entry>, m: string): string {
    if list == [] then "" else if list[0].message == m then list[0].text else FifoGet(list[1..], m)
  }

  /** What the table holds of one conversation. */
  function Entries(rows: seq<Row>, c: string): seq<Entry> {
    if rows == [] then []
    else (if rows[0].conversation == c then [Entry(rows[0].message, rows[0].text)] else []) + Entries(rows[1..], c)
  }

  // ----- statement by statement -----

  lemma {:induction false} CountIsLength(rows: seq<Row>, c: string)
    ensures Count(rows, c) == |Entries(rows, c)|
  {
    if rows != [] { CountIsLength(rows[1..], c); }
  }

  lemma HasKeyCons(rows: seq<Row>, c: string, m: string)
    requires rows != []
    ensures HasKey(rows, c, m) <==> Keyed(rows[0], c, m) || HasKey(rows[1..], c, m)
  {
    if i :| 0 <= i < |rows[1..]| && Keyed(rows[1..][i], c, m) {
      assert Keyed(rows[i + 1], c, m);
    }
    if i :| 0 < i < |rows| && Keyed(rows[i], c, m) {
      assert Keyed(rows[1..][i - 1], c, m);
    }
  }

  lemma HasCons(e: Entry, list: seq<Entry>, m: string)
    ensures Has([e] + list, m) <==> e.message == m || Has(list, m)
  {
    var all := [e] + list;
    assert all[0] == e;
    if i :| 0 <= i < |list| && list[i].message == m {
      assert all[i + 1].message == m;
    }
    if i :| 0 < i < |all| && all[i].message == m {
      assert list[i - 1].message == m;
    }
  }

  lemma {:induction false} HasKeyIsHas(rows: seq<Row>, c: string, m: string)
    ensures HasKey(rows, c, m) <==> Has(Entries(rows, c), m)
  {
    if rows != [] {
      var rest := Entries(rows[1..], c);
      HasKeyIsHas(rows[1..], c, m);
      HasKeyCons(rows, c, m);
      if rows[0].conversation == c {
        HasCons(Entry(rows[0].message, rows[0].text), rest, m);
      } else {
        assert [] + rest == rest;
      }
    }
  }

  lemma {:induction false} EntriesAppend(rows: seq<Row>, row: Row, c: string)
    ensures Entries(rows + [row], c) ==
      Entries(rows, c) + if row.conversation == c then [Entry(row.message, row.text)] else []
  {
    if rows != [] {
      EntriesAppend(rows[1..], row, c);
      assert (rows + [row])[1..] == rows[1..] + [row];
    }
  }

  lemma EntriesCons(row: Row, rows: seq<Row>, c: string)
    ensures Entries([row] + rows, c) ==
      (if row.conversation == c then [Entry(row.message, row.text)] else []) + Entries(rows, c)
  {
    assert ([row] + rows)[1..] == rows;
  }

  lemma UpdateCons(list: seq<Entry>, m: string, text: string)
    requires list != []
    ensures UpdateIn(list, m, text) ==
      [if list[0].message == m then Entry(m, text) else list[0]] + UpdateIn(list[1..], m, text)
  {
  }

  lemma {:induction false} EntriesRetexted(rows: seq<Row>, c: string, m: string, text: string, c': string)
    ensures Entries(Retexted(rows, c, m, text), c') ==
      if c' == c then UpdateIn(Entries(rows, c), m, text) else Entries(rows, c')
  {
    if rows != [] {
      var row, rest := rows[0], rows[1..];
      EntriesRetexted(rest, c, m, text, c');
      assert rows == [row] + rest;
      hide Entries, UpdateIn;
      EntriesCons(row, rest, c');
      EntriesCons(if Keyed(row, c, m) then row.(text := text) else row, Retexted(rest, c, m, text), c');
      if c' == c {
        var list := Entries(rows, c);
        if row.conversation == c {
          assert list[1..] == Entries(rest, c);
          UpdateCons(list, m, text);
        } else {
          assert list == Entries(rest, c);
        }
      }
    }
  }

  lemma {:induction false} EntriesDeleted(rows: seq<Row>, c: string, n: nat, c': string)
    requires n <= |Entries(rows, c)|
    ensures Entries(DeleteOldest(rows, c, n), c') == if c' == c then Entries(rows, c)[n..] else Entries(rows, c')
  {
    if rows != [] && n > 0 {
      var row, rest := rows[0], rows[1..];
      assert rows == [row] + rest;
      if row.conversation == c {
        EntriesDeleted(rest, c, n - 1, c');
        hide Entries;
        EntriesCons(row, rest, c);
        EntriesCons(row, rest, c');
        assert Entries(rows, c)[n..] == Entries(rest, c)[n - 1..];
      } else {
        EntriesDeleted(rest, c, n, c');
        hide Entries;
        EntriesCons(row, rest, c);
        EntriesCons(row, rest, c');
        EntriesCons(row, DeleteOldest(rest, c, n), c');
      }
    }
  }

  lemma {:induction false} LookupIsFifoGet(rows: seq<Row>, c: string, m: string)
    ensures FifoGet(Entries(rows, c), m) == match Lookup(rows, c, m) case Missing => "" case Text(t) => t
  {
    if rows != [] {
      LookupIsFifoGet(rows[1..], c, m);
      if rows[0].conversation == c {
        assert Entries(rows, c)[1..] == Entries(rows[1..], c);
      } else {
        assert Entries(rows, c) == Entries(rows[1..], c);
      }
    }
  }

  lemma {:induction false} UpdateKeepsLength(list: seq<Entry>, m: string, text: string)
    ensures |UpdateIn(list, m, text)| == |list|
    ensures forall i ::
      0 <= i < |list| ==> UpdateIn(list, m, text)[i] == if list[i].message == m then Entry(m, text) else list[i]
  {
    if list != [] { UpdateKeepsLength(list[1..], m, text); }
  }

  lemma RePutRefines(rows: seq<Row>, c: string, m: string, text: string, c': string)
    requires |Entries(rows, c)| <= MAX_PER_CONVERSATION && HasKey(rows, c, m)
    ensures Entries(AfterPut(rows, c, m, text), c') ==
      if c' == c then UpdateIn(Entries(rows, c), m, text) else Entries(rows, c')
  {
    EntriesRetexted(rows, c, m, text, c);
    EntriesRetexted(rows, c, m, text, c');
    UpdateKeepsLength(Entries(rows, c), m, text);
    CountIsLength(Retexted(rows, c, m, text), c);
  }

  lemma NewPutRefines(rows: seq<Row>, c: string, m: string, text: string, c': string)
    requires |Entries(rows, c)| <= MAX_PER_CONVERSATION && !HasKey(rows, c, m)
    ensures Entries(AfterPut(rows, c, m, text), c') ==
      if c' == c then Trim(Entries(rows, c) + [Entry(m, text)]) else Entries(rows, c')
  {
    var up := rows + [Row(NextRowid(rows), c, m, text)];
    EntriesAppend(rows, Row(NextRowid(rows), c, m, text), c);
    EntriesAppend(rows, Row(NextRowid(rows), c, m, text), c');
    CountIsLength(up, c);
    hide Entries, Count, DeleteOldest;
    if Count(up, c) > MAX_PER_CONVERSATION {
      EntriesDeleted(up, c, Count(up, c) - MAX_PER_CONVERSATION, c');
    }
  }

  /** One committed Put: the conversation's list changes as the reference says, and no other
      conversation is touched. */
  lemma PutRefinesFifo(rows: seq<Row>, c: string, m: string, text: string, c': string)
    requires |Entries(rows, c)| <= MAX_PER_CONVERSATION
    ensures Entries(AfterPut(rows, c, m, text), c') ==
      if c' == c then FifoPut(Entries(rows, c), m, text) else Entries(rows, c')
    ensures |FifoPut(Entries(rows, c), m, text)| <= MAX_PER_CONVERSATION
  {
    HasKeyIsHas(rows, c, m);
    UpdateKeepsLength(Entries(rows, c), m, text);
    hide HasKey, Has, Entries, AfterPut;
    if HasKey(rows, c, m) { RePutRefines(rows, c, m, text, c'); } else { NewPutRefines(rows, c, m, text, c'); }
  }

  // ----- every sequence of Puts -----

  datatype PutCall = PutCall(conversation: string, message: string, text: string, fault: Fault)

  /** The table after the calls, the last one last, from an empty table. */
  function TableAfter(calls: seq<PutCall>): seq<Row> {
    if calls == [] then []
    else
      var last := calls[|calls| - 1];
      PutTo(TableAfter(calls[..|calls| - 1]), last.conversation, last.message, last.text, last.fault)
  }

  /** The call took effect; a Put with an empty message id or a failing database never does. */
  ghost predicate Stored(calls: seq<PutCall>, i: nat)
    requires i < |calls|
  {
    var p := calls[i];
    p.message != "" && Commits(TableAfter(calls[..i]), p.conversation, p.message, p.text, p.fault)
  }

  /** The reference list of conversation c after the same calls. */
  ghost function ListAfter(calls: seq<PutCall>, c: string): seq<Entry> {
    if calls == [] then []
    else
      var n := |calls| - 1;
      var list := ListAfter(calls[..n], c);
      if calls[n].conversation == c && Stored(calls, n) then FifoPut(list, calls[n].message, calls[n].text) else list
  }

  /** Over every sequence of Puts, failing ones included, each conversation holds at most 500
      entries and every Get is the lookup in that conversation's own list. */
  lemma {:induction false} StoreRefinesFifoLists(calls: seq<PutCall>, c: string, m: string)
    ensures Entries(TableAfter(calls), c) == ListAfter(calls, c)
    ensures |ListAfter(calls, c)| <= MAX_PER_CONVERSATION
    ensures GetFrom(TableAfter(calls), c, m) == if m == "" then "" else FifoGet(ListAfter(calls, c), m)
  {
    if calls != [] {
      var n := |calls| - 1;
      var last := calls[n];
      StoreRefinesFifoLists(calls[..n], c, m);
      StoreRefinesFifoLists(calls[..n], last.conversation, m);
      PutRefinesFifo(TableAfter(calls[..n]), last.conversation, last.message, last.text, c);
    }
    LookupIsFifoGet(TableAfter(calls), c, m);
  }

  // ----- when a Put takes effect -----

  /** A new message needs a place in a conversation that holds 500 already. */
  ghost predicate NeedsEviction(rows: seq<Row>, c: string, m: string) {
    |Entries(rows, c)| == 500 && !Has(Entries(rows, c), m)
  }

  lemma CountAfterUpsert(rows: seq<Row>, c: string, m: string, text: string)
    requires |Entries(rows, c)| <= MAX_PER_CONVERSATION
    ensures Count(Upsert(rows, c, m, text), c) > MAX_PER_CONVERSATION <==> NeedsEviction(rows, c, m)
  {
    HasKeyIsHas(rows, c, m);
    EntriesRetexted(rows, c, m, text, c);
    UpdateKeepsLength(Entries(rows, c), m, text);
    EntriesAppend(rows, Row(NextRowid(rows), c, m, text), c);
    CountIsLength(Upsert(rows, c, m, text), c);
  }

  /** A Put without an id changes nothing, nor does one whose transaction fails: at any statement, or at
      an eviction that is needed. Every other Put is found by the very next Get. */
  lemma PutIsFoundUnlessItFails(calls: seq<PutCall>, p: PutCall)
    ensures var rows, rows' := TableAfter(calls), TableAfter(calls + [p]);
      if p.message == "" || (p.fault != NoFault && p.fault != EvictFails)
         || (p.fault == EvictFails && NeedsEviction(rows, p.conversation, p.message))
      then rows' == rows
      else GetFrom(rows', p.conversation, p.message) == p.text
  {
    var rows, c, m := TableAfter(calls), p.conversation, p.message;
    var list := Entries(rows, c);
    assert (calls + [p])[..|calls|] == calls;
    StoreRefinesFifoLists(calls, c, m);
    MessagesStayDistinct(calls, c);
    hide ListAfter;
    CountAfterUpsert(rows, c, m, p.text);
    PutRefinesFifo(rows, c, m, p.text, c);
    LookupIsFifoGet(AfterPut(rows, c, m, p.text), c, m);
    PutIsLookedUp(list, m, p.text);
    assert TableAfter(calls + [p]) == PutTo(rows, c, m, p.text, p.fault);
    hide TableAfter, AfterPut, Upsert, FifoPut, NeedsEviction, Entries;
  }

  lemma PutIsLookedUp(list: seq<Entry>, m: string, text: string)
    requires DistinctMessages(list)
    ensures FifoGet(FifoPut(list, m, text), m) == text
  {
    PutKeepsDistinct(list, m, text);
    UpdateKeepsLength(list, m, text);
    var after := FifoPut(list, m, text);
    if Has(list, m) {
      var i :| 0 <= i < |list| && list[i].message == m;
      FifoGetAt(after, i);
    } else {
      FifoGetAt(after, |after| - 1);
    }
  }

  // ----- what the lists are good for -----

  ghost predicate DistinctMessages(list: seq<Entry>) {
    forall i, j :: 0 <= i < j < |list| ==> list[i].message != list[j].message
  }

  lemma PutKeepsDistinct(list: seq<Entry>, m: string, text: string)
    requires DistinctMessages(list)
    ensures DistinctMessages(FifoPut(list, m, text))
  {
    UpdateKeepsLength(list, m, text);
    if !Has(list, m) { assert DistinctMessages(list + [Entry(m, text)]); }
  }

  lemma {:induction false} MessagesStayDistinct(calls: seq<PutCall>, c: string)
    ensures DistinctMessages(ListAfter(calls, c))
  {
    if calls != [] {
      var n := |calls| - 1;
      MessagesStayDistinct(calls[..n], c);
      ListAfterLast(calls, c);
      hide ListAfter, FifoPut, DistinctMessages, Stored;
      PutKeepsDistinct(ListAfter(calls[..n], c), calls[n].message, calls[n].text);
    }
  }

  lemma {:induction false} FifoGetAt(list: seq<Entry>, i: nat)
    requires i < |list| && DistinctMessages(list)
    ensures FifoGet(list, list[i].message) == list[i].text
  {
    if i > 0 { FifoGetAt(list[1..], i - 1); }
  }

  /** m is entered with that text, and `age` entries are newer. */
  predicate IsAged(list: seq<Entry>, m: string, text: string, age: nat) {
    age < |list| && list[|list| - 1 - age] == Entry(m, text)
  }

  /** One more Put of another message: a known one changes nothing for m, a new one is one entry
      more that is newer, and the 500th drives m out. */
  lemma PutAges(list: seq<Entry>, m: string, text: string, age: nat, m': string, text': string)
    requires IsAged(list, m, text, age) && DistinctMessages(list) && |list| <= MAX_PER_CONVERSATION && m' != m
    ensures Has(list, m') ==> IsAged(FifoPut(list, m', text'), m, text, age)
    ensures !Has(list, m') && age + 1 < MAX_PER_CONVERSATION ==> IsAged(FifoPut(list, m', text'), m, text, age + 1)
    ensures !Has(list, m') && age + 1 >= MAX_PER_CONVERSATION ==> !Has(FifoPut(list, m', text'), m)
  {
    UpdateKeepsLength(list, m', text');
    var after := FifoPut(list, m', text');
    if !Has(list, m') && age + 1 >= MAX_PER_CONVERSATION {
      assert list[0] == Entry(m, text) && after == (list + [Entry(m', text')])[1..];
    }
  }

  lemma GoneStaysGone(list: seq<Entry>, m: string, m': string, text': string)
    requires !Has(list, m) && m' != m
    ensures !Has(FifoPut(list, m', text'), m)
  {
    UpdateKeepsLength(list, m', text');
  }

  /** The k-th call stores a reply under an id that is new to its conversation and is not put
      there again. */
  ghost predicate OnlyPut(calls: seq<PutCall>, k: nat) {
    && k < |calls| && Stored(calls, k)
    && !Has(ListAfter(calls[..k], calls[k].conversation), calls[k].message)
    && forall i ::
      k < i < |calls| ==> calls[i].conversation != calls[k].conversation || calls[i].message != calls[k].message
  }

  lemma OnlyPutBefore(calls: seq<PutCall>, k: nat)
    requires OnlyPut(calls, k) && k < |calls| - 1
    ensures OnlyPut(calls[..|calls| - 1], k) && calls[..|calls| - 1][k] == calls[k]
  {
    var before := calls[..|calls| - 1];
    assert before[..k] == calls[..k];
    assert forall i :: 0 <= i < |before| ==> before[i] == calls[i];
    assert Stored(before, k) by { assert before[..k + 1] == calls[..k + 1]; }
  }

  lemma ListAfterLast(calls: seq<PutCall>, c: string)
    requires calls != []
    ensures var n := |calls| - 1;
      ListAfter(calls, c) ==
        if calls[n].conversation == c && Stored(calls, n)
          then FifoPut(ListAfter(calls[..n], c), calls[n].message, calls[n].text)
        else ListAfter(calls[..n], c)
  {
  }

  /** The i-th call stores a message that its conversation does not list. */
  ghost predicate IsNewPut(calls: seq<PutCall>, i: nat) {
    i < |calls| && Stored(calls, i) && !Has(ListAfter(calls[..i], calls[i].conversation), calls[i].message)
  }

  /** How many new messages of conversation c were stored after the k-th call. */
  ghost function NewerThan(calls: seq<PutCall>, k: nat, c: string): nat
    requires k < |calls|
    decreases |calls|
  {
    var n := |calls| - 1;
    if k == n then 0
    else NewerThan(calls[..n], k, c) + if calls[n].conversation == c && IsNewPut(calls, n) then 1 else 0
  }

  /** The message is listed, with that many newer ones, or was driven out by the 500th of them. */
  ghost predicate IsKeptOrGone(list: seq<Entry>, m: string, text: string, age: nat) {
    if age < MAX_PER_CONVERSATION then IsAged(list, m, text, age) else !Has(list, m)
  }

  lemma PutKeepsOrDrivesOut(list: seq<Entry>, m: string, text: string, age: nat, m': string, text': string)
    requires IsKeptOrGone(list, m, text, age) && DistinctMessages(list) && |list| <= MAX_PER_CONVERSATION && m' != m
    ensures IsKeptOrGone(FifoPut(list, m', text'), m, text, age + if Has(list, m') then 0 else 1)
  {
    hide FifoPut, Has, IsAged, DistinctMessages;
    if age < MAX_PER_CONVERSATION {
      PutAges(list, m, text, age, m', text');
    } else {
      GoneStaysGone(list, m, m', text');
    }
  }

  lemma OneCallAges(calls: seq<PutCall>, c: string, m: string, text: string, age: nat)
    requires calls != []
    requires var last := calls[|calls| - 1]; last.conversation == c ==> last.message != m
    requires IsKeptOrGone(ListAfter(calls[..|calls| - 1], c), m, text, age)
    ensures var n := |calls| - 1;
      IsKeptOrGone(ListAfter(calls, c), m, text,
        age + if calls[n].conversation == c && IsNewPut(calls, n) then 1 else 0)
  {
    var n := |calls| - 1;
    var list := ListAfter(calls[..n], c);
    ListAfterLast(calls, c);
    MessagesStayDistinct(calls[..n], c);
    StoreRefinesFifoLists(calls[..n], c, m);
    hide FifoPut, ListAfter, Stored, DistinctMessages, Has, IsKeptOrGone, GetFrom, TableAfter, Entries, FifoGet;
    if calls[n].conversation == c && Stored(calls, n) {
      PutKeepsOrDrivesOut(list, m, text, age, calls[n].message, calls[n].text);
    }
  }

  lemma LastCallIsNewest(calls: seq<PutCall>)
    requires calls != [] && OnlyPut(calls, |calls| - 1)
    ensures var last := calls[|calls| - 1]; IsAged(ListAfter(calls, last.conversation), last.message, last.text, 0)
  {
    ListAfterLast(calls, calls[|calls| - 1].conversation);
    hide ListAfter, Stored;
  }

  lemma {:induction false} EntryAges(calls: seq<PutCall>, k: nat)
    requires OnlyPut(calls, k)
    ensures var c := calls[k].conversation;
      IsKeptOrGone(ListAfter(calls, c), calls[k].message, calls[k].text, NewerThan(calls, k, c))
    decreases |calls|
  {
    var c, n := calls[k].conversation, |calls| - 1;
    if k == n {
      LastCallIsNewest(calls);
    } else {
      assert calls[n].conversation != c || calls[n].message != calls[k].message;
      hide OnlyPut, ListAfter, IsKeptOrGone, IsNewPut;
      OnlyPutBefore(calls, k);
      EntryAges(calls[..n], k);
      OneCallAges(calls, c, calls[k].message, calls[k].text, NewerThan(calls[..n], k, c));
    }
  }

  lemma {:induction false} FifoGetMissing(list: seq<Entry>, m: string)
    requires !Has(list, m)
    ensures FifoGet(list, m) == ""
  {
    if list != [] {
      assert forall i :: 0 <= i < |list[1..]| ==> list[1..][i] == list[i + 1];
      assert !Has(list[1..], m);
      FifoGetMissing(list[1..], m);
    }
  }

  /** A reply under a new message id can be looked up until 500 more new ones have been stored in
      its conversation, and not from then on; failed Puts, repeats of known ids and the other
      conversations do not count. */
  lemma RecentReplyIsFound(calls: seq<PutCall>, k: nat)
    requires OnlyPut(calls, k)
    ensures var c := calls[k].conversation;
      GetFrom(TableAfter(calls), c, calls[k].message)
        == if NewerThan(calls, k, c) < 500 then calls[k].text else ""
  {
    var c, m := calls[k].conversation, calls[k].message;
    var list, age := ListAfter(calls, c), NewerThan(calls, k, c);
    EntryAges(calls, k);
    StoreRefinesFifoLists(calls, c, m);
    hide ListAfter, NewerThan, TableAfter;
    if age < MAX_PER_CONVERSATION {
      MessagesStayDistinct(calls, c);
      FifoGetAt(list, |list| - 1 - age);
    } else {
      FifoGetMissing(list, m);
    }
  }

  ghost predicate Ascending(rows: seq<Row>) {
    forall i, j :: 0 <= i < j < |rows| ==> rows[i].rowid < rows[j].rowid
  }

  lemma PutKeepsAscending(rows: seq<Row>, c: string, m: string, text: string)
    requires Ascending(rows)
    ensures Ascending(AfterPut(rows, c, m, text))
  {
    var up := Upsert(rows, c, m, text);
    assert Ascending(up) by { RetextedKeepsRowids(rows, c, m, text); }
    hide Upsert, Ascending;
    if Count(up, c) > MAX_PER_CONVERSATION {
      DeleteKeepsAscending(up, c, Count(up, c) - MAX_PER_CONVERSATION);
    }
  }

  /** Rowids ascend in table order, which is what "oldest" is read off. */
  lemma {:induction false} RowidsAscend(calls: seq<PutCall>)
    ensures Ascending(TableAfter(calls))
  {
    if calls != [] {
      var n := |calls| - 1;
      var p := calls[n];
      RowidsAscend(calls[..n]);
      hide AfterPut;
      PutKeepsAscending(TableAfter(calls[..n]), p.conversation, p.message, p.text);
    }
  }

  lemma {:induction false} RetextedKeepsRowids(rows: seq<Row>, c: string, m: string, text: string)
    ensures |Retexted(rows, c, m, text)| == |rows|
    ensures forall i :: 0 <= i < |rows| ==> Retexted(rows, c, m, text)[i].rowid == rows[i].rowid
  {
    if rows != [] { RetextedKeepsRowids(rows[1..], c, m, text); }
  }

  lemma {:induction false} DeleteKeepsAscending(rows: seq<Row>, c: string, n: nat)
    requires Ascending(rows)
    ensures Ascending(DeleteOldest(rows, c, n))
    ensures forall row :: row in DeleteOldest(rows, c, n) ==> row in rows
  {
    if rows != [] && n > 0 {
      var rest := DeleteOldest(rows[1..], c, if rows[0].conversation == c then n - 1 else n);
      DeleteKeepsAscending(rows[1..], c, if rows[0].conversation == c then n - 1 else n);
      forall j | 0 <= j < |rest| ensures rows[0].rowid < rest[j].rowid && rest[j] in rows {
        assert rest[j] in rows[1..];
      }
    }
  }
}
