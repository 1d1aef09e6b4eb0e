/** The persistent publish queue as a step machine over values.

  Each function of the first half is one body that the program runs under its mutex; `State`,
  `Step`, `Enabled` and `Apply` put those bodies together with the position of the one drain
  goroutine, so that enqueues (and crashes) may fall between any two of them.  What the relays,
  the database, the clock and the caller's context answer is carried by the step.
 */
module PublishModel {
  import opened Breakers
  import opened RelayNames

  const TTL_UNDELIVERED: int := 24 * 60 * 60 * SECOND
  const TTL_DELIVERED: int := 10 * 60 * SECOND
  const REJECT_THRESHOLD: nat := 3

  /** A signed event, as its JSON text. */
  type Event = string

  // ----- the table -----

  datatype Stored = Stored(evt: Event) | Corrupt

  datatype Row = Row(id: int, body: Stored, relays: string, createdAt: int)

  /** The publish_queue table: rows in id order and the AUTOINCREMENT counter. */
  datatype Table = Table(rows: seq<Row>, lastId: nat)

  function Without(rows: seq<Row>, ids: set<int>): seq<Row> {
    if rows == [] then []
    else
      var last := rows[|rows| - 1];
      Without(rows[..|rows| - 1], ids) + if last.id in ids then [] else [last]
  }

  function Insert(t: Table, evt: Event, relays: string, createdAt: int): Table {
    Table(t.rows + [Row(t.lastId + 1, Stored(evt), relays, createdAt)], t.lastId + 1)
  }

  function Delete(t: Table, ids: set<int>): Table {
    t.(rows := Without(t.rows, ids))
  }

  // ----- items and the queue -----

  /** One queued event.  `serial` (enqueue order) and `targets` (the relay set it was queued
      with) are history; the other fields are the program's. */
  datatype Item = Item(serial: nat, evt: Event, targets: set<Relay>, createdAt: int, dbID: int,
                       pending: set<Relay>, delivered: bool, rejects: map<Relay, nat>)

  datatype Queue = Queue(items: seq<Item>, breakers: map<Relay, Breaker>, table: Table)

  /** time.Time.Unix */
  function Unix(t: int): int {
    t / SECOND
  }

  function Enqueued(q: Queue, serial: nat, evt: Event, relays: seq<Relay>, created: int, insertOk: bool): Queue {
    if relays == [] then q
    else
      var t := if insertOk then Insert(q.table, evt, Join(relays), Unix(created)) else q.table;
      var id := if insertOk then t.lastId else 0;
      q.(items := q.items + [Item(serial, evt, Names(relays), created, id, Names(relays), false, map[])], table := t)
  }

  datatype Fate = Keep | DropDone | DropStraggler | DropExpired

  function FateOf(it: Item, now: int): Fate {
    var age := now - it.createdAt;
    if it.pending == {} then DropDone
    else if it.delivered && age > TTL_DELIVERED then DropStraggler
    else if !it.delivered && age > TTL_UNDELIVERED then DropExpired
    else Keep
  }

  /** Whether eviction keeps the item; `stuck` are the row ids whose delete fails. */
  predicate Stays(it: Item, now: int, stuck: set<int>) {
    match FateOf(it, now)
    case Keep => true
    case DropExpired => it.dbID != 0 && it.dbID in stuck
    case _ => false
  }

  predicate RowGoes(it: Item, now: int, stuck: set<int>) {
    && it.dbID != 0 && it.dbID !in stuck
    && FateOf(it, now) in {DropDone, DropExpired}
  }

  function Staying(items: seq<Item>, now: int, stuck: set<int>): seq<Item> {
    if items == [] then []
    else
      var last := items[|items| - 1];
      Staying(items[..|items| - 1], now, stuck) + if Stays(last, now, stuck) then [last] else []
  }

  function RowsGoing(items: seq<Item>, now: int, stuck: set<int>): set<int> {
    set it | it in items && RowGoes(it, now, stuck) :: it.dbID
  }

  function Evicted(q: Queue, now: int, stuck: set<int>): Queue {
    q.(items := Staying(q.items, now, stuck), table := Delete(q.table, RowsGoing(q.items, now, stuck)))
  }

  function Wanted(items: seq<Item>): set<Relay> {
    set it, r | it in items && r in it.pending :: r
  }

  function BreakerOf(q: Queue, r: Relay): Breaker {
    if r in q.breakers then q.breakers[r] else FRESH_BREAKER
  }

  /** The items (by serial) that still want relay r, in queue order. */
  function PendingOn(items: seq<Item>, r: Relay): seq<nat> {
    if items == [] then []
    else
      var last := items[|items| - 1];
      PendingOn(items[..|items| - 1], r) + if r in last.pending then [last.serial] else []
  }

  function Head<T>(s: seq<T>): seq<T> {
    if s == [] then [] else s[..1]
  }

  function WorkFor(q: Queue, now: int): map<Relay, seq<nat>> {
    map r | r in Wanted(q.items) && GrantOf(BreakerOf(q, r), now) != Deny ::
      if GrantOf(BreakerOf(q, r), now) == AllowAll then PendingOn(q.items, r) else Head(PendingOn(q.items, r))
  }

  function ProbesFor(q: Queue, now: int): set<Relay> {
    set r | r in Wanted(q.items) && GrantOf(BreakerOf(q, r), now) == AllowProbe
  }

  function Collected(q: Queue, now: int): Queue {
    q.(breakers := map r | r in q.breakers.Keys + Wanted(q.items) ::
                     if r in Wanted(q.items) then AfterAllow(BreakerOf(q, r), now) else q.breakers[r])
  }

  function IndexOf(items: seq<Item>, serial: nat): (i: int)
    ensures -1 <= i < |items|
    ensures 0 <= i ==> items[i].serial == serial
    ensures i < 0 ==> forall it :: it in items ==> it.serial != serial
  {
    if items == [] then -1
    else if items[|items| - 1].serial == serial then |items| - 1
    else IndexOf(items[..|items| - 1], serial)
  }

  function AcceptedItem(it: Item, r: Relay, stuck: set<int>): Item {
    var rest := it.(pending := it.pending - {r});
    if it.delivered then rest
    else rest.(delivered := true, dbID := if it.dbID in stuck then it.dbID else 0)
  }

  function AcceptedIn(q: Queue, i: nat, r: Relay, stuck: set<int>): Queue
    requires i < |q.items|
  {
    var it := q.items[i];
    var t := if !it.delivered && it.dbID != 0 && it.dbID !in stuck then Delete(q.table, {it.dbID}) else q.table;
    q.(items := q.items[i := AcceptedItem(it, r, stuck)], table := t)
  }

  function RejectCount(it: Item, r: Relay): nat {
    if r in it.rejects then it.rejects[r] else 0
  }

  function RejectedItem(it: Item, r: Relay): Item {
    var n := RejectCount(it, r) + 1;
    if n >= REJECT_THRESHOLD then it.(pending := it.pending - {r}, rejects := it.rejects - {r})
    else it.(rejects := it.rejects[r := n])
  }

  function RejectedIn(q: Queue, i: nat, r: Relay): Queue
    requires i < |q.items|
  {
    q.(items := q.items[i := RejectedItem(q.items[i], r)])
  }

  function ConnectFailed(q: Queue, r: Relay, now: int): Queue {
    q.(breakers := q.breakers[r := AfterFailure(BreakerOf(q, r), now)])
  }

  function BatchDone(q: Queue, r: Relay): Queue {
    q.(breakers := q.breakers[r := AfterSuccess(BreakerOf(q, r))])
  }

  function RolledBack(q: Queue, probes: set<Relay>): Queue {
    q.(breakers := map r | r in q.breakers :: if r in probes then AfterRollback(q.breakers[r]) else q.breakers[r])
  }

  predicate BreakerStays(q: Queue, r: Relay, now: int)
    requires r in q.breakers
  {
    r in Wanted(q.items) || !(q.breakers[r].state == Closed || now - q.breakers[r].nextProbe > MAX_COOLDOWN)
  }

  function Swept(q: Queue, now: int): Queue {
    q.(breakers := map r | r in q.breakers && BreakerStays(q, r, now) :: q.breakers[r])
  }

  /** nextWakeLocked looks breakers up through the creating accessor. */
  function Touched(q: Queue, touched: set<Relay>): Queue {
    q.(breakers := map r | r in q.breakers.Keys + touched :: BreakerOf(q, r))
  }

  function NonNegative(d: int): int {
    if d < 0 then 0 else d
  }

  /** `d` is the sleep that nextWakeLocked returns at `now`. */
  ghost predicate IsSleep(q: Queue, now: int, d: int) {
    if q.items == [] || Wanted(q.items) == {} then d == 0
    else if exists r :: r in Wanted(q.items) && BreakerOf(q, r).state != Open then d == BASE_COOLDOWN
    else
      && (forall r :: r in Wanted(q.items) ==> d <= NonNegative(BreakerOf(q, r).nextProbe - now))
      && (exists r :: r in Wanted(q.items) && d == NonNegative(BreakerOf(q, r).nextProbe - now))
  }

  // ----- loading after a restart -----

  /** ORDER BY created_at, id */
  predicate Before(a: Row, b: Row) {
    a.createdAt < b.createdAt || (a.createdAt == b.createdAt && a.id <= b.id)
  }

  function InsertSorted(row: Row, rows: seq<Row>): seq<Row> {
    if rows == [] || Before(row, rows[0]) then [row] + rows
    else [rows[0]] + InsertSorted(row, rows[1..])
  }

  function Sorted(rows: seq<Row>): seq<Row> {
    if rows == [] then [] else InsertSorted(rows[0], Sorted(rows[1..]))
  }

  predicate Loadable(row: Row) {
    row.body.Stored? && ParseRelays(row.relays) != {}
  }

  function LoadedItem(row: Row, serial: nat): Item
    requires row.body.Stored?
  {
    var relays := ParseRelays(row.relays);
    Item(serial, row.body.evt, relays, row.createdAt * SECOND, row.id, relays, false, map[])
  }

  function LoadedItems(rows: seq<Row>, serial: nat): seq<Item> {
    if rows == [] then []
    else
      var init := LoadedItems(rows[..|rows| - 1], serial);
      var last := rows[|rows| - 1];
      init + if Loadable(last) then [LoadedItem(last, serial + |init|)] else []
  }

  function UselessRows(rows: seq<Row>, stuck: set<int>): set<int> {
    set row | row in rows && !Loadable(row) && row.id !in stuck :: row.id
  }

  function Reloaded(t: Table, serial: nat, stuck: set<int>): Queue {
    Queue(LoadedItems(Sorted(t.rows), serial), map[], Delete(t, UselessRows(t.rows, stuck)))
  }

  // ----- the step machine -----

  /** One completed conn.Publish, in the order they happened in this process run. */
  datatype Attempt = Attempt(serial: nat, relay: Relay, accepted: bool)

  /** Where the drain goroutine is between two critical sections. */
  datatype Phase =
    | Idle
    | Loop(work: map<Relay, seq<nat>>, probes: set<Relay>)
    | Batch(work: map<Relay, seq<nat>>, probes: set<Relay>, relay: Relay, rest: seq<nat>)
    | Leaving(probes: set<Relay>)
    | Ending

  datatype State = State(q: Queue, clock: int, phase: Phase, log: seq<Attempt>, nextSerial: nat)

  datatype Step =
    | Enqueue(evt: Event, relays: seq<Relay>, created: int, now: int, insertOk: bool)
    | Begin(now: int, stuck: set<int>)
    | Connect(relay: Relay, ok: bool, now: int)
    | Publish(ok: bool, stuck: set<int>)
    | Finish
    | Bail
    | Leave(cancelled: bool)
    | Rollback
    | End(now: int, sweepAt: int, wakeAt: int, stuck: set<int>, touched: set<Relay>)
    | Restart(now: int, stuck: set<int>)

  predicate Enabled(s: State, step: Step) {
    match step
    case Enqueue(_, _, created, now, _) => s.clock <= now && created <= now
    case Begin(now, _) => s.phase.Idle? && s.clock <= now
    case Connect(r, _, now) => s.phase.Loop? && r in s.phase.work && s.clock <= now
    case Publish(_, _) => s.phase.Batch? && s.phase.rest != []
    case Finish => s.phase.Batch? && s.phase.rest == []
    case Bail => s.phase.Batch? && s.phase.rest != []
    case Leave(cancelled) => s.phase.Loop? && (cancelled || s.phase.work.Keys == {})
    case Rollback => s.phase.Leaving?
    case End(now, sweepAt, wakeAt, stuck, touched) =>
      && s.phase.Ending? && s.clock <= now <= sweepAt <= wakeAt
      && touched <= Wanted(Evicted(s.q, now, stuck).items)
    case Restart(now, _) => s.clock <= now
  }

  function PublishedTo(s: State, ok: bool, stuck: set<int>): Queue
    requires s.phase.Batch? && s.phase.rest != []
  {
    var i := IndexOf(s.q.items, s.phase.rest[0]);
    if i < 0 then s.q
    else if ok then AcceptedIn(s.q, i, s.phase.relay, stuck)
    else RejectedIn(s.q, i, s.phase.relay)
  }

  function PassEnded(q: Queue, now: int, sweepAt: int, stuck: set<int>, touched: set<Relay>): Queue {
    Touched(Swept(Evicted(q, now, stuck), sweepAt), touched)
  }

  function Apply(s: State, step: Step): State
    requires Enabled(s, step)
  {
    match step
    case Enqueue(evt, relays, created, now, insertOk) =>
      s.(q := Enqueued(s.q, s.nextSerial, evt, relays, created, insertOk), clock := now, nextSerial := s.nextSerial + 1)
    case Begin(now, stuck) =>
      var q := Evicted(s.q, now, stuck);
      s.(q := Collected(q, now), clock := now, phase := Loop(WorkFor(q, now), ProbesFor(q, now)))
    case Connect(r, ok, now) =>
      var work := s.phase.work - {r};
      if ok then s.(clock := now, phase := Batch(work, s.phase.probes, r, s.phase.work[r]))
      else s.(q := ConnectFailed(s.q, r, now), clock := now, phase := Loop(work, s.phase.probes - {r}))
    case Publish(ok, stuck) =>
      s.(q := PublishedTo(s, ok, stuck), phase := s.phase.(rest := s.phase.rest[1..]),
         log := s.log + [Attempt(s.phase.rest[0], s.phase.relay, ok)])
    case Finish =>
      s.(q := BatchDone(s.q, s.phase.relay), phase := Loop(s.phase.work, s.phase.probes - {s.phase.relay}))
    case Bail => s.(phase := Leaving(s.phase.probes))
    case Leave(_) => s.(phase := Leaving(s.phase.probes))
    case Rollback => s.(q := RolledBack(s.q, s.phase.probes), phase := Ending)
    case End(now, sweepAt, wakeAt, stuck, touched) =>
      s.(q := PassEnded(s.q, now, sweepAt, stuck, touched), clock := wakeAt, phase := Idle)
    case Restart(now, stuck) =>
      var q := Reloaded(s.q.table, s.nextSerial, stuck);
      State(q, now, Idle, [], s.nextSerial + |q.items|)
  }

  ghost predicate Legal(s: State, steps: seq<Step>)
    decreases |steps|
  {
    steps == [] || (Enabled(s, steps[0]) && Legal(Apply(s, steps[0]), steps[1..]))
  }

  ghost function Exec(s: State, steps: seq<Step>): State
    requires Legal(s, steps)
    decreases |steps|
  {
    if steps == [] then s else Exec(Apply(s, steps[0]), steps[1..])
  }

  lemma {:induction false} ExecAppend(s: State, a: seq<Step>, b: seq<Step>)
    requires Legal(s, a) && Legal(Exec(s, a), b)
    ensures Legal(s, a + b) && Exec(s, a + b) == Exec(Exec(s, a), b)
    decreases |a|
  {
    hide Apply, Enabled;
    if a == [] {
      assert a + b == b;
    } else {
      ExecAppend(Apply(s, a[0]), a[1..], b);
      assert (a + b)[1..] == a[1..] + b;
    }
  }
}
