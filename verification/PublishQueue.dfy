/** The publish queue in the program's own form: item and breaker records that are updated in
    place, shared between the queue and the work lists of a pass.  Every method is proved
    against the functions of `PublishModel`; the drain pass is proved to be a run of its steps. */
module PublishQueues {
  import opened Breakers
  import opened RelayNames
  import opened PublishModel
  import opened PublishSafety
  import opened PublishProgress
  import opened PublishEnvironment

  // ----- the records -----

  /** publishItem; `serial` and `targets` are history and exist for the proofs only. */
  class PublishItem {
    ghost const serial: nat
    ghost const targets: set<Relay>
    const evt: Event
    const createdAt: int
    var dbID: int
    var pending: set<Relay>
    var delivered: bool
    var rejects: map<Relay, nat>

    ghost function View(): Item
      reads this
    {
      Item(serial, evt, targets, createdAt, dbID, pending, delivered, rejects)
    }

    constructor (ghost serial: nat, evt: Event, pending: set<Relay>, createdAt: int, dbID: int)
      ensures View() == Item(serial, evt, pending, createdAt, dbID, pending, false, map[])
    {
      this.serial, this.targets := serial, pending;
      this.evt, this.createdAt, this.dbID := evt, createdAt, dbID;
      this.pending, this.delivered, this.rejects := pending, false, map[];
    }

    /** recordReject */
    method RecordReject(relay: Relay)
      modifies this
      ensures View() == RejectedItem(old(View()), relay)
    {
      var n := (if relay in rejects then rejects[relay] else 0) + 1;
      rejects := rejects[relay := n];
      if n >= REJECT_THRESHOLD {
        pending := pending - {relay};
        rejects := rejects - {relay};
        assert rejects == old(rejects) - {relay};
      }
    }
  }

  ghost function Views(items: seq<PublishItem>): (vs: seq<Item>)
    reads items
    ensures |vs| == |items|
    ensures forall i :: 0 <= i < |items| ==> vs[i] == items[i].View()
  {
    seq(|items|, i requires 0 <= i < |items| reads items => items[i].View())
  }

  ghost function BreakerViews(bs: map<Relay, RelayBreaker>): map<Relay, Breaker>
    reads bs.Values
  {
    map r | r in bs :: bs[r].View()
  }

  ghost function Serials(items: seq<PublishItem>): seq<nat> {
    seq(|items|, i requires 0 <= i < |items| => items[i].serial)
  }

  class PublishQueue {
    var items: seq<PublishItem>
    var breakers: map<Relay, RelayBreaker>
    var table: Table
    var tick: nat                // how many moments have passed
    ghost var clock: int
    ghost var log: seq<Attempt>
    ghost var nextSerial: nat

    ghost function Repr(): set<object>
      reads this`items, this`breakers
    {
      {this as object} + (set it | it in items :: it as object) + (set b | b in breakers.Values :: b as object)
    }

    ghost predicate Valid()
      reads this
    {
      && (forall i, j :: 0 <= i < j < |items| ==> items[i].serial < items[j].serial)
      && (forall r, r' :: r in breakers && r' in breakers && r != r' ==> breakers[r] != breakers[r'])
    }

    ghost function View(): Queue
      reads this`items, this`breakers, this`table, items, breakers.Values
    {
      Queue(Views(items), BreakerViews(breakers), table)
    }

    /** The state of the step machine, for a drain goroutine that is in `phase`. */
    ghost function St(phase: Phase): State
      reads this`items, this`breakers, this`table, this`clock, this`log, this`nextSerial, items, breakers.Values
    {
      State(View(), clock, phase, log, nextSerial)
    }

    ghost predicate Ready(env: nat -> Moment)
      reads this
    {
      && Valid() && WellTimed(env) && clock <= env(tick).now
      && (forall it :: it in items ==> it.serial < nextSerial)
    }

    /** newPublishQueue: a process starts with what the table holds. */
    constructor (t: Table, now: int, stuck: set<int>, ghost serial: nat)
      requires RowsOk(t)
      ensures Valid() && fresh(Repr()) && tick == 0 && clock == now
      ensures forall it :: it in items ==> it.serial < nextSerial
      ensures St(Idle) == Restarted(t, now, stuck, serial)
      ensures Inv(St(Idle))
    {
      hide Reloaded, Inv;
      items, breakers, table, tick := [], map[], t, 0;
      clock, log, nextSerial := now, [], serial;
      new;
      Load(stuck, serial);
      nextSerial := serial + |items|;
      RestartedIsGood(t, now, stuck, serial);
    }

    /** load */
    method Load(stuck: set<int>, ghost serial: nat)
      requires items == [] && breakers == map[] && RowsOk(table)
      modifies this`items, this`table
      ensures View() == Reloaded(old(table), serial, stuck)
      ensures forall k :: 0 <= k < |items| ==> fresh(items[k]) && items[k].serial == serial + k
    {
      hide Sorted, Loadable, RowsOk, LoadedItems, UselessRows, Without;
      var rows := Sorted(table.rows);
      ghost var t := table;
      NothingLoaded(t.rows, serial, stuck);
      for i := 0 to |rows|
        invariant breakers == map[]
        invariant Views(items) == LoadedItems(rows[..i], serial)
        invariant table == Delete(t, UselessRows(rows[..i], stuck))
        invariant forall k :: 0 <= k < |items| ==> fresh(items[k]) && items[k].serial == serial + k
      {
        LoadNext(rows, i, t.rows, serial, stuck);
        LoadRow(rows[i], stuck, serial + |items|);
      }
      assert rows[..|rows|] == rows;
      SameUselessRows(t, stuck);
    }

    /** The body of the loop of load. */
    method LoadRow(row: Row, stuck: set<int>, ghost serial: nat)
      modifies this`items, this`table
      ensures table == if !Loadable(row) && row.id !in stuck then Delete(old(table), {row.id}) else old(table)
      ensures Loadable(row) ==>
                && |items| == |old(items)| + 1 && items[..|old(items)|] == old(items)
                && fresh(items[|old(items)|]) && items[|old(items)|].serial == serial
                && Views(items) == old(Views(items)) + [LoadedItem(row, serial)]
      ensures !Loadable(row) ==> items == old(items)
    {
      var pending := ParseStored(row.relays);
      if row.body == Corrupt || pending == {} {
        var _ := DeleteItem(row.id, stuck);
      } else {
        var item := new PublishItem(serial, row.body.evt, pending, row.createdAt * SECOND, row.id);
        items := items + [item];
      }
    }

    /** The loops of load over one row's relay names. */
    static method ParseStored(stored: string) returns (pending: set<Relay>)
      ensures pending == ParseRelays(stored)
    {
      var lines := Split(stored);
      pending := {};
      for i := 0 to |lines|
        invariant pending == set line | line in lines[..i] && TrimSpace(line) != "" :: TrimSpace(line)
      {
        var r := TrimSpace(lines[i]);
        assert lines[..i + 1] == lines[..i] + [lines[i]];
        if r != "" {
          pending := pending + {r};
        }
      }
      assert lines[..|lines|] == lines;
    }

    /** enqueue, run under the mutex; insertOk says whether the database takes the row. */
    method Enqueue(evt: Event, relays: seq<Relay>, createdAt: int, insertOk: bool, ghost serial: nat)
      requires Valid() && forall it :: it in items ==> it.serial < serial
      modifies this`items, this`table
      ensures Valid() && fresh(Repr() - old(Repr()))
      ensures View() == Enqueued(old(View()), serial, evt, relays, createdAt, insertOk)
      ensures items[..|old(items)|] == old(items) && breakers == old(breakers)
      ensures forall it :: it in items ==> it in old(items) || it.serial == serial
    {
      hide BreakerViews, Views;
      if |relays| == 0 {
        return;
      }
      var pending := TargetSet(relays);
      var item := new PublishItem(serial, evt, pending, createdAt, 0);
      items := items + [item];
      InsertItem(item, relays, insertOk);
      OneItemAdded(item);
    }

    /** The loop of enqueue that makes a set of the relay list. */
    static method TargetSet(relays: seq<Relay>) returns (pending: set<Relay>)
      ensures pending == Names(relays)
    {
      pending := {};
      for i := 0 to |relays|
        invariant pending == Names(relays[..i])
      {
        pending := pending + {relays[i]};
        assert relays[..i + 1] == relays[..i] + [relays[i]];
      }
      assert relays[..|relays|] == relays;
    }

    /** insertItemLocked */
    method InsertItem(item: PublishItem, relays: seq<Relay>, insertOk: bool)
      modifies this`table, item`dbID
      ensures table == if insertOk then Insert(old(table), item.evt, Join(relays), Unix(item.createdAt)) else old(table)
      ensures item.dbID == if insertOk then table.lastId else old(item.dbID)
    {
      if insertOk {
        table := Insert(table, item.evt, Join(relays), Unix(item.createdAt));
        item.dbID := table.lastId;
      }
    }

    /** deleteItemLocked: fails, and changes nothing, for the ids in `stuck`. */
    method DeleteItem(id: int, stuck: set<int>) returns (ok: bool)
      modifies this`table
      ensures ok <==> id !in stuck
      ensures table == if ok then Delete(old(table), {id}) else old(table)
    {
      ok := id !in stuck;
      if ok {
        table := Delete(table, {id});
      }
    }

    /** evictLocked */
    method Evict(now: int, stuck: set<int>)
      requires Valid()
      modifies this`items, this`table
      ensures Valid() && breakers == old(breakers)
      ensures View() == Evicted(old(View()), now, stuck)
      ensures forall it :: it in items ==> it in old(items)
    {
      hide Staying, RowsGoing, BreakerViews;
      items := DeleteExpired(now, stuck);
    }

    /** The loop of slices.DeleteFunc in evictLocked. */
    method DeleteExpired(now: int, stuck: set<int>) returns (kept: seq<PublishItem>)
      requires Valid()
      modifies this`table
      ensures Views(kept) == Staying(Views(items), now, stuck)
      ensures table == Delete(old(table), RowsGoing(Views(items), now, stuck))
      ensures forall k :: 0 <= k < |kept| ==> kept[k] in items
      ensures forall j, k :: 0 <= j < k < |kept| ==> kept[j].serial < kept[k].serial
    {
      hide Staying, Stays, RowsGoing, RowGoes, Without;
      ghost var was := Views(items);
      WithoutNothing(table.rows);
      kept := [];
      NothingEvicted(now, stuck);
      for i := 0 to |items|
        invariant Views(kept) == Staying(was[..i], now, stuck)
        invariant table == Delete(old(table), RowsGoing(was[..i], now, stuck))
        invariant forall k :: 0 <= k < |kept| ==> kept[k] in items && (i < |items| ==> kept[k].serial < items[i].serial)
        invariant forall j, k :: 0 <= j < k < |kept| ==> kept[j].serial < kept[k].serial
      {
        var drop := EvictOne(items[i], now, stuck);
        EvictNext(was, i, old(table.rows), now, stuck);
        if !drop {
          ghost var before := kept;
          kept := kept + [items[i]];
          assert Views(kept) == Views(before) + [items[i].View()];
        }
      }
      assert was[..|items|] == was;
    }

    /** The predicate that evictLocked hands to slices.DeleteFunc. */
    method EvictOne(item: PublishItem, now: int, stuck: set<int>) returns (drop: bool)
      modifies this`table
      ensures drop <==> !Stays(item.View(), now, stuck)
      ensures table == if RowGoes(item.View(), now, stuck) then Delete(old(table), {item.dbID}) else old(table)
    {
      var age := now - item.createdAt;
      if item.pending == {} {
        if item.dbID != 0 {
          var _ := DeleteItem(item.dbID, stuck);
        }
        return true;
      } else if item.delivered && age > TTL_DELIVERED {
        return true;
      } else if !item.delivered && age > TTL_UNDELIVERED {
        if item.dbID != 0 {
          var ok := DeleteItem(item.dbID, stuck);
          if !ok {
            return false;
          }
        }
        return true;
      }
      return false;
    }

    /** breakerLocked */
    method GetBreaker(r: Relay) returns (b: RelayBreaker)
      requires Valid()
      modifies this`breakers
      ensures Valid() && items == old(items) && table == old(table)
      ensures r in breakers && b == breakers[r]
      ensures r in old(breakers) ==> breakers == old(breakers)
      ensures r !in old(breakers) ==> fresh(b) && breakers == old(breakers)[r := b] && b.View() == FRESH_BREAKER
      ensures BreakerViews(breakers) == old(BreakerViews(breakers))[r := b.View()]
      ensures b.View() == BreakerIn(old(BreakerViews(breakers)), r)
      ensures (b in old(breakers.Values) || fresh(b)) && fresh(breakers.Values - old(breakers.Values))
      ensures forall x :: x in breakers && x != r ==> breakers[x] != b
    {
      if r in breakers {
        b := breakers[r];
        assert BreakerViews(breakers) == BreakerViews(breakers)[r := b.View()];
      } else {
        b := new RelayBreaker();
        breakers := breakers[r := b];
      }
    }

    lemma ViewsWith(views: map<Relay, Breaker>, r: Relay)
      requires r in breakers && views.Keys == breakers.Keys
      requires forall x :: x in breakers && x != r ==> breakers[x].View() == views[x]
      ensures BreakerViews(breakers) == views[r := breakers[r].View()]
    {
    }

    /** q.breakerLocked(relay).allow(now) */
    method Ask(r: Relay, now: int) returns (grant: Grant)
      requires Valid()
      modifies this`breakers, breakers.Values
      ensures Valid() && fresh(breakers.Values - old(breakers.Values))
      ensures BreakerViews(breakers) == Asked(old(BreakerViews(breakers)), r, now)
      ensures grant == GrantOf(BreakerIn(old(BreakerViews(breakers)), r), now)
    {
      hide GrantOf, AfterAllow, Valid;
      var b := GetBreaker(r);
      ghost var views := BreakerViews(breakers);
      grant := b.Allow(now);
      ViewsWith(views, r);
    }

    /** The inner loop of collectWorkLocked. */
    method OfferToAll(item: PublishItem, now: int, work: map<Relay, seq<PublishItem>>, probes: set<Relay>,
                      ghost was: Queue, ghost before: seq<Item>)
      returns (work': map<Relay, seq<PublishItem>>, probes': set<Relay>)
      requires Valid()
      requires OfferedAll(was, now, BreakerViews(breakers), work, probes, before, {}, 0)
      modifies this`breakers, breakers.Values
      ensures Valid() && fresh(breakers.Values - old(breakers.Values))
      ensures OfferedAll(was, now, BreakerViews(breakers), work', probes', before + [item.View()], {}, 0)
      ensures forall r, it :: r in work' && it in work'[r] ==> it == item || (r in work && it in work[r])
    {
      hide OfferedAll;
      work', probes' := work, probes;
      var rest := item.pending;
      assert item.pending - rest == {};
      OfferNext(was, now, BreakerViews(breakers), work, probes, before, {}, 0, item.serial);
      while rest != {}
        invariant rest <= item.pending
        invariant Valid() && fresh(breakers.Values - old(breakers.Values))
        invariant OfferedAll(was, now, BreakerViews(breakers), work', probes', before, item.pending - rest, item.serial)
        invariant forall r, it :: r in work' && it in work'[r] ==> it == item || (r in work && it in work[r])
      {
        var r :| r in rest;
        ghost var bs := BreakerViews(breakers);
        var grant := Ask(r, now);
        OfferOne(was, now, bs, work', probes', before, item.pending - rest, item, r);
        assert r in probes' ==> probes' + {r} == probes';
        match grant {
          case AllowAll =>
            work' := work'[r := Listed(work', r) + [item]];
          case AllowProbe =>
            if r !in probes' {
              work' := work'[r := Listed(work', r) + [item]];
              probes' := probes' + {r};
            }
          case Deny =>
        }
        assert item.pending - rest + {r} == item.pending - (rest - {r});
        rest := rest - {r};
      }
      assert item.pending - rest == item.pending;
      ItemOffered(was, now, BreakerViews(breakers), work', probes', before, item.View());
    }

    /** collectWorkLocked */
    method CollectWork(now: int) returns (work: map<Relay, seq<PublishItem>>, probes: set<Relay>)
      requires Valid()
      modifies this`breakers, breakers.Values
      ensures Valid() && fresh(breakers.Values - old(breakers.Values))
      ensures View() == Collected(old(View()), now)
      ensures forall r :: r in work <==> r in WorkFor(old(View()), now)
      ensures forall r :: r in work ==> Serials(work[r]) == WorkFor(old(View()), now)[r]
      ensures forall r, it :: r in work && it in work[r] ==> it in items
      ensures probes == ProbesFor(old(View()), now)
    {
      hide OfferedAll, Collected, WorkFor, ProbesFor, BreakerViews, Serials, Wanted;
      ghost var was := View();
      work, probes := OfferEach(now);
      AllOffered(was, now, BreakerViews(breakers), work, probes);
    }

    /** The outer loop of collectWorkLocked. */
    method OfferEach(now: int) returns (work: map<Relay, seq<PublishItem>>, probes: set<Relay>)
      requires Valid()
      modifies this`breakers, breakers.Values
      ensures Valid() && fresh(breakers.Values - old(breakers.Values))
      ensures OfferedAll(old(View()), now, BreakerViews(breakers), work, probes, Views(items), {}, 0)
      ensures forall r, it :: r in work && it in work[r] ==> it in items
    {
      hide OfferedAll, BreakerViews, PendingOn;
      ghost var was := View();
      work, probes := map[], {};
      NothingOffered(was, now);
      assert was.items[..0] == [];
      for i := 0 to |items|
        invariant Valid() && fresh(breakers.Values - old(breakers.Values))
        invariant Views(items) == was.items
        invariant OfferedAll(was, now, BreakerViews(breakers), work, probes, was.items[..i], {}, 0)
        invariant forall r, it :: r in work && it in work[r] ==> it in items
      {
        work, probes := OfferToAll(items[i], now, work, probes, was, was.items[..i]);
        assert was.items[..i + 1] == was.items[..i] + [items[i].View()];
      }
      assert was.items[..|items|] == was.items;
    }

    /** The relays that some item still wants (both gcBreakersLocked and nextWakeLocked). */
    method WantedRelays() returns (wanted: set<Relay>)
      ensures wanted == Wanted(Views(items))
    {
      wanted := {};
      for i := 0 to |items|
        invariant wanted == Wanted(Views(items)[..i])
      {
        wanted := wanted + items[i].pending;
        WantedAppend(Views(items)[..i], items[i].View());
        assert Views(items)[..i + 1] == Views(items)[..i] + [items[i].View()];
      }
      assert Views(items)[..|items|] == Views(items);
    }

    /** gcBreakersLocked */
    method GcBreakers(now: int)
      requires Valid()
      modifies this`breakers
      ensures Valid() && breakers.Values <= old(breakers.Values)
      ensures View() == Swept(old(View()), now)
    {
      hide Wanted, Views, Swept;
      ghost var bs := BreakerViews(breakers);
      var wanted := WantedRelays();
      var kept: map<Relay, RelayBreaker> := map[];
      var rest := breakers.Keys;
      while rest != {}
        invariant rest <= breakers.Keys
        invariant forall r :: r in kept <==> r in breakers && r !in rest && BreakerKept(bs[r], r, wanted, now)
        invariant forall r :: r in kept ==> kept[r] == breakers[r]
      {
        var r :| r in rest;
        var b := breakers[r];
        if r in wanted || !(b.state == Closed || now - b.nextProbe > MAX_COOLDOWN) {
          kept := kept[r := b];
        }
        rest := rest - {r};
      }
      SweptIs(old(View()), BreakerViews(kept), now);
      breakers := kept;
    }

    /** breakerLocked, as it is used to look only. */
    method Look(r: Relay) returns (b: RelayBreaker)
      requires Valid()
      modifies this`breakers
      ensures Valid() && fresh(breakers.Values - old(breakers.Values))
      ensures b.View() == BreakerOf(old(View()), r)
      ensures r in old(breakers) ==> breakers == old(breakers)
      ensures r !in old(breakers) ==> b.state == Closed
      ensures View() == Touched(old(View()), if r in old(breakers) then {} else {r})
    {
      NoneTouched(View());
      b := GetBreaker(r);
    }

    /** nextWakeLocked */
    method NextWake(now: int) returns (sleep: int, ghost touched: set<Relay>)
      requires Valid()
      modifies this`breakers
      ensures Valid() && fresh(breakers.Values - old(breakers.Values))
      ensures touched <= Wanted(View().items)
      ensures View() == Touched(old(View()), touched)
      ensures IsSleep(View(), now, sleep)
    {
      hide IsSleep, Wanted, EarliestOf, BreakerViews;
      ghost var q := View();
      NoneTouched(q);
      touched := {};
      if |items| == 0 {
        NoItemsSleep(q, now);
        return 0, {};
      }
      var wanted := WantedRelays();
      var earliest := NotYet;
      var rest := wanted;
      assert wanted - rest == {};
      NoEarliest(q);
      while rest != {}
        invariant rest <= wanted && breakers == old(breakers) && touched == {}
        invariant EarliestOf(q, wanted - rest, earliest)
      {
        var r :| r in rest;
        if r !in breakers {
          touched := {r};
        }
        var b := Look(r);
        if b.state != Open {
          NotAllOpenSleep(q, touched, r, now);
          return BASE_COOLDOWN, touched;
        }
        EarlierOf(q, wanted - rest, earliest, r);
        assert wanted - rest + {r} == wanted - (rest - {r});
        if earliest == NotYet || b.nextProbe < earliest.time {
          earliest := At(b.nextProbe);
        }
        rest := rest - {r};
      }
      assert wanted - {} == wanted;
      AllOpenSleep(q, earliest, now);
      if earliest == NotYet {
        return 0, {};
      }
      return NonNegative(earliest.time - now), {};
    }

    /** Items are not shared between places in the queue. */
    twostate lemma OneItemChanged(i: nat)
      requires Valid() && old(items) == items && i < |items|
      requires forall it :: it in items && it != items[i] ==> unchanged(it)
      ensures Views(items) == old(Views(items))[i := items[i].View()]
    {
      forall j | 0 <= j < |items| && j != i ensures items[j].View() == old(items[j].View()) {
        assert items[j] in items;
      }
    }

    twostate lemma OneItemAdded(new item: PublishItem)
      requires items == old(items) + [item]
      requires forall it :: it in old(items) ==> unchanged(it)
      ensures Views(items) == old(Views(items)) + [item.View()]
    {
      forall j | 0 <= j < |old(items)| ensures items[j].View() == old(items[j].View()) {
        assert items[j] in old(items);
      }
    }

    /** The part of publishBatch that books an accepted publish. */
    method MarkAccepted(item: PublishItem, relay: Relay, stuck: set<int>, ghost i: nat)
      requires Valid() && i < |items| && items[i] == item
      modifies this`table, item
      ensures View() == AcceptedIn(old(View()), i, relay, stuck)
    {
      hide BreakerViews, Delete, Views;
      item.pending := item.pending - {relay};
      if !item.delivered {
        item.delivered := true;
        if item.dbID != 0 {
          var ok := DeleteItem(item.dbID, stuck);
          if ok {
            item.dbID := 0;
          }
        }
      }
      OneItemChanged(i);
    }

    /** The part of drainOnce that takes back unresolved probes. */
    method RollBackProbes(probes: set<Relay>)
      requires Valid()
      modifies breakers.Values
      ensures View() == RolledBack(old(View()), probes)
    {
      var rest := probes;
      while rest != {}
        invariant rest <= probes
        invariant BreakerViews(breakers) == RolledBackMap(old(BreakerViews(breakers)), probes - rest)
      {
        var r :| r in rest;
        RollBackOne(r);
        RolledBackMore(old(BreakerViews(breakers)), probes - rest, r);
        assert probes - rest + {r} == probes - (rest - {r});
        rest := rest - {r};
      }
      assert probes - {} == probes;
    }

    method RollBackOne(r: Relay)
      requires Valid()
      modifies breakers.Values
      ensures BreakerViews(breakers) == RolledBackMap(old(BreakerViews(breakers)), {r})
    {
      ghost var views := BreakerViews(breakers);
      if r in breakers {
        assert forall x :: x in breakers && x != r ==> breakers[x] != breakers[r];
        if breakers[r].state == HalfOpen {
          breakers[r].state := Open;
        }
        ViewsWith(views, r);
      }
    }

    // ----- the critical sections, as steps -----

    /** enqueue by another goroutine, at `now` */
    method Arrive(a: Arrival, now: int, ghost phase: Phase) returns (ghost step: Step)
      requires Valid() && clock <= now && a.created <= now
      requires forall it :: it in items ==> it.serial < nextSerial
      modifies this
      ensures Valid() && clock == now && tick == old(tick) && breakers == old(breakers)
      ensures fresh(Repr() - old(Repr()))
      ensures forall it :: it in items ==> it.serial < nextSerial
      ensures forall it :: it in old(items) ==> it in items
      ensures forall it :: it in items ==> it in old(items) || fresh(it)
      ensures step == EnqueueOf(a, now)
      ensures IsStep(old(St(phase)), step, St(phase))
    {
      hide View, Enqueued, Views, BreakerViews, IsStep;
      step := EnqueueOf(a, now);
      ArriveIsStep(St(phase), a, now);
      Enqueue(a.evt, a.relays, a.created, a.insertOk, nextSerial);
      clock, nextSerial := now, nextSerial + 1;
    }

    /** The first critical section of drainOnce. */
    method BeginPass(now: int, stuck: set<int>)
      returns (work: map<Relay, seq<PublishItem>>, probes: set<Relay>, ghost phase: Phase, ghost step: Step)
      requires Valid() && clock <= now
      modifies this, breakers.Values
      ensures Valid() && clock == now && tick == old(tick) && nextSerial == old(nextSerial)
      ensures fresh(Repr() - old(Repr()))
      ensures forall it :: it in items ==> it in old(items)
      ensures phase.Loop? && phase.probes == probes && SameWork(phase.work, work, items)
      ensures step == Step.Begin(now, stuck)
      ensures IsStep(old(St(Idle)), step, St(phase))
    {
      hide View, WorkFor, ProbesFor, Evicted, Collected;
      step := Step.Begin(now, stuck);
      ghost var q;
      work, probes, q := EvictAndCollect(now, stuck);
      phase := Loop(WorkFor(q, now), probes);
      clock := now;
    }

    method EvictAndCollect(now: int, stuck: set<int>)
      returns (work: map<Relay, seq<PublishItem>>, probes: set<Relay>, ghost q: Queue)
      requires Valid()
      modifies this`items, this`table, this`breakers, breakers.Values
      ensures Valid() && fresh(Repr() - old(Repr()))
      ensures forall it :: it in items ==> it in old(items)
      ensures q == Evicted(old(View()), now, stuck) && View() == Collected(q, now)
      ensures SameWork(WorkFor(q, now), work, items) && probes == ProbesFor(q, now)
    {
      hide Evicted, Collected, WorkFor, ProbesFor, BreakerViews, Views;
      Evict(now, stuck);
      q := View();
      work, probes := CollectWork(now);
    }

    method ConnectFails(relay: Relay, now: int, ghost phase: Phase) returns (ghost step: Step)
      requires Valid() && clock <= now && phase.Loop? && relay in phase.work
      modifies this, breakers.Values
      ensures Valid() && clock == now && tick == old(tick) && nextSerial == old(nextSerial)
      ensures fresh(Repr() - old(Repr())) && items == old(items)
      ensures step == Step.Connect(relay, false, now)
      ensures IsStep(old(St(phase)), step, St(Loop(phase.work - {relay}, phase.probes - {relay})))
    {
      hide View, ConnectFailed;
      step := Step.Connect(relay, false, now);
      CountFailure(relay, now);
      clock := now;
    }

    /** q.breakerLocked(relay).onFailure(now) */
    method CountFailure(relay: Relay, now: int)
      requires Valid()
      modifies this`breakers, breakers.Values
      ensures Valid() && fresh(breakers.Values - old(breakers.Values))
      ensures View() == ConnectFailed(old(View()), relay, now)
    {
      hide BreakerViews, Views;
      RecordFailure(relay, now);
    }

    method RecordFailure(relay: Relay, now: int)
      requires Valid()
      modifies this`breakers, breakers.Values
      ensures Valid() && fresh(breakers.Values - old(breakers.Values))
      ensures BreakerViews(breakers) ==
        old(BreakerViews(breakers))[relay := AfterFailure(BreakerIn(old(BreakerViews(breakers)), relay), now)]
    {
      hide Valid;
      var b := GetBreaker(relay);
      ghost var views := BreakerViews(breakers);
      b.OnFailure(now);
      ViewsWith(views, relay);
    }

    method Connected(relay: Relay, now: int, ghost phase: Phase) returns (ghost step: Step)
      requires Valid() && clock <= now && phase.Loop? && relay in phase.work
      modifies this`clock
      ensures clock == now
      ensures step == Step.Connect(relay, true, now)
      ensures IsStep(old(St(phase)), step, St(Batch(phase.work - {relay}, phase.probes, relay, phase.work[relay])))
    {
      step := Step.Connect(relay, true, now);
      clock := now;
    }

    /** Books the outcome of one publish. */
    method Book(item: PublishItem, relay: Relay, ok: bool, stuck: set<int>, ghost phase: Phase)
      returns (ghost step: Step)
      requires Valid() && item in items
      requires phase.Batch? && phase.relay == relay && phase.rest != [] && phase.rest[0] == item.serial
      modifies this`table, this`log, item
      ensures step == Step.Publish(ok, stuck)
      ensures IsStep(old(St(phase)), step, St(phase.(rest := phase.rest[1..])))
    {
      hide View, AcceptedIn, RejectedIn;
      step := Step.Publish(ok, stuck);
      MarkOutcome(item, relay, ok, stuck);
      log := log + [Attempt(item.serial, relay, ok)];
    }

    method MarkOutcome(item: PublishItem, relay: Relay, ok: bool, stuck: set<int>)
      requires Valid() && item in items
      modifies this`table, item
      ensures IndexOf(old(View()).items, item.serial) >= 0
      ensures var i := IndexOf(old(View()).items, item.serial);
              View() == if ok then AcceptedIn(old(View()), i, relay, stuck) else RejectedIn(old(View()), i, relay)
    {
      ghost var i: nat :| i < |items| && items[i] == item;
      IndexOfItem(items, i);
      if ok {
        MarkAccepted(item, relay, stuck, i);
      } else {
        MarkRejected(item, relay, i);
      }
    }

    method MarkRejected(item: PublishItem, relay: Relay, ghost i: nat)
      requires Valid() && i < |items| && items[i] == item
      modifies item
      ensures View() == RejectedIn(old(View()), i, relay)
    {
      hide Views;
      item.RecordReject(relay);
      OneItemChanged(i);
    }

    method FinishBatch(relay: Relay, ghost phase: Phase) returns (ghost step: Step)
      requires Valid() && phase.Batch? && phase.relay == relay && phase.rest == []
      modifies this`breakers, breakers.Values
      ensures Valid() && fresh(Repr() - old(Repr()))
      ensures step == Step.Finish
      ensures IsStep(old(St(phase)), step, St(Loop(phase.work, phase.probes - {relay})))
    {
      hide View, BatchDone;
      step := Step.Finish;
      CountSuccess(relay);
    }

    /** q.breakerLocked(relay).onSuccess() */
    method CountSuccess(relay: Relay)
      requires Valid()
      modifies this`breakers, breakers.Values
      ensures Valid() && fresh(breakers.Values - old(breakers.Values))
      ensures View() == BatchDone(old(View()), relay)
    {
      hide BreakerViews, Views;
      RecordSuccess(relay);
    }

    method RecordSuccess(relay: Relay)
      requires Valid()
      modifies this`breakers, breakers.Values
      ensures Valid() && fresh(breakers.Values - old(breakers.Values))
      ensures BreakerViews(breakers) ==
        old(BreakerViews(breakers))[relay := AfterSuccess(BreakerIn(old(BreakerViews(breakers)), relay))]
    {
      hide Valid;
      var b := GetBreaker(relay);
      ghost var views := BreakerViews(breakers);
      b.OnSuccess();
      ViewsWith(views, relay);
    }

    method TakeBackProbes(probes: set<Relay>) returns (ghost step: Step)
      requires Valid()
      modifies breakers.Values
      ensures step == Step.Rollback
      ensures IsStep(old(St(Leaving(probes))), step, St(Ending))
    {
      hide View, RolledBack;
      step := Step.Rollback;
      RollBackProbes(probes);
    }

    /** The last critical section of drainOnce. */
    method EndPass(now: int, sweepAt: int, wakeAt: int, stuck: set<int>) returns (sleep: int, ghost step: Step)
      requires Valid() && clock <= now <= sweepAt <= wakeAt
      modifies this
      ensures Valid() && clock == wakeAt && tick == old(tick) && nextSerial == old(nextSerial)
      ensures fresh(Repr() - old(Repr()))
      ensures forall it :: it in items ==> it in old(items)
      ensures step.End? && step == Step.End(now, sweepAt, wakeAt, stuck, step.touched)
      ensures IsStep(old(St(Ending)), step, St(Idle))
      ensures IsSleep(View(), clock, sleep)
    {
      hide View, Evicted, Swept, Touched, IsSleep, Wanted;
      ghost var touched;
      sleep, touched := EvictSweepAndLook(now, sweepAt, wakeAt, stuck);
      step := Step.End(now, sweepAt, wakeAt, stuck, touched);
      clock := wakeAt;
    }

    method EvictSweepAndLook(now: int, sweepAt: int, wakeAt: int, stuck: set<int>)
      returns (sleep: int, ghost touched: set<Relay>)
      requires Valid()
      modifies this`items, this`table, this`breakers
      ensures Valid() && fresh(Repr() - old(Repr()))
      ensures forall it :: it in items ==> it in old(items)
      ensures touched <= Wanted(Evicted(old(View()), now, stuck).items)
      ensures View() == PassEnded(old(View()), now, sweepAt, stuck, touched)
      ensures IsSleep(View(), wakeAt, sleep)
    {
      hide View, Evicted, IsSleep, Wanted;
      Evict(now, stuck);
      GcBreakers(sweepAt);
      sleep, touched := NextWake(wakeAt);
    }

    // ----- one pass -----

    /** Whatever other goroutines enqueue before the drain goroutine takes its next step. */
    method Meanwhile(env: nat -> Moment, ghost phase: Phase) returns (m: Moment, ghost steps: seq<Step>)
      requires Ready(env)
      modifies this
      ensures Ready(env) && fresh(Repr() - old(Repr())) && breakers == old(breakers)
      ensures forall it :: it in old(items) ==> it in items
      ensures forall it :: it in items ==> it in old(items) || fresh(it)
      ensures tick == old(tick) + 1 && m == env(old(tick)) && clock <= m.now <= m.sweepAt <= m.wakeAt <= env(tick).now
      ensures m.cancelled ==> env(tick).cancelled
      ensures steps == Enqueues(m) && IsRun(old(St(phase)), steps, St(phase))
    {
      hide IsRun, IsStep, St;
      m := env(tick);
      tick := tick + 1;
      steps := [];
      EmptyRun(St(phase));
      for i := 0 to |m.arrivals|
        invariant Ready(env) && fresh(Repr() - old(Repr())) && breakers == old(breakers)
        invariant forall it :: it in old(items) ==> it in items
        invariant forall it :: it in items ==> it in old(items) || fresh(it)
        invariant tick == old(tick) + 1 && m == env(old(tick)) && clock <= m.now
        invariant steps == Enqueues(m)[..i] && IsRun(old(St(phase)), steps, St(phase))
      {
        ghost var before := St(phase);
        ghost var step := Arrive(m.arrivals[i], m.now, phase);
        RunGoesOn(old(St(phase)), steps, before, step, St(phase));
        steps := steps + [step];
      }
    }

    /** Before each publish: a cancelled context ends the batch. */
    method MayBail(env: nat -> Moment, ghost phase: Phase)
      returns (bailed: bool, ghost after: Phase, ghost steps: seq<Step>)
      requires Ready(env) && phase.Batch? && phase.rest != []
      modifies this
      ensures Ready(env) && fresh(Repr() - old(Repr())) && breakers == old(breakers)
      ensures forall it :: it in old(items) ==> it in items
      ensures bailed == env(old(tick)).cancelled && tick == old(tick) + 1
      ensures after == if bailed then Leaving(phase.probes) else phase
      ensures bailed ==> env(tick).cancelled
      ensures Answers(env, old(tick), tick, steps)
      ensures IsRun(old(St(phase)), steps, St(after))
    {
      hide IsRun, IsStep, View, Answers, Enqueues;
      ghost var own: seq<Step> := [];
      var m;
      m, steps := Meanwhile(env, phase);
      bailed, after := m.cancelled, phase;
      if bailed {
        after := Leaving(phase.probes);
        Bailing(St(phase));
        own := [Step.Bail];
        RunGoesOn(old(St(phase)), steps, St(phase), Step.Bail, St(after));
      }
      OneMoment(env, old(tick), own);
      assert own == [] ==> steps + own == steps;
      steps := steps + own;
    }

    /** The body of the loop of publishBatch. */
    method PublishOne(env: nat -> Moment, relay: Relay, item: PublishItem, ghost phase: Phase)
      returns (bailed: bool, ghost after: Phase, ghost steps: seq<Step>)
      requires Ready(env) && item in items
      requires phase.Batch? && phase.relay == relay && phase.rest != [] && phase.rest[0] == item.serial
      modifies this, item
      ensures Ready(env) && fresh(Repr() - old(Repr())) && breakers == old(breakers)
      ensures forall it :: it in old(items) ==> it in items
      ensures after == if bailed then Leaving(phase.probes) else phase.(rest := phase.rest[1..])
      ensures bailed ==> env(tick).cancelled
      ensures Answers(env, old(tick), tick, steps)
      ensures IsRun(old(St(phase)), steps, St(after))
    {
      hide IsRun, IsStep, View, Answers, Enqueues;
      ghost var start, t0 := St(phase), tick;
      bailed, after, steps := MayBail(env, phase);
      if bailed {
        return;
      }
      ghost var more, sofar := steps, St(phase);
      var m;
      m, more := Meanwhile(env, phase);
      RunsJoin(start, steps, sofar, more, St(phase));
      sofar := St(phase);
      ghost var step := Book(item, relay, m.accepts, m.stuck, phase);
      after := phase.(rest := phase.rest[1..]);
      RunGoesOn(start, steps + more, sofar, step, St(after));
      NextMoment(env, t0, t0 + 1, steps, [step]);
      assert steps + (more + [step]) == steps + more + [step];
      steps := steps + more + [step];
    }

    /** The loop of publishBatch. */
    method PublishAll(env: nat -> Moment, relay: Relay, batch: seq<PublishItem>, ghost phase: Phase)
      returns (bailed: bool, ghost after: Phase, ghost steps: seq<Step>)
      requires Ready(env) && phase.Batch? && phase.relay == relay && phase.rest == Serials(batch)
      requires forall it :: it in batch ==> it in items
      modifies this, batch
      ensures Ready(env) && fresh(Repr() - old(Repr())) && breakers == old(breakers)
      ensures forall it :: it in old(items) ==> it in items
      ensures after == if bailed then Leaving(phase.probes) else phase.(rest := [])
      ensures bailed ==> env(tick).cancelled
      ensures Answers(env, old(tick), tick, steps)
      ensures IsRun(old(St(phase)), steps, St(after))
    {
      hide IsRun, View, WellTimed, Answers;
      ghost var start, t0 := St(phase), tick;
      after, steps := phase, [];
      EmptyRun(start);
      NoMoment(env, t0);
      for i := 0 to |batch|
        invariant Ready(env) && fresh(Repr() - old(Repr())) && breakers == old(breakers)
        invariant forall it :: it in old(items) ==> it in items
        invariant after == phase.(rest := Serials(batch)[i..])
        invariant Answers(env, t0, tick, steps)
        invariant IsRun(start, steps, St(after))
      {
        ghost var sofar, more, t := St(after), [], tick;
        assert batch[i] in batch;
        bailed, after, more := PublishOne(env, relay, batch[i], after);
        RunsJoin(start, steps, sofar, more, St(after));
        AnswersJoin(env, t0, t, tick, steps, more);
        steps := steps + more;
        if bailed {
          return;
        }
      }
      bailed := false;
    }

    /** The start of publishBatch: the relay is reached, or its breaker counts a failure. */
    method Dial(env: nat -> Moment, relay: Relay, ghost phase: Phase)
      returns (connected: bool, ghost after: Phase, ghost steps: seq<Step>)
      requires Ready(env) && phase.Loop? && relay in phase.work && tick > 0 && !env(tick - 1).cancelled
      modifies this, breakers.Values
      ensures Ready(env) && fresh(Repr() - old(Repr()))
      ensures forall it :: it in old(items) ==> it in items
      ensures connected == env(old(tick)).connects
      ensures after == if connected then Batch(phase.work - {relay}, phase.probes, relay, phase.work[relay])
        else Loop(phase.work - {relay}, phase.probes - {relay})
      ensures Answers(env, old(tick), tick, steps)
      ensures IsRun(old(St(phase)), steps, St(after))
    {
      hide IsRun, IsStep, View, WellTimed, Answers, Enqueues;
      ghost var start, step, t0 := St(phase), Step.Bail, tick;
      var m;
      m, steps := Meanwhile(env, phase);
      ghost var sofar := St(phase);
      connected := m.connects;
      if connected {
        step := Connected(relay, m.now, phase);
        after := Batch(phase.work - {relay}, phase.probes, relay, phase.work[relay]);
      } else {
        step := ConnectFails(relay, m.now, phase);
        after := Loop(phase.work - {relay}, phase.probes - {relay});
      }
      RunGoesOn(start, steps, sofar, step, St(after));
      OneMoment(env, t0, [step]);
      steps := steps + [step];
    }

    /** publishBatch.  Returns false if it met a cancelled context on the way. */
    method PublishBatch(env: nat -> Moment, relay: Relay, batch: seq<PublishItem>, ghost phase: Phase)
      returns (resolved: bool, ghost after: Phase, ghost steps: seq<Step>)
      requires Ready(env) && phase.Loop? && relay in phase.work && phase.work[relay] == Serials(batch)
      requires tick > 0 && !env(tick - 1).cancelled && forall it :: it in batch ==> it in items
      modifies this, batch, breakers.Values
      ensures Ready(env) && fresh(Repr() - old(Repr()))
      ensures forall it :: it in old(items) ==> it in items
      ensures after == if resolved then Loop(phase.work - {relay}, phase.probes - {relay}) else Leaving(phase.probes)
      ensures !resolved ==> env(tick).cancelled
      ensures Answers(env, old(tick), tick, steps)
      ensures IsRun(old(St(phase)), steps, St(after))
    {
      hide IsRun, IsStep, View, WellTimed, Answers, Enqueues, Valid;
      ghost var start, t0 := St(phase), tick;
      var connected;
      connected, after, steps := Dial(env, relay, phase);
      if !connected {
        return true, after, steps;
      }
      var bailed;
      ghost var sofar, more, t := St(after), [], tick;
      bailed, after, more := PublishAll(env, relay, batch, after);
      RunsJoin(start, steps, sofar, more, St(after));
      AnswersJoin(env, t0, t, tick, steps, more);
      steps := steps + more;
      if bailed {
        return false, after, steps;
      }
      sofar, t := St(after), tick;
      after, more := Finishing(env, relay, after);
      RunsJoin(start, steps, sofar, more, St(after));
      AnswersJoin(env, t0, t, tick, steps, more);
      return true, after, steps + more;
    }

    /** The end of publishBatch: the relay was reached, whatever it said to each event. */
    method Finishing(env: nat -> Moment, relay: Relay, ghost phase: Phase)
      returns (ghost after: Phase, ghost steps: seq<Step>)
      requires Ready(env) && phase.Batch? && phase.relay == relay && phase.rest == []
      modifies this, breakers.Values
      ensures Ready(env) && fresh(Repr() - old(Repr()))
      ensures forall it :: it in old(items) ==> it in items
      ensures after == Loop(phase.work, phase.probes - {relay})
      ensures Answers(env, old(tick), tick, steps)
      ensures IsRun(old(St(phase)), steps, St(after))
    {
      hide IsRun, IsStep, View, WellTimed, Answers, Enqueues;
      ghost var start := St(phase);
      OneMoment(env, tick, [Step.Finish]);
      var m;
      m, steps := Meanwhile(env, phase);
      ghost var sofar := St(phase);
      ghost var step := FinishBatch(relay, phase);
      after := Loop(phase.work, phase.probes - {relay});
      RunGoesOn(start, steps, sofar, step, St(after));
      steps := steps + [step];
    }

    /** One turn of the loop of drainOnce. */
    method VisitOne(env: nat -> Moment, work: map<Relay, seq<PublishItem>>, todo: set<Relay>, probes: set<Relay>,
      ghost at: Phase)
      returns (todo': set<Relay>, probes': set<Relay>, cancelled: bool, ghost after: Phase, ghost steps: seq<Step>)
      requires Ready(env) && todo != {} && VisitingAt(env, at, work, todo, probes, false, tick)
      requires todo <= work.Keys && forall r, it :: r in work && it in work[r] ==> it in items
      modifies this, InWork(work), breakers.Values
      ensures Ready(env) && fresh(Repr() - old(Repr()))
      ensures forall it :: it in old(items) ==> it in items
      ensures todo' < todo || cancelled
      ensures todo' <= todo && VisitingAt(env, after, work, todo', probes', cancelled, tick)
      ensures Answers(env, old(tick), tick, steps)
      ensures IsRun(old(St(at)), steps, St(after))
    {
      hide IsRun, IsStep, View, Answers, Enqueues;
      ghost var start, more, t0 := St(at), [], tick;
      todo', probes', cancelled, after := todo, probes, false, at;
      var m;
      m, steps := Meanwhile(env, at);
      if m.cancelled {
        after := Leaving(probes);
        ghost var own: seq<Step> := [];
        if at.Loop? {
          Leaves(St(at), true);
          RunGoesOn(start, steps, St(at), Step.Leave(true), St(after));
          own := [Step.Leave(true)];
        }
        OneMoment(env, t0, own);
        assert own == [] ==> steps + own == steps;
        return todo, probes, true, after, steps + own;
      }
      OneMoment(env, t0, []);
      assert steps + [] == steps;
      var r :| r in todo;
      ghost var sofar, t := St(at), tick;
      var resolved;
      assert forall it :: it in work[r] ==> it in InWork(work);
      resolved, after, more := PublishBatch(env, r, work[r], at);
      RunsJoin(start, steps, sofar, more, St(after));
      AnswersJoin(env, t0, t, tick, steps, more);
      todo' := todo - {r};
      probes' := if resolved then probes - {r} else probes;
      steps := steps + more;
    }

    /** The loop of drainOnce over the relays of the pass, in any order.  Returns the probes
        that were not resolved. */
    method VisitRelays(env: nat -> Moment, work: map<Relay, seq<PublishItem>>, granted: set<Relay>, ghost phase: Phase)
      returns (probes: set<Relay>, ghost after: Phase, ghost steps: seq<Step>)
      requires Ready(env) && phase.Loop? && phase.probes == granted && SameWork(phase.work, work, items)
      modifies this, InWork(work), breakers.Values
      ensures Ready(env) && fresh(Repr() - old(Repr()))
      ensures HasVisited(after, probes)
      ensures Answers(env, old(tick), tick, steps)
      ensures IsRun(old(St(phase)), steps, St(after))
    {
      hide IsRun, IsStep, View, WellTimed, Answers, SameWork, Valid;
      ghost var start, sofar, more, t0, t := St(phase), St(phase), [], tick, tick;
      after, steps := phase, [];
      EmptyRun(start);
      NoMoment(env, t0);
      LoopStarts(env, phase, work, items, tick);
      probes := granted;
      var todo, cancelled := work.Keys, false;
      while todo != {} && !cancelled
        invariant Ready(env) && fresh(Repr() - old(Repr()))
        invariant todo <= work.Keys && forall r, it :: r in work && it in work[r] ==> it in items
        invariant VisitingAt(env, after, work, todo, probes, cancelled, tick)
        invariant Answers(env, t0, tick, steps)
        invariant IsRun(start, steps, St(after))
        decreases todo, !cancelled
      {
        sofar, t := St(after), tick;
        todo, probes, cancelled, after, more := VisitOne(env, work, todo, probes, after);
        RunsJoin(start, steps, sofar, more, St(after));
        AnswersJoin(env, t0, t, tick, steps, more);
        steps := steps + more;
      }
    }

    /** drainOnce: one pass.  It is a run of the step machine from rest to rest whose steps are
        the answers of the environment, and the returned sleep is the one specified. */
    method DrainOnce(env: nat -> Moment) returns (sleep: int, ghost steps: seq<Step>)
      requires Ready(env)
      modifies this, items, breakers.Values
      ensures Ready(env) && fresh(Repr() - old(Repr()))
      ensures Answers(env, old(tick), tick, steps)
      ensures IsRun(old(St(Idle)), steps, St(Idle))
      ensures steps != [] && steps[|steps| - 1].End?
      ensures IsSleep(View(), clock, sleep)
      ensures old(Inv(St(Idle))) ==> Inv(St(Idle))
      ensures env(old(tick)).cancelled ==> SendsNothing(steps)
    {
      hide IsRun, View, WellTimed, IsSleep, Inv, SameWork, Answers, SendsNothing, Valid;
      ghost var start, phase, sofar, more, t0, t := St(Idle), Idle, St(Idle), [], tick, tick;
      var work, probes;
      work, probes, phase, steps := OpenPass(env);
      sofar, t := St(phase), tick;
      probes, phase, more := VisitRelays(env, work, probes, phase);
      RunsJoin(start, steps, sofar, more, St(phase));
      AnswersJoin(env, t0, t, tick, steps, more);
      ghost var opening, visits := steps, more;
      steps := steps + more;
      sofar, t := St(phase), tick;
      sleep, more := ClosePass(env, probes, phase);
      RunsJoin(start, steps, sofar, more, St(Idle));
      AnswersJoin(env, t0, t, tick, steps, more);
      if env(t0).cancelled { CancelledPassSendsNothing(env, t0, t, tick, opening, visits, more); }
      steps := steps + more;
      RunKeepsInvFrom(start, steps, St(Idle));
    }

    /** Three passes, as the loop of run makes them while nothing is enqueued: when every relay can
        be reached, no breaker is down and nothing is cancelled, nothing is left to publish. */
    method DrainThrice(env: nat -> Moment)
      requires Ready(env) && CalmFrom(env, tick) && Inv(St(Idle)) && AllClosed(BreakerViews(breakers))
      modifies Repr()
      ensures Ready(env) && items == []
    {
      hide IsRun, Inv, Answers, CalmFrom, AllClosed, WellTimed, View, Views, BreakerViews, Repr;
      ghost var start, t0, steps := St(Idle), tick, [];
      ViewIs();
      EmptyRun(start);
      NoMoment(env, t0);
      steps := DrainAgain(env, start, t0, steps);
      steps := DrainAgain(env, start, t0, steps);
      steps := DrainAgain(env, start, t0, steps);
      CalmStepsAreUndisturbed(env, t0, tick, steps);
      PassesEmptyTheQueue(start, steps, St(Idle));
      ViewIs();
    }

    /** One more pass, after the steps of those before it. */
    method DrainAgain(env: nat -> Moment, ghost start: State, ghost t0: nat, ghost steps: seq<Step>)
      returns (ghost steps': seq<Step>)
      requires Ready(env) && IsRun(start, steps, St(Idle)) && Answers(env, t0, tick, steps)
      modifies Repr()
      ensures Ready(env) && fresh(Repr() - old(Repr()))
      ensures IsRun(start, steps', St(Idle)) && Answers(env, t0, tick, steps')
      ensures PassesEnded(steps') > PassesEnded(steps)
    {
      hide IsRun, WellTimed, IsSleep, Inv, Answers, View;
      ghost var mid, t1, more := St(Idle), tick, [];
      var sleep;
      InRepr();
      sleep, more := DrainOnce(env);
      RunsJoin(start, steps, mid, more, St(Idle));
      AnswersJoin(env, t0, t1, tick, steps, more);
      OnePassEnded(more);
      PassesAdd(steps, more);
      steps' := steps + more;
    }

    lemma InRepr()
      ensures this in Repr()
      ensures forall it :: it in items ==> it in Repr()
      ensures forall b :: b in breakers.Values ==> b in Repr()
    {
    }

    lemma ViewIs()
      ensures View().breakers == BreakerViews(breakers) && |View().items| == |items|
    {
    }

    /** The start of drainOnce. */
    method OpenPass(env: nat -> Moment)
      returns (work: map<Relay, seq<PublishItem>>, probes: set<Relay>, ghost phase: Phase, ghost steps: seq<Step>)
      requires Ready(env)
      modifies this, breakers.Values
      ensures Ready(env) && fresh(Repr() - old(Repr()))
      ensures phase.Loop? && phase.probes == probes && SameWork(phase.work, work, items)
      ensures forall it :: it in InWork(work) ==> it in old(items) || fresh(it)
      ensures tick == old(tick) + 1 && SendsNothing(steps)
      ensures Answers(env, old(tick), tick, steps)
      ensures IsRun(old(St(Idle)), steps, St(phase))
    {
      hide IsRun, IsStep, View, WellTimed, Answers, Enqueues;
      ghost var start, sofar, step, t0 := St(Idle), St(Idle), Step.Rollback, tick;
      var m;
      m, steps := Meanwhile(env, Idle);
      sofar := St(Idle);
      work, probes, phase, step := BeginPass(m.now, m.stuck);
      RunGoesOn(start, steps, sofar, step, St(phase));
      OneMoment(env, t0, [step]);
      OpeningSendsNothing(m, step);
      steps := steps + [step];
    }

    /** The end of drainOnce. */
    method ClosePass(env: nat -> Moment, probes: set<Relay>, ghost at: Phase)
      returns (sleep: int, ghost steps: seq<Step>)
      requires Ready(env) && HasVisited(at, probes)
      modifies this, breakers.Values
      ensures Ready(env) && fresh(Repr() - old(Repr()))
      ensures Answers(env, old(tick), tick, steps)
      ensures IsRun(old(St(at)), steps, St(Idle))
      ensures steps != [] && steps[|steps| - 1].End?
      ensures IsSleep(View(), clock, sleep)
    {
      hide IsRun, IsStep, View, WellTimed, IsSleep, Answers, Enqueues;
      ghost var start, more, t0 := St(at), [], tick;
      steps := UndoProbes(env, probes, at);
      ghost var sofar, t := St(Ending), tick;
      sleep, more := EndMoment(env);
      RunsJoin(start, steps, sofar, more, St(Idle));
      AnswersJoin(env, t0, t, tick, steps, more);
      steps := steps + more;
    }

    /** The roll-back section of drainOnce, and the end of the loop before it. */
    method UndoProbes(env: nat -> Moment, probes: set<Relay>, ghost at: Phase) returns (ghost steps: seq<Step>)
      requires Ready(env) && HasVisited(at, probes)
      modifies this, breakers.Values
      ensures Ready(env) && fresh(Repr() - old(Repr()))
      ensures Answers(env, old(tick), tick, steps)
      ensures IsRun(old(St(at)), steps, St(Ending))
    {
      hide IsRun, IsStep, View, WellTimed, Answers, Enqueues;
      ghost var start, sofar, step, t0 := St(at), St(at), Step.Rollback, tick;
      var m;
      m, steps := Meanwhile(env, at);
      ghost var first := steps;
      if at.Loop? {
        Leaves(St(at), false);
        RunGoesOn(start, steps, St(at), Step.Leave(false), St(Leaving(probes)));
        steps := steps + [Step.Leave(false)];
      }
      sofar := St(Leaving(probes));
      step := TakeBackProbes(probes);
      RunGoesOn(start, steps, sofar, step, St(Ending));
      steps := steps + [step];
      ghost var own := if at.Loop? then [Step.Leave(false), step] else [step];
      assert steps == first + own;
      OneMoment(env, t0, own);
    }

    /** The last moment of drainOnce. */
    method EndMoment(env: nat -> Moment) returns (sleep: int, ghost steps: seq<Step>)
      requires Ready(env)
      modifies this
      ensures Ready(env) && fresh(Repr() - old(Repr()))
      ensures Answers(env, old(tick), tick, steps)
      ensures IsRun(old(St(Ending)), steps, St(Idle))
      ensures steps != [] && steps[|steps| - 1].End?
      ensures IsSleep(View(), clock, sleep)
    {
      hide IsRun, IsStep, View, WellTimed, IsSleep, Answers, Enqueues;
      ghost var start, step, t0 := St(Ending), Step.Rollback, tick;
      var m;
      m, steps := Meanwhile(env, Ending);
      ghost var sofar := St(Ending);
      sleep, step := EndPass(m.now, m.sweepAt, m.wakeAt, m.stuck);
      RunGoesOn(start, steps, sofar, step, St(Idle));
      OneMoment(env, t0, [step]);
      steps := steps + [step];
    }
  }

  /** The loop over the relays is over: every relay was visited, or the context was cancelled. */
  ghost predicate HasVisited(at: Phase, probes: set<Relay>) {
    at == Leaving(probes) || (at.Loop? && at.work.Keys == {} && at.probes == probes)
  }

  ghost function InWork(work: map<Relay, seq<PublishItem>>): set<PublishItem> {
    set r, it | r in work && it in work[r] :: it
  }

  ghost function RolledBackMap(bs: map<Relay, Breaker>, probes: set<Relay>): map<Relay, Breaker> {
    map r | r in bs :: if r in probes then AfterRollback(bs[r]) else bs[r]
  }

  lemma RolledBackMore(bs: map<Relay, Breaker>, probes: set<Relay>, r: Relay)
    ensures RolledBackMap(RolledBackMap(bs, probes), {r}) == RolledBackMap(bs, probes + {r})
  {
  }

  /** Where the loop over the relays is: at its head with the relays `todo` left, or on its way
      out after a batch that met the cancelled context. */
  ghost predicate VisitingAt(env: nat -> Moment, at: Phase, work: map<Relay, seq<PublishItem>>, todo: set<Relay>,
                             probes: set<Relay>, cancelled: bool, tick: nat) {
    || (at.Loop? && !cancelled && at.probes == probes && at.work.Keys == todo && todo <= work.Keys
        && (forall r :: r in todo ==> at.work[r] == Serials(work[r])))
    || (at == Leaving(probes) && (cancelled || env(tick).cancelled))
  }

  lemma LoopStarts(env: nat -> Moment, phase: Phase, work: map<Relay, seq<PublishItem>>, items: seq<PublishItem>,
    tick: nat)
    requires phase.Loop? && SameWork(phase.work, work, items)
    ensures VisitingAt(env, phase, work, work.Keys, phase.probes, false, tick)
    ensures forall r, it :: r in work && it in work[r] ==> it in items
  {
  }

  lemma Leaves(s: State, cancelled: bool)
    requires s.phase.Loop? && (cancelled || s.phase.work.Keys == {})
    ensures IsStep(s, Step.Leave(cancelled), s.(phase := Leaving(s.phase.probes)))
  {
  }

  lemma RunKeepsInvFrom(s: State, steps: seq<Step>, t: State)
    requires IsRun(s, steps, t)
    ensures Inv(s) ==> Inv(t)
  {
    if Inv(s) {
      RunKeepsInv(s, steps);
    }
  }

  lemma PassesEmptyTheQueue(s: State, steps: seq<Step>, t: State)
    requires IsRun(s, steps, t) && Inv(s) && s.phase.Idle? && AllClosed(s.q.breakers)
    requires (forall k :: 0 <= k < |steps| ==> Undisturbed(steps[k])) && PassesEnded(steps) >= 3
    ensures t.q.items == []
  {
    ThreePassesEmptyTheQueue(s, steps);
  }

  /** The work lists of the program and of the specification, item by item. */
  ghost predicate SameWork(spec: map<Relay, seq<nat>>, work: map<Relay, seq<PublishItem>>, items: seq<PublishItem>) {
    && (forall r :: r in work <==> r in spec)
    && (forall r :: r in work ==> Serials(work[r]) == spec[r])
    && (forall r, it :: r in work && it in work[r] ==> it in items)
  }

  lemma IndexOfItem(items: seq<PublishItem>, i: nat)
    requires i < |items|
    requires forall j, k :: 0 <= j < k < |items| ==> items[j].serial < items[k].serial
    ensures IndexOf(Views(items), items[i].serial) == i
  {
    var k := IndexOf(Views(items), items[i].serial);
    assert Views(items)[i] in Views(items);
  }

  ghost predicate IsStep(s: State, step: Step, t: State) {
    Enabled(s, step) && Apply(s, step) == t
  }

  ghost predicate IsRun(s: State, steps: seq<Step>, t: State) {
    Legal(s, steps) && Exec(s, steps) == t
  }

  lemma ArriveIsStep(s: State, a: Arrival, now: int)
    requires s.clock <= now && a.created <= now
    ensures IsStep(s, EnqueueOf(a, now),
      s.(q := Enqueued(s.q, s.nextSerial, a.evt, a.relays, a.created, a.insertOk), clock := now,
         nextSerial := s.nextSerial + 1))
  {
    hide Enqueued;
  }

  lemma Bailing(s: State)
    requires s.phase.Batch? && s.phase.rest != []
    ensures IsStep(s, Step.Bail, s.(phase := Leaving(s.phase.probes)))
  {
  }

  lemma EmptyRun(s: State)
    ensures IsRun(s, [], s)
  {
  }

  lemma RunGoesOn(s: State, steps: seq<Step>, before: State, step: Step, after: State)
    requires IsRun(s, steps, before) && IsStep(before, step, after)
    ensures IsRun(s, steps + [step], after)
  {
    assert [step][1..] == [];
    ExecAppend(s, steps, [step]);
  }

  lemma RunsJoin(s: State, a: seq<Step>, mid: State, b: seq<Step>, t: State)
    requires IsRun(s, a, mid) && IsRun(mid, b, t)
    ensures IsRun(s, a + b, t)
  {
    ExecAppend(s, a, b);
  }

  lemma SweptIs(q: Queue, bs: map<Relay, Breaker>, now: int)
    requires forall r :: r in bs <==> r in q.breakers && BreakerKept(q.breakers[r], r, Wanted(q.items), now)
    requires forall r :: r in bs ==> bs[r] == q.breakers[r]
    ensures Swept(q, now) == q.(breakers := bs)
  {
    assert Swept(q, now).breakers == bs;
  }

  ghost predicate BreakerKept(b: Breaker, r: Relay, wanted: set<Relay>, now: int) {
    r in wanted || !(b.state == Closed || now - b.nextProbe > MAX_COOLDOWN)
  }

  /** A time.Time that may still be zero. */
  datatype Earliest = NotYet | At(time: int)

  /** All of `relays` are down, and `earliest` is when the first of them may be probed. */
  ghost predicate EarliestOf(q: Queue, relays: set<Relay>, earliest: Earliest) {
    && (forall r :: r in relays ==> BreakerOf(q, r).state == Open)
    && (earliest.NotYet? <==> relays == {})
    && (earliest.At? ==>
          && (exists r :: r in relays && BreakerOf(q, r).nextProbe == earliest.time)
          && (forall r :: r in relays ==> earliest.time <= BreakerOf(q, r).nextProbe))
  }

  lemma NoEarliest(q: Queue)
    ensures EarliestOf(q, {}, NotYet)
  {
  }

  lemma EarlierOf(q: Queue, relays: set<Relay>, earliest: Earliest, r: Relay)
    requires EarliestOf(q, relays, earliest) && BreakerOf(q, r).state == Open
    ensures var t := BreakerOf(q, r).nextProbe;
            EarliestOf(q, relays + {r}, if earliest == NotYet || t < earliest.time then At(t) else earliest)
  {
    if earliest.At? {
      var first :| first in relays && BreakerOf(q, first).nextProbe == earliest.time;
      assert first in relays + {r};
    }
    assert r in relays + {r};
  }

  lemma NoneTouched(q: Queue)
    ensures Touched(q, {}) == q
  {
    assert Touched(q, {}).breakers == q.breakers;
  }

  lemma NoItemsSleep(q: Queue, now: int)
    requires q.items == []
    ensures IsSleep(q, now, 0)
  {
  }

  lemma NotAllOpenSleep(q: Queue, touched: set<Relay>, r: Relay, now: int)
    requires r in Wanted(q.items) && BreakerOf(q, r).state != Open
    ensures IsSleep(Touched(q, touched), now, BASE_COOLDOWN)
  {
    assert BreakerOf(Touched(q, touched), r) == BreakerOf(q, r);
  }

  lemma AllOpenSleep(q: Queue, earliest: Earliest, now: int)
    requires q.items != [] && EarliestOf(q, Wanted(q.items), earliest)
    ensures IsSleep(q, now, match earliest case NotYet => 0 case At(t) => NonNegative(t - now))
  {
  }

  lemma WantedAppend(items: seq<Item>, it: Item)
    ensures Wanted(items + [it]) == Wanted(items) + it.pending
  {
    assert it in items + [it];
    assert forall x :: x in items ==> x in items + [it];
  }

  /** Indexing a Go map: the zero value for a missing key. */
  function Listed(work: map<Relay, seq<PublishItem>>, r: Relay): seq<PublishItem> {
    if r in work then work[r] else []
  }

  ghost function BreakerIn(bs: map<Relay, Breaker>, r: Relay): Breaker {
    if r in bs then bs[r] else FRESH_BREAKER
  }

  ghost function Asked(bs: map<Relay, Breaker>, r: Relay, now: int): map<Relay, Breaker> {
    bs[r := AfterAllow(BreakerIn(bs, r), now)]
  }

  /** Where collectWorkLocked is with relay r once it has come upon the items `seen` that
      want it: breakers `bs`, work and probes against the queue `was` of its start. */
  ghost predicate OfferedTo(was: Queue, now: int, bs: map<Relay, Breaker>, work: map<Relay, seq<PublishItem>>,
                            probes: set<Relay>, seen: seq<nat>, r: Relay) {
    if seen == [] then
      && (r in bs <==> r in was.breakers) && (r in bs ==> bs[r] == was.breakers[r])
      && r !in work && r !in probes
    else
      && r in bs && bs[r] == AfterAllow(BreakerOf(was, r), now)
      && (match GrantOf(BreakerOf(was, r), now)
          case AllowAll => r in work && Serials(work[r]) == seen && r !in probes
          case AllowProbe => r in work && Serials(work[r]) == Head(seen) && r in probes
          case Deny => r !in work && r !in probes)
  }

  /** All items of `before` have been offered to all relays, and item n to those in `done`. */
  ghost function SeenBy(before: seq<Item>, done: set<Relay>, n: nat, r: Relay): seq<nat> {
    PendingOn(before, r) + if r in done then [n] else []
  }

  ghost predicate OfferedAll(was: Queue, now: int, bs: map<Relay, Breaker>, work: map<Relay, seq<PublishItem>>,
                             probes: set<Relay>, before: seq<Item>, done: set<Relay>, n: nat) {
    forall r :: OfferedTo(was, now, bs, work, probes, SeenBy(before, done, n, r), r)
  }

  lemma OfferNext(was: Queue, now: int, bs: map<Relay, Breaker>, work: map<Relay, seq<PublishItem>>,
                  probes: set<Relay>, before: seq<Item>, done: set<Relay>, n: nat, n': nat)
    requires OfferedAll(was, now, bs, work, probes, before, done, n) && done == {}
    ensures OfferedAll(was, now, bs, work, probes, before, {}, n')
  {
    forall r ensures OfferedTo(was, now, bs, work, probes, SeenBy(before, {}, n', r), r) {
      assert SeenBy(before, {}, n', r) == SeenBy(before, done, n, r);
    }
  }

  lemma ItemOffered(was: Queue, now: int, bs: map<Relay, Breaker>, work: map<Relay, seq<PublishItem>>,
                    probes: set<Relay>, before: seq<Item>, it: Item)
    requires OfferedAll(was, now, bs, work, probes, before, it.pending, it.serial)
    ensures OfferedAll(was, now, bs, work, probes, before + [it], {}, 0)
  {
    forall r ensures OfferedTo(was, now, bs, work, probes, SeenBy(before + [it], {}, 0, r), r) {
      PendingOnAppend(before, it, r);
      assert SeenBy(before + [it], {}, 0, r) == SeenBy(before, it.pending, it.serial, r);
    }
  }

  /** One turn of the inner loop. */
  lemma OfferOne(was: Queue, now: int, bs: map<Relay, Breaker>, work: map<Relay, seq<PublishItem>>,
                 probes: set<Relay>, before: seq<Item>, done: set<Relay>, item: PublishItem, r: Relay)
    requires OfferedAll(was, now, bs, work, probes, before, done, item.serial) && r !in done
    ensures var grant := GrantOf(BreakerIn(bs, r), now);
            var added := work[r := Listed(work, r) + [item]];
            OfferedAll(was, now, Asked(bs, r, now),
                       if grant == AllowAll || (grant == AllowProbe && r !in probes) then added else work,
                       if grant == AllowProbe then probes + {r} else probes,
                       before, done + {r}, item.serial)
  {
    var grant := GrantOf(BreakerIn(bs, r), now);
    var work' := if grant == AllowAll || (grant == AllowProbe && r !in probes)
      then work[r := Listed(work, r) + [item]] else work;
    var probes' := if grant == AllowProbe then probes + {r} else probes;
    forall r' ensures OfferedTo(was, now, Asked(bs, r, now), work', probes',
      SeenBy(before, done + {r}, item.serial, r'), r') {
      assert OfferedTo(was, now, bs, work, probes, SeenBy(before, done, item.serial, r'), r');
      if r' != r {
        assert SeenBy(before, done + {r}, item.serial, r') == SeenBy(before, done, item.serial, r');
      } else {
        OfferedOnce(was, now, bs, work, probes, SeenBy(before, done, item.serial, r), item, r);
        assert SeenBy(before, done + {r}, item.serial, r) == SeenBy(before, done, item.serial, r) + [item.serial];
      }
    }
  }

  lemma OfferedOnce(was: Queue, now: int, bs: map<Relay, Breaker>, work: map<Relay, seq<PublishItem>>,
                    probes: set<Relay>, seen: seq<nat>, item: PublishItem, r: Relay)
    requires OfferedTo(was, now, bs, work, probes, seen, r)
    ensures var grant := GrantOf(BreakerIn(bs, r), now);
            var added := work[r := Listed(work, r) + [item]];
            OfferedTo(was, now, Asked(bs, r, now),
                      if grant == AllowAll || (grant == AllowProbe && r !in probes) then added else work,
                      if grant == AllowProbe then probes + {r} else probes,
                      seen + [item.serial], r)
  {
    assert Serials(Listed(work, r) + [item]) == Serials(Listed(work, r)) + [item.serial];
  }

  lemma NothingOffered(was: Queue, now: int)
    ensures OfferedAll(was, now, was.breakers, map[], {}, [], {}, 0)
  {
    forall r ensures OfferedTo(was, now, was.breakers, map[], {}, SeenBy([], {}, 0, r), r) {
      assert SeenBy([], {}, 0, r) == [];
    }
  }

  lemma OfferedToAll(was: Queue, now: int, bs: map<Relay, Breaker>, work: map<Relay, seq<PublishItem>>,
    probes: set<Relay>, r: Relay)
    requires OfferedAll(was, now, bs, work, probes, was.items, {}, 0)
    ensures OfferedTo(was, now, bs, work, probes, PendingOn(was.items, r), r)
    ensures r in Wanted(was.items) <==> PendingOn(was.items, r) != []
  {
    WantedIffPending(was.items, r);
    assert SeenBy(was.items, {}, 0, r) == PendingOn(was.items, r);
  }

  lemma OfferedMeans(was: Queue, now: int, bs: map<Relay, Breaker>, work: map<Relay, seq<PublishItem>>,
    probes: set<Relay>, r: Relay)
    requires OfferedAll(was, now, bs, work, probes, was.items, {}, 0)
    ensures r in bs <==> r in Collected(was, now).breakers
    ensures r in bs ==> bs[r] == Collected(was, now).breakers[r]
    ensures r in work <==> r in WorkFor(was, now)
    ensures r in work ==> Serials(work[r]) == WorkFor(was, now)[r]
    ensures r in probes <==> r in ProbesFor(was, now)
  {
    hide OfferedAll, Wanted, PendingOn, Serials;
    OfferedToAll(was, now, bs, work, probes, r);
  }

  /** Once every item has been offered, the pass has exactly the work of the specification. */
  lemma AllOffered(was: Queue, now: int, bs: map<Relay, Breaker>, work: map<Relay, seq<PublishItem>>,
    probes: set<Relay>)
    requires OfferedAll(was, now, bs, work, probes, was.items, {}, 0)
    ensures Collected(was, now) == was.(breakers := bs)
    ensures forall r :: r in work <==> r in WorkFor(was, now)
    ensures forall r :: r in work ==> Serials(work[r]) == WorkFor(was, now)[r]
    ensures probes == ProbesFor(was, now)
  {
    hide OfferedAll, WorkFor, ProbesFor, Serials;
    forall r
      ensures r in bs <==> r in Collected(was, now).breakers
      ensures r in bs ==> bs[r] == Collected(was, now).breakers[r]
      ensures r in work <==> r in WorkFor(was, now)
      ensures r in work ==> Serials(work[r]) == WorkFor(was, now)[r]
      ensures r in probes <==> r in ProbesFor(was, now)
    {
      OfferedMeans(was, now, bs, work, probes, r);
    }
    assert Collected(was, now).breakers == bs;
  }

  lemma WantedIffPending(items: seq<Item>, r: Relay)
    ensures r in Wanted(items) <==> PendingOn(items, r) != []
  {
    if r in Wanted(items) {
      var it :| it in items && r in it.pending;
      InPendingOn(items, r, it.serial);
    }
    if PendingOn(items, r) != [] {
      InPendingOn(items, r, PendingOn(items, r)[0]);
    }
  }

  lemma {:induction false} WithoutNothing(rows: seq<Row>)
    ensures Without(rows, {}) == rows
  {
    if rows != [] {
      WithoutNothing(rows[..|rows| - 1]);
    }
  }

  ghost function Restarted(t: Table, now: int, stuck: set<int>, serial: nat): State {
    var q := Reloaded(t, serial, stuck);
    State(q, now, Idle, [], serial + |q.items|)
  }

  /** The state of a new process is where the step `Restart` leads from any state that left
      that table behind. */
  lemma RestartedIsGood(t: Table, now: int, stuck: set<int>, serial: nat)
    requires RowsOk(t)
    ensures forall s: State :: s.q.table == t && s.nextSerial == serial && s.clock <= now ==>
              IsStep(s, Restart(now, stuck), Restarted(t, now, stuck, serial))
    ensures Inv(Restarted(t, now, stuck, serial))
  {
    RestartKeepsInv(State(Queue([], map[], t), now, Idle, [], serial), Restart(now, stuck));
  }

  /** One turn of the loop of load. */
  lemma LoadNext(rows: seq<Row>, i: nat, all: seq<Row>, serial: nat, stuck: set<int>)
    requires i < |rows|
    ensures var init := LoadedItems(rows[..i], serial);
            LoadedItems(rows[..i + 1], serial) ==
              init + if Loadable(rows[i]) then [LoadedItem(rows[i], serial + |init|)] else []
    ensures Without(all, UselessRows(rows[..i + 1], stuck))
            == var sofar := Without(all, UselessRows(rows[..i], stuck));
               if !Loadable(rows[i]) && rows[i].id !in stuck then Without(sofar, {rows[i].id}) else sofar
  {
    hide Loadable, LoadedItem, Without;
    assert rows[..i + 1] == rows[..i] + [rows[i]];
    assert (rows[..i] + [rows[i]])[..i] == rows[..i];
    UselessAppend(rows[..i], rows[i], stuck);
    assert UselessRows(rows[..i], stuck) + {} == UselessRows(rows[..i], stuck);
    WithoutTwice(all, UselessRows(rows[..i], stuck), {rows[i].id});
  }

  lemma UselessAppend(rows: seq<Row>, row: Row, stuck: set<int>)
    ensures UselessRows(rows + [row], stuck) ==
      UselessRows(rows, stuck) + if !Loadable(row) && row.id !in stuck then {row.id} else {}
  {
    hide Loadable;
    assert row in rows + [row];
    assert forall x :: x in rows ==> x in rows + [row];
  }

  lemma NothingLoaded(all: seq<Row>, serial: nat, stuck: set<int>)
    ensures LoadedItems([], serial) == [] && Without(all, UselessRows([], stuck)) == all
  {
    WithoutNothing(all);
    assert UselessRows([], stuck) == {};
  }

  lemma SameUselessRows(t: Table, stuck: set<int>)
    requires RowsOk(t)
    ensures UselessRows(Sorted(t.rows), stuck) == UselessRows(t.rows, stuck)
  {
    SortedSorts(t.rows);
  }

  lemma NothingEvicted(now: int, stuck: set<int>)
    ensures Staying([], now, stuck) == [] && RowsGoing([], now, stuck) == {}
  {
  }

  /** One turn of the eviction loop. */
  lemma EvictNext(items: seq<Item>, i: nat, rows: seq<Row>, now: int, stuck: set<int>)
    requires i < |items|
    ensures Staying(items[..i + 1], now, stuck) ==
      Staying(items[..i], now, stuck) + if Stays(items[i], now, stuck) then [items[i]] else []
    ensures Without(rows, RowsGoing(items[..i + 1], now, stuck))
            == var sofar := Without(rows, RowsGoing(items[..i], now, stuck));
               if RowGoes(items[i], now, stuck) then Without(sofar, {items[i].dbID}) else sofar
  {
    assert items[..i + 1] == items[..i] + [items[i]];
    assert (items[..i] + [items[i]])[..i] == items[..i];
    RowsGoingAppend(items[..i], items[i], now, stuck);
    WithoutTwice(rows, RowsGoing(items[..i], now, stuck), {items[i].dbID});
  }

  lemma RowsGoingAppend(items: seq<Item>, it: Item, now: int, stuck: set<int>)
    ensures RowsGoing(items + [it], now, stuck) ==
      RowsGoing(items, now, stuck) + if RowGoes(it, now, stuck) then {it.dbID} else {}
  {
    assert it in items + [it];
    assert forall x :: x in items ==> x in items + [it];
  }

  lemma {:induction false} WithoutTwice(rows: seq<Row>, a: set<int>, b: set<int>)
    ensures Without(Without(rows, a), b) == Without(rows, a + b)
  {
    if rows != [] {
      var init, last := rows[..|rows| - 1], rows[|rows| - 1];
      WithoutTwice(init, a, b);
      var once := Without(init, a);
      if last.id !in a {
        assert (once + [last])[..|once|] == once;
      } else {
        assert once + [] == once;
      }
    }
  }
}
