/** The worker object: its drain loop, run without interruption, is proved against `Drain`. */
module Workers {
  import opened Common
  import opened InboxModel
  import opened InboxDrain
  import opened InboxStores
  import opened WorkerModel

  class Worker {
    const inbox: InboxStore
    var wake: bool
    var currentPriority: int
    var currentCancel: bool           // whether a cancel function is published
    var cancelled: bool               // whether it has been called for the current item
    var compactResult: Option<nat>    // the channel to answer, by index
    var channels: seq<seq<Outcome>>
    ghost var processed: seq<Row>

    ghost predicate Valid()
      reads this, inbox
    {
      && Shape(inbox.View())
      && (compactResult.Some? ==> compactResult.value < |channels| && channels[compactResult.value] == [])
    }

    constructor (store: InboxStore)
      requires Shape(store.View())
      ensures inbox == store && Valid() && !wake && !currentCancel && processed == []
    {
      inbox := store;
      wake, currentPriority, currentCancel, cancelled := false, -1, false, false;
      compactResult, channels, processed := None, [], [];
    }

    method Notify(priority: int)
      modifies `wake, `cancelled
      ensures wake
      ensures cancelled == (old(cancelled) || (currentCancel && priority < currentPriority))
    {
      if currentCancel && priority < currentPriority {
        cancelled := true;
      }
      if !wake {
        wake := true;
      }
    }

    method Abort() returns (aborted: bool)
      modifies `cancelled
      ensures aborted == currentCancel
      ensures cancelled == (old(cancelled) || currentCancel)
    {
      aborted := currentCancel;
      if aborted { cancelled := true; }
    }

    /** Compact up to its insert: the slot is claimed, and given back when the insert fails. */
    method StartCompact(dbOk: bool) returns (channel: Option<nat>)
      requires Valid()
      modifies this, inbox
      ensures Valid()
      ensures old(compactResult).Some? || !dbOk ==>
        channel == None && compactResult == old(compactResult) && inbox.View() == old(inbox.View())
      ensures old(compactResult).None? && dbOk ==>
        && channel == Some(old(|channels|)) && compactResult == channel
        && inbox.View() == Insert(old(inbox.View()), USER_PRIORITY, Compact, "", "")
    {
      if compactResult.Some? { return None; }
      channels := channels + [[]];
      compactResult := Some(|channels| - 1);
      InsertKeepsShape(inbox.View(), Compact, "", "");
      var ok := inbox.Enqueue(USER_PRIORITY, Compact, "", "", dbOk);
      if !ok {
        compactResult := None;
        return None;
      }
      channel := compactResult;
      Notify(USER_PRIORITY);
    }

    method MergeUserItems(item: Row, dbOk: bool) returns (r: Row)
      requires Shape(inbox.View())
      modifies inbox
      ensures r == if dbOk then Merged(item, UserRows(old(inbox.rows))) else item
      ensures inbox.View() == if dbOk then Table(OtherRows(old(inbox.rows)), old(inbox.lastId)) else old(inbox.View())
    {
      var batch := inbox.DequeueUserBatch(dbOk);
      if batch.None? || batch.value == [] { return item; }
      var extra := batch.value;
      var content := BuildPrompt(item.content, extra);
      r := item.(content := content, replyTo := extra[|extra| - 1].replyTo);
    }

    /** The string builder of mergeUserItems. */
    static method BuildPrompt(content: string, extra: seq<Row>) returns (sb: string)
      ensures sb == Joined(content, extra)
    {
      sb := content;
      assert extra[..0] == [];
      for k := 0 to |extra|
        invariant sb == Joined(content, extra[..k])
      {
        assert extra[..k + 1] == extra[..k] + [extra[k]];
        JoinedAppend(content, extra[..k], extra[k]);
        sb := sb + "\n" + extra[k].content;
      }
      assert extra[..|extra|] == extra;
    }

    method ProcessCompact(sessionAlive: bool, compactOk: bool)
      requires Valid()
      modifies `compactResult, `channels
      ensures compactResult == None
      ensures channels == match old(compactResult)
        case None => old(channels)
        case Some(c) =>
          old(channels)[c := [if !sessionAlive then NoSession else if compactOk then Compacted else CompactFailed]]
    {
      var ch := compactResult;
      compactResult := None;
      if ch.None? { return; }
      var outcome := if !sessionAlive then NoSession else if compactOk then Compacted else CompactFailed;
      assert channels[ch.value] + [outcome] == [outcome];
      channels := channels[ch.value := channels[ch.value] + [outcome]];
    }

    method HandleNoRoomID(item: Row, dbOk: bool) returns (stop: bool)
      modifies inbox
      ensures stop == Stops(item, NoRoom(dbOk)) || item.source.Compact?
      ensures !item.source.Compact? ==> inbox.View() == AfterItem(old(inbox.View()), item, NoRoom(dbOk))
    {
      if item.source == Trigger {
        var _ := inbox.Requeue(item, dbOk);
        return true;
      }
      stop := false;
    }

    method RequeuePreempted(item: Row, dbOk: bool) returns (stop: bool)
      modifies inbox
      ensures stop
      ensures !item.source.Compact? ==> inbox.View() == AfterItem(old(inbox.View()), item, Preempted(dbOk))
    {
      if item.source == Heartbeat { return true; }
      var _ := inbox.Requeue(item, dbOk);
      stop := true;
    }

    /** The answer of the environment decides how a prompt ends; a compact item always completes. */
    method ProcessItem(item: Row, result: Result, sessionAlive: bool) returns (stop: bool)
      requires Valid() && item.priority == PriorityOf(item.source)
      modifies this, inbox
      ensures Valid()
      ensures stop == Stops(item, result)
      ensures inbox.View() == AfterItem(old(inbox.View()), item, result)
      ensures processed == old(processed) + [item]
      ensures !currentCancel && currentPriority == -1
      ensures wake == old(wake)
      ensures if item.source.Compact? then compactResult == None else compactResult == old(compactResult)
    {
      currentPriority, currentCancel, cancelled := item.priority, true, false;
      processed := processed + [item];
      RequeueKeepsTheItem(inbox.View(), item);
      if item.source == Compact {
        ProcessCompact(sessionAlive, result.Completed?);
        stop := false;
      } else {
        match result
        case Completed => stop := false;
        case NoRoom(ok) => stop := HandleNoRoomID(item, ok);
        case Preempted(ok) => stop := RequeuePreempted(item, ok);
      }
      currentPriority, currentCancel := -1, false;
    }

    /** The start of an iteration: the item to process, merged when it is a user's. */
    method TakeNext(turn: Turn) returns (r: Dequeued)
      requires Shape(inbox.View())
      modifies inbox
      ensures r.QueryError? <==> !turn.dequeueOk
      ensures r.NoRows? <==> turn.dequeueOk && old(inbox.rows) == []
      ensures !r.Got? ==> inbox.View() == old(inbox.View())
      ensures r.Got? ==>
        && r.item == Next(old(inbox.View()), turn.mergeOk).0
        && inbox.View() == Next(old(inbox.View()), turn.mergeOk).1
        && Shape(inbox.View()) && r.item.priority == PriorityOf(r.item.source)
    {
      if turn.dequeueOk && inbox.rows != [] { NextIsSound(inbox.View(), turn.mergeOk); }
      TakingKeepsShape(inbox.View());
      r := inbox.Dequeue(turn.dequeueOk);
      if r.Got? && r.item.source == User {
        var item := MergeUserItems(r.item, turn.mergeOk);
        r := Got(item);
      }
    }

    method DrainOnce(turns: nat -> Turn, sessionAlive: bool) returns (why: Stop)
      requires Valid()
      modifies this, inbox
      ensures Valid()
      ensures var d := Drain(old(inbox.View()), turns, 0);
        && processed == old(processed) + d.log
        && inbox.View() == d.table
        && why == d.why
      ensures wake == old(wake)
    {
      hide Next, AfterItem, Stops, Shape, Drain, Merged, UserRows, OtherRows, TopIndex, StopOf, Resumes;
      var k := 0;
      ghost var d := Drain(inbox.View(), turns, 0);
      ghost var done: seq<Row> := [];
      ResumesAtStart(d);
      while true
        invariant Valid()
        invariant wake == old(wake)
        invariant processed == old(processed) + done
        invariant Resumes(d, done, Drain(inbox.View(), turns, k))
        decreases |inbox.rows|
      {
        ghost var t := inbox.View();
        ghost var now := Drain(t, turns, k);
        DrainUnfolds(t, turns, k);
        ResumesWith(d, done, now);
        var r := TakeNext(turns(k));
        if r.NoRows? { return Empty; }
        if r.QueryError? { return DequeueFailed; }
        var stop := ProcessItem(r.item, turns(k).result, sessionAlive);
        if stop { return StopOf(turns(k).result); }
        ResumesNext(d, done, r.item, Drain(inbox.View(), turns, k + 1));
        done := done + [r.item];
        k := k + 1;
      }
    }
  }

  /** After the items of `done`, the drain `d` goes on as `rest`. */
  ghost predicate Resumes(d: Drained, done: seq<Row>, rest: Drained) {
    d.log == done + rest.log && d.table == rest.table && d.why == rest.why
  }

  lemma ResumesAtStart(d: Drained)
    ensures Resumes(d, [], d)
  {
  }

  lemma ResumesWith(d: Drained, done: seq<Row>, rest: Drained)
    requires Resumes(d, done, rest)
    ensures d.log == done + rest.log && d.table == rest.table && d.why == rest.why
  {
  }

  lemma ResumesNext(d: Drained, done: seq<Row>, item: Row, rest: Drained)
    requires Resumes(d, done, rest.(log := [item] + rest.log))
    ensures Resumes(d, done + [item], rest)
  {
    assert done + ([item] + rest.log) == (done + [item]) + rest.log;
  }

  lemma NextIsSound(t: Table, mergeOk: bool)
    requires Shape(t) && t.rows != []
    ensures Shape(Next(t, mergeOk).1)
    ensures var item := Next(t, mergeOk).0; item.priority == PriorityOf(item.source)
  {
    TakingKeepsShape(t);
    TopIsSound(t);
    TakingKeepsShape(Table(Without(t.rows, TopIndex(t.rows)), t.lastId));
  }
}
