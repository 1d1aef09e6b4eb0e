/** The worker and everyone who talks to it, as interleaved steps: producers that insert a row,
    cancel under the lock and then send the wake token; the worker's own loop; callers of
    Compact; Abort; shutdown; and a crash with a restart on what the table holds. */
module WorkerModel {
  import opened Common
  import opened InboxModel
  import opened InboxDrain

  // ----- state -----

  /** A producer on its way through Notify; `caller` is set when it is a Compact call. */
  datatype Notice = Notice(priority: int, tokenNext: bool, caller: Option<nat>)

  datatype Outcome = NoSession | Compacted | CompactFailed

  /** Where a Compact call is: it has claimed the slot, is about to clear it after a failed insert,
      is in Notify, waits in its select, or has returned. */
  datatype CallPhase = Claimed | Clearing | Notifying | Waiting | Left

  /** `channel` has capacity 1; `sent` counts what was ever put into it. */
  datatype Call = Call(phase: CallPhase, channel: seq<Outcome>, sent: nat)

  /** Why the last drain returned. */
  datatype Why = Began | FoundEmpty | QueryFailed | PreemptedByNotify | PreemptedByAbort | LackedRoom | ShutDown

  /** Where the worker is. */
  datatype Pc =
    | Top                        // the head of drainOnce's loop
    | Holding(item: Row)         // dequeued, not yet merged
    | Ready(item: Row)           // about to publish currentCancel
    | Running(item: Row)
    | Sending(call: nat)         // processCompact has taken the result channel
    | Closing(why: Option<Why>)  // about to clear currentCancel; Some: drainOnce returns
    | Idle                       // blocked in the select of Run
    | Stopped

  datatype State = State(
    inbox: Table,
    wake: bool,
    pc: Pc,
    current: Option<int>,   // currentPriority while currentCancel is set
    byNotify: bool,         // who has cancelled the current item's context
    byAbort: bool,
    slot: Option<nat>,      // compactResult
    notices: seq<Notice>,
    calls: seq<Call>,
    begun: seq<Row>,        // the items processed so far
    held: seq<Row>,         // history: the rows that the item in hand is made of
    parts: seq<seq<Row>>,   // history: the rows that each processed item was made of
    last: Why,
    ending: bool)

  function Started(t: Table): State {
    State(Table(Purged(t.rows), t.lastId), false, Top, None, false, false, None, [], [], [], [], [], Began, false)
  }

  // ----- steps -----

  datatype Step =
    | Add(source: Source, content: string, replyTo: string)
    | AddHeartbeat
    | NotifyCancel(notice: nat)
    | NotifyToken(notice: nat)
    | Abort
    | Claim
    | AddCompact(call: nat, ok: bool)
    | Clear(call: nat)
    | GiveUp(call: nat)
    | TakeOutcome(call: nat)
    | Dequeue(ok: bool)
    | Merge(ok: bool)
    | Begin
    | Finish(result: Result)
    | TakeSlot
    | SendOutcome(outcome: Outcome)
    | Reset
    | Wake
    | Shutdown
    | Quit
    | Restart

  predicate InPhase(s: State, c: nat, phase: CallPhase) {
    c < |s.calls| && s.calls[c].phase == phase
  }

  predicate Enabled(s: State, step: Step) {
    match step
    case Add(source, _, _) => source.User? || source.Trigger?
    case AddHeartbeat => true
    case NotifyCancel(k) => k < |s.notices| && !s.notices[k].tokenNext
    case NotifyToken(k) => k < |s.notices| && s.notices[k].tokenNext
    case Abort => s.current.Some?
    case Claim => s.slot.None?
    case AddCompact(c, _) => InPhase(s, c, Claimed)
    case Clear(c) => InPhase(s, c, Clearing)
    case GiveUp(c) => InPhase(s, c, Waiting)
    case TakeOutcome(c) => InPhase(s, c, Waiting) && s.calls[c].channel != []
    case Dequeue(_) => s.pc.Top? && !s.ending
    case Merge(_) => s.pc.Holding?
    case Begin => s.pc.Ready?
    case Finish(result) =>
      && s.pc.Running? && !s.pc.item.source.Compact?
      && (result.Preempted? ==> s.byNotify || s.byAbort || s.ending)
    case TakeSlot => s.pc.Running? && s.pc.item.source.Compact?
    case SendOutcome(_) => s.pc.Sending? && s.pc.call < |s.calls| && s.calls[s.pc.call].channel == []
    case Reset => s.pc.Closing?
    case Wake => s.pc.Idle? && s.wake
    case Shutdown => true
    case Quit => s.ending && (s.pc.Top? || s.pc.Idle?)
    case Restart => true
  }

  function Inserted(s: State, priority: int, source: Source, content: string, replyTo: string,
    caller: Option<nat>): State {
    s.(inbox := Insert(s.inbox, priority, source, content, replyTo),
       notices := s.notices + [Notice(priority, false, caller)])
  }

  function WithPhase(s: State, c: nat, phase: CallPhase): State
    requires c < |s.calls|
  {
    s.(calls := s.calls[c := s.calls[c].(phase := phase)])
  }

  /** The locked part of Notify. */
  function AfterCancel(s: State, k: nat): State
    requires k < |s.notices|
  {
    var n := s.notices[k];
    s.(byNotify := s.byNotify || (s.current.Some? && n.priority < s.current.value),
       notices := s.notices[k := n.(tokenNext := true)])
  }

  function AfterToken(s: State, k: nat): State
    requires k < |s.notices|
  {
    var c := s.notices[k].caller;
    var s' := s.(wake := true, notices := Without(s.notices, k));
    if c.Some? && InPhase(s, c.value, Notifying) then WithPhase(s', c.value, Waiting) else s'
  }

  function AfterDequeue(s: State, ok: bool): State {
    if !ok then s.(pc := Idle, last := QueryFailed)
    else if s.inbox.rows == [] then s.(pc := Idle, last := FoundEmpty)
    else
      var k := TopIndex(s.inbox.rows);
      s.(inbox := Table(Without(s.inbox.rows, k), s.inbox.lastId), pc := Holding(s.inbox.rows[k]),
        held := [s.inbox.rows[k]])
  }

  function AfterMerge(s: State, ok: bool): State
    requires s.pc.Holding?
  {
    var item, rows := s.pc.item, s.inbox.rows;
    if item.source.User? && ok
    then s.(inbox := Table(OtherRows(rows), s.inbox.lastId), pc := Ready(Merged(item, UserRows(rows))),
      held := s.held + UserRows(rows))
    else s.(pc := Ready(item))
  }

  function WhyOf(s: State, result: Result): Why {
    if result.NoRoom? then LackedRoom
    else if s.byNotify then PreemptedByNotify
    else if s.byAbort then PreemptedByAbort
    else ShutDown
  }

  function AfterFinish(s: State, result: Result): State
    requires s.pc.Running?
  {
    var item := s.pc.item;
    s.(inbox := AfterItem(s.inbox, item, result),
       pc := Closing(if Stops(item, result) then Some(WhyOf(s, result)) else None))
  }

  function AfterReset(s: State): State
    requires s.pc.Closing?
  {
    var s' := s.(current := None);
    if s.pc.why.Some? then s'.(pc := Idle, last := s.pc.why.value) else s'.(pc := Top)
  }

  function Apply(s: State, step: Step): State
    requires Enabled(s, step)
  {
    match step
    case Add(source, content, replyTo) => Inserted(s, PriorityOf(source), source, content, replyTo, None)
    case AddHeartbeat => if HasHeartbeat(s.inbox.rows) then s
      else Inserted(s, HEARTBEAT_PRIORITY, Heartbeat, "", "", None)
    case NotifyCancel(k) => AfterCancel(s, k)
    case NotifyToken(k) => AfterToken(s, k)
    case Abort => s.(byAbort := true)
    case Claim => s.(slot := Some(|s.calls|), calls := s.calls + [Call(Claimed, [], 0)])
    case AddCompact(c, ok) =>
      if ok then Inserted(WithPhase(s, c, Notifying), USER_PRIORITY, Compact, "", "", Some(c))
      else WithPhase(s, c, Clearing)
    case Clear(c) => WithPhase(s, c, Left).(slot := None)
    case GiveUp(c) => WithPhase(s, c, Left)
    case TakeOutcome(c) => s.(calls := s.calls[c := s.calls[c].(phase := Left, channel := s.calls[c].channel[1..])])
    case Dequeue(ok) => AfterDequeue(s, ok)
    case Merge(ok) => AfterMerge(s, ok)
    case Begin => s.(pc := Running(s.pc.item), current := Some(s.pc.item.priority), byNotify := false, byAbort := false,
                     begun := s.begun + [s.pc.item], parts := s.parts + [s.held])
    case Finish(result) => AfterFinish(s, result)
    case TakeSlot => if s.slot.Some? then s.(pc := Sending(s.slot.value), slot := None) else s.(pc := Closing(None))
    case SendOutcome(outcome) =>
      var c := s.calls[s.pc.call];
      s.(calls := s.calls[s.pc.call := c.(channel := c.channel + [outcome], sent := c.sent + 1)], pc := Closing(None))
    case Reset => AfterReset(s)
    case Wake => s.(wake := false, pc := Top)
    case Shutdown => s.(ending := true)
    case Quit => if s.pc.Top? then s.(pc := Idle, last := ShutDown) else s.(pc := Stopped)
    case Restart => Started(s.inbox)
  }

  ghost predicate Legal(s: State, run: seq<Step>)
    decreases |run|
  {
    run == [] || (Enabled(s, run[0]) && Legal(Apply(s, run[0]), run[1..]))
  }

  ghost function Exec(s: State, run: seq<Step>): State
    requires Legal(s, run)
    decreases |run|
  {
    if run == [] then s else Exec(Apply(s, run[0]), run[1..])
  }

  // ----- the shape of the inbox, and of the item in hand -----

  predicate HoldsItem(s: State) {
    s.pc.Holding? || s.pc.Ready? || s.pc.Running?
  }

  predicate InboxIsSound(s: State) {
    && Shape(s.inbox)
    && (HoldsItem(s) ==> s.pc.item.priority == PriorityOf(s.pc.item.source))
  }

  lemma InsertKeepsShape(t: Table, source: Source, content: string, replyTo: string)
    requires Shape(t) && (source.Heartbeat? ==> !HasHeartbeat(t.rows))
    ensures Shape(Insert(t, PriorityOf(source), source, content, replyTo))
  {
  }

  lemma TakingKeepsShape(t: Table)
    requires Shape(t)
    ensures Shape(Table(OtherRows(t.rows), t.lastId))
    ensures Shape(Table(Purged(t.rows), t.lastId))
    ensures t.rows != [] ==> Shape(Table(Without(t.rows, TopIndex(t.rows)), t.lastId))
  {
    FiltersAreParts(t.rows);
    PartKeepsShape(OtherRows(t.rows), t);
    PartKeepsShape(Purged(t.rows), t);
    if t.rows != [] {
      WithoutIsPart(t.rows, TopIndex(t.rows));
      PartKeepsShape(Without(t.rows, TopIndex(t.rows)), t);
    }
  }

  lemma TopIsSound(t: Table)
    requires Shape(t) && t.rows != []
    ensures var item := t.rows[TopIndex(t.rows)]; item.priority == PriorityOf(item.source)
  {
  }

  predicate IsWorkerStep(step: Step) {
    || step.Dequeue? || step.Merge? || step.Begin? || step.Finish? || step.TakeSlot?
    || step.SendOutcome? || step.Reset? || step.Wake? || step.Quit?
  }

  predicate IsInsert(step: Step) {
    step.Add? || step.AddHeartbeat? || step.AddCompact?
  }

  lemma InsertStepKeepsShape(s: State, step: Step)
    requires InboxIsSound(s) && Enabled(s, step) && IsInsert(step)
    ensures InboxIsSound(Apply(s, step))
  {
    var t := s.inbox;
    match step
    case Add(source, content, replyTo) => InsertKeepsShape(t, source, content, replyTo);
    case AddHeartbeat => if !HasHeartbeat(t.rows) { InsertKeepsShape(t, Heartbeat, "", ""); }
    case AddCompact(_, _) => InsertKeepsShape(t, Compact, "", "");
  }

  lemma DequeueKeepsShape(s: State, ok: bool)
    requires InboxIsSound(s)
    ensures InboxIsSound(AfterDequeue(s, ok))
  {
    TakingKeepsShape(s.inbox);
    if s.inbox.rows != [] { TopIsSound(s.inbox); }
    hide Shape, Without, TopIndex, PriorityOf;
  }

  lemma MergeKeepsShape(s: State, ok: bool)
    requires InboxIsSound(s) && s.pc.Holding?
    ensures InboxIsSound(AfterMerge(s, ok))
  {
    TakingKeepsShape(s.inbox);
    hide Shape, OtherRows, UserRows;
  }

  lemma FinishKeepsShape(s: State, result: Result)
    requires InboxIsSound(s) && s.pc.Running?
    ensures InboxIsSound(AfterFinish(s, result))
  {
    RequeueKeepsTheItem(s.inbox, s.pc.item);
    hide Shape, Requeued;
  }

  lemma WorkerStepKeepsShape(s: State, step: Step)
    requires InboxIsSound(s) && Enabled(s, step) && IsWorkerStep(step)
    ensures InboxIsSound(Apply(s, step))
  {
    match step
    case Dequeue(ok) => DequeueKeepsShape(s, ok);
    case Merge(ok) => MergeKeepsShape(s, ok);
    case Finish(result) => FinishKeepsShape(s, result);
    case _ => hide Shape, PriorityOf;
  }

  /** Everyone else leaves the table and the worker's place alone. */
  lemma OtherStepKeepsInbox(s: State, step: Step)
    requires Enabled(s, step) && !IsWorkerStep(step) && !IsInsert(step) && !step.Restart?
    ensures Apply(s, step).inbox == s.inbox && Apply(s, step).pc == s.pc
  {
  }

  lemma StepKeepsShape(s: State, step: Step)
    requires InboxIsSound(s) && Enabled(s, step)
    ensures InboxIsSound(Apply(s, step))
  {
    if IsInsert(step) {
      InsertStepKeepsShape(s, step);
    } else if IsWorkerStep(step) {
      WorkerStepKeepsShape(s, step);
    } else if step.Restart? {
      TakingKeepsShape(s.inbox);
    } else {
      OtherStepKeepsInbox(s, step);
    }
  }

  // ----- wake-ups -----

  /** A token is there, or somebody who has inserted a row or cancelled will still send one. */
  predicate Signalled(s: State) {
    s.wake || s.notices != []
  }

  predicate IsHealthy(why: Why) {
    why == FoundEmpty || why == PreemptedByNotify
  }

  predicate WakeIsSound(s: State) {
    && (s.byNotify && s.current.Some? ==> Signalled(s))
    && (s.current.Some? <==> s.pc.Running? || s.pc.Sending? || s.pc.Closing?)
    && (s.pc.Closing? && s.pc.why.Some? ==>
          && s.pc.why.value != Began && s.pc.why.value != FoundEmpty
          && (s.pc.why.value == PreemptedByNotify ==> Signalled(s)))
    && (s.pc.Idle? && s.last == PreemptedByNotify ==> Signalled(s))
    && (s.pc.Idle? && s.last == FoundEmpty ==> s.inbox.rows == [] || Signalled(s))
    && (s.pc.Idle? ==> s.last != Began)
    && ((s.pc.Idle? && s.last == ShutDown) || s.pc == Closing(Some(ShutDown)) ==> s.ending)
  }

  lemma TakingKeepsWake(s: State, ok: bool)
    requires WakeIsSound(s)
    ensures s.pc.Top? ==> WakeIsSound(AfterDequeue(s, ok))
    ensures s.pc.Holding? ==> WakeIsSound(AfterMerge(s, ok))
  {
    hide Merged, UserRows, OtherRows, TopIndex, Without;
  }

  lemma FinishKeepsWake(s: State, result: Result)
    requires WakeIsSound(s) && s.pc.Running? && (result.Preempted? ==> s.byNotify || s.byAbort || s.ending)
    ensures WakeIsSound(AfterFinish(s, result))
  {
    hide AfterItem;
  }

  lemma ResetKeepsWake(s: State)
    requires WakeIsSound(s) && s.pc.Closing?
    ensures WakeIsSound(AfterReset(s))
  {
  }

  lemma WorkerStepKeepsWake(s: State, step: Step)
    requires WakeIsSound(s) && Enabled(s, step) && IsWorkerStep(step)
    ensures WakeIsSound(Apply(s, step))
  {
    if step.Dequeue? || step.Merge? {
      TakingKeepsWake(s, step.ok);
    } else if step.Finish? {
      FinishKeepsWake(s, step.result);
    } else if step.Reset? {
      ResetKeepsWake(s);
    }
  }

  lemma InsertSignals(s: State, step: Step)
    requires Enabled(s, step) && IsInsert(step)
    ensures var s' := Apply(s, step);
      && s'.pc == s.pc && s'.last == s.last && s'.current == s.current && s'.byNotify == s.byNotify
      && (Signalled(s) ==> Signalled(s'))
      && (s'.inbox == s.inbox || Signalled(s'))
  {
    hide Insert, HasHeartbeat;
  }

  /** Everyone but the worker only adds to the signals, and never takes a row. */
  lemma OthersOnlySignal(s: State, step: Step)
    requires Enabled(s, step) && !IsWorkerStep(step) && !step.Restart?
    ensures var s' := Apply(s, step);
      && s'.pc == s.pc && s'.last == s.last && s'.current == s.current
      && (Signalled(s) ==> Signalled(s'))
      && (s'.inbox == s.inbox || Signalled(s'))
      && (s'.byNotify ==> s.byNotify || Signalled(s'))
  {
    if IsInsert(step) {
      InsertSignals(s, step);
    } else {
      hide Without;
    }
  }

  lemma StepKeepsWake(s: State, step: Step)
    requires WakeIsSound(s) && Enabled(s, step)
    ensures WakeIsSound(Apply(s, step))
  {
    if IsWorkerStep(step) {
      WorkerStepKeepsWake(s, step);
    } else if !step.Restart? {
      OthersOnlySignal(s, step);
      hide Enabled, Apply;
    }
  }

  // ----- the compact hand-off -----

  function CountCompact(rows: seq<Row>): nat {
    if rows == [] then 0 else (if rows[0].source.Compact? then 1 else 0) + CountCompact(rows[1..])
  }

  function Held(s: State): nat {
    if HoldsItem(s) && s.pc.item.source.Compact? then 1 else 0
  }

  predicate IsClaiming(s: State, c: nat) {
    InPhase(s, c, Claimed) || InPhase(s, c, Clearing)
  }

  function Claiming(s: State): nat {
    if s.slot.Some? && IsClaiming(s, s.slot.value) then 1 else 0
  }

  /** The slot is set exactly while one party is in charge of it. */
  predicate SlotIsSound(s: State) {
    && Claiming(s) + CountCompact(s.inbox.rows) + Held(s) == (if s.slot.Some? then 1 else 0)
    && (s.slot.Some? ==> s.slot.value < |s.calls|)
    && (forall c :: 0 <= c < |s.calls| && IsClaiming(s, c) ==> s.slot == Some(c))
  }

  predicate CallIsSound(s: State, c: nat)
    requires c < |s.calls|
  {
    && s.calls[c].sent <= 1
    && |s.calls[c].channel| <= s.calls[c].sent
    && (s.slot == Some(c) || s.pc == Sending(c) || IsClaiming(s, c) ==> s.calls[c].sent == 0)
    && !(s.slot == Some(c) && s.pc == Sending(c))
    && (s.calls[c].phase.Notifying? || s.calls[c].phase.Waiting? ==>
          && |s.calls[c].channel| == s.calls[c].sent
          && (s.calls[c].sent == 1 || s.slot == Some(c) || s.pc == Sending(c)))
  }

  predicate CallsAreSound(s: State) {
    && (forall c :: 0 <= c < |s.calls| ==> CallIsSound(s, c))
    && (s.pc.Sending? ==> s.pc.call < |s.calls|)
  }

  lemma {:induction false} CountAppend(rows: seq<Row>, row: Row)
    ensures CountCompact(rows + [row]) == CountCompact(rows) + if row.source.Compact? then 1 else 0
  {
    if rows != [] {
      CountAppend(rows[1..], row);
      assert (rows + [row])[1..] == rows[1..] + [row];
    } else {
      assert (rows + [row])[1..] == [];
    }
  }

  lemma {:induction false} CountWithout(rows: seq<Row>, k: nat)
    requires k < |rows|
    ensures CountCompact(rows) == CountCompact(Without(rows, k)) + if rows[k].source.Compact? then 1 else 0
  {
    if k == 0 {
      assert Without(rows, 0) == rows[1..];
    } else {
      CountWithout(rows[1..], k - 1);
      assert Without(rows, k)[1..] == Without(rows[1..], k - 1);
    }
  }

  lemma {:induction false} CountOthers(rows: seq<Row>)
    ensures CountCompact(OtherRows(rows)) == CountCompact(rows)
    ensures CountCompact(Purged(rows)) == 0
  {
    if rows != [] {
      CountOthers(rows[1..]);
      var others, kept := OtherRows(rows[1..]), Purged(rows[1..]);
      assert ([rows[0]] + others)[1..] == others && ([rows[0]] + kept)[1..] == kept;
      assert [] + others == others && [] + kept == kept;
    }
  }

  lemma DequeueKeepsSlot(s: State, ok: bool)
    requires SlotIsSound(s) && s.pc.Top?
    ensures SlotIsSound(AfterDequeue(s, ok))
  {
    if s.inbox.rows != [] { CountWithout(s.inbox.rows, TopIndex(s.inbox.rows)); }
    hide CountCompact, Without, TopIndex;
  }

  lemma MergeKeepsSlot(s: State, ok: bool)
    requires SlotIsSound(s) && s.pc.Holding?
    ensures SlotIsSound(AfterMerge(s, ok))
  {
    CountOthers(s.inbox.rows);
    hide CountCompact, OtherRows, UserRows;
  }

  lemma FinishKeepsSlot(s: State, result: Result)
    requires SlotIsSound(s) && s.pc.Running? && !s.pc.item.source.Compact?
    ensures SlotIsSound(AfterFinish(s, result))
  {
    var item := s.pc.item;
    CountAppend(s.inbox.rows, Row(s.inbox.lastId + 1, item.priority, item.source, item.content, item.replyTo));
    hide CountCompact;
  }

  lemma SameClaimsKeepSlot(s: State, s': State)
    requires SlotIsSound(s)
    requires s'.slot == s.slot && s'.inbox == s.inbox && Held(s') == Held(s) && |s'.calls| == |s.calls|
    requires forall c :: IsClaiming(s', c) == IsClaiming(s, c)
    ensures SlotIsSound(s')
  {
    hide CountCompact;
  }

  lemma TakeSlotKeepsSlot(s: State)
    requires SlotIsSound(s) && Enabled(s, TakeSlot)
    ensures SlotIsSound(Apply(s, TakeSlot))
  {
    hide CountCompact;
    var s' := Apply(s, TakeSlot);
    assert Held(s) == 1 && Claiming(s) == 0;
    assert forall c :: IsClaiming(s', c) == IsClaiming(s, c);
  }

  lemma WorkerStepKeepsSlot(s: State, step: Step)
    requires SlotIsSound(s) && CallsAreSound(s) && Enabled(s, step) && IsWorkerStep(step)
    ensures SlotIsSound(Apply(s, step))
  {
    hide SlotIsSound, CallsAreSound;
    if step.Dequeue? {
      DequeueKeepsSlot(s, step.ok);
    } else if step.Merge? {
      MergeKeepsSlot(s, step.ok);
    } else if step.Finish? {
      FinishKeepsSlot(s, step.result);
    } else if step.TakeSlot? {
      TakeSlotKeepsSlot(s);
    } else {
      SameClaims(s, step);
      SameClaimsKeepSlot(s, Apply(s, step));
    }
  }

  /** The other steps of the worker leave the slot, the table and the claims alone. */
  lemma SameClaims(s: State, step: Step)
    requires Enabled(s, step) && (step.Begin? || step.SendOutcome? || step.Reset? || step.Wake? || step.Quit?)
    ensures var s' := Apply(s, step);
      && s'.slot == s.slot && s'.inbox == s.inbox && Held(s') == Held(s) && |s'.calls| == |s.calls|
      && forall c :: IsClaiming(s', c) == IsClaiming(s, c)
  {
    hide AfterCancel, AfterToken, AfterDequeue, AfterMerge, AfterFinish, Inserted, HasHeartbeat, Started;
    var s' := Apply(s, step);
    if step.SendOutcome? {
      assert s.pc.Sending? && s'.pc == Closing(None);
      assert s'.calls == s.calls[s.pc.call := s'.calls[s.pc.call]];
      assert s'.calls[s.pc.call].phase == s.calls[s.pc.call].phase;
    } else {
      assert s'.calls == s.calls;
    }
    hide Apply, Enabled;
  }

  lemma PlainInsertKeepsSlot(s: State, priority: int, source: Source, content: string, replyTo: string)
    requires SlotIsSound(s) && !source.Compact?
    ensures SlotIsSound(Inserted(s, priority, source, content, replyTo, None))
  {
    CountAppend(s.inbox.rows, Row(s.inbox.lastId + 1, priority, source, content, replyTo));
    hide CountCompact;
    assert forall c :: IsClaiming(Inserted(s, priority, source, content, replyTo, None), c) == IsClaiming(s, c);
  }

  lemma CompactInsertKeepsSlot(s: State, c: nat, ok: bool)
    requires SlotIsSound(s) && Enabled(s, AddCompact(c, ok))
    ensures SlotIsSound(Apply(s, AddCompact(c, ok)))
  {
    assert IsClaiming(s, c);
    CountAppend(s.inbox.rows, Row(s.inbox.lastId + 1, USER_PRIORITY, Compact, "", ""));
    hide CountCompact;
    var s' := Apply(s, AddCompact(c, ok));
    assert forall d :: d != c ==> IsClaiming(s', d) == IsClaiming(s, d);
    assert IsClaiming(s', c) == !ok;
  }

  lemma InsertStepKeepsSlot(s: State, step: Step)
    requires SlotIsSound(s) && Enabled(s, step) && IsInsert(step)
    ensures SlotIsSound(Apply(s, step))
  {
    hide SlotIsSound;
    match step
    case Add(source, content, replyTo) => PlainInsertKeepsSlot(s, PriorityOf(source), source, content, replyTo);
    case AddHeartbeat => PlainInsertKeepsSlot(s, HEARTBEAT_PRIORITY, Heartbeat, "", "");
    case AddCompact(c, ok) => CompactInsertKeepsSlot(s, c, ok);
  }

  /** The steps that concern a Compact call or the slot. */
  predicate TouchesCalls(step: Step) {
    || step.NotifyToken? || step.Claim? || step.AddCompact? || step.Clear? || step.GiveUp?
    || step.TakeOutcome? || step.TakeSlot? || step.SendOutcome? || step.Restart?
  }

  /** Calls and slot are as before, and so is the call that is being answered. */
  ghost predicate LeavesCallsAlone(s: State, s': State) {
    s'.calls == s.calls && s'.slot == s.slot && forall c :: s'.pc == Sending(c) <==> s.pc == Sending(c)
  }

  lemma QuietParts(s: State, ok: bool, result: Result)
    ensures s.pc.Top? ==> LeavesCallsAlone(s, AfterDequeue(s, ok))
    ensures s.pc.Holding? ==> LeavesCallsAlone(s, AfterMerge(s, ok))
    ensures s.pc.Running? ==> LeavesCallsAlone(s, AfterFinish(s, result))
    ensures s.pc.Closing? ==> LeavesCallsAlone(s, AfterReset(s))
  {
    hide AfterItem, Stops, Merged, UserRows, OtherRows, TopIndex, Without, WhyOf;
  }

  lemma QuietStep(s: State, step: Step)
    requires Enabled(s, step) && !TouchesCalls(step)
    ensures LeavesCallsAlone(s, Apply(s, step))
  {
    if IsWorkerStep(step) {
      QuietParts(s, if step.Dequeue? || step.Merge? then step.ok else true,
        if step.Finish? then step.result else Completed);
      hide AfterDequeue, AfterMerge, AfterFinish, AfterReset;
    } else {
      hide Insert, HasHeartbeat;
    }
  }

  lemma TokenKeepsSlot(s: State, k: nat)
    requires SlotIsSound(s) && k < |s.notices|
    ensures SlotIsSound(AfterToken(s, k))
  {
    hide SlotIsSound, Without;
    SameClaimsKeepSlot(s, AfterToken(s, k));
  }

  lemma ClaimKeepsSlot(s: State)
    requires SlotIsSound(s) && s.slot.None?
    ensures SlotIsSound(Apply(s, Claim))
  {
    hide CountCompact;
    var s' := Apply(s, Claim);
    assert forall c :: 0 <= c < |s.calls| ==> IsClaiming(s', c) == IsClaiming(s, c);
    assert IsClaiming(s', |s.calls|);
  }

  lemma ClearKeepsSlot(s: State, c: nat)
    requires SlotIsSound(s) && Enabled(s, Clear(c))
    ensures SlotIsSound(Apply(s, Clear(c)))
  {
    hide CountCompact;
    assert IsClaiming(s, c);
    var s' := Apply(s, Clear(c));
    assert forall d :: d != c ==> IsClaiming(s', d) == IsClaiming(s, d);
    assert !IsClaiming(s', c);
  }

  lemma CallerStepKeepsSlot(s: State, step: Step)
    requires SlotIsSound(s) && Enabled(s, step) && TouchesCalls(step) && !IsInsert(step) && !IsWorkerStep(step)
    ensures SlotIsSound(Apply(s, step))
  {
    if step.NotifyToken? {
      TokenKeepsSlot(s, step.notice);
    } else if step.Claim? {
      ClaimKeepsSlot(s);
    } else if step.Clear? {
      ClearKeepsSlot(s, step.call);
    } else if step.Restart? {
      CountOthers(s.inbox.rows);
    } else {
      hide SlotIsSound;
      SameClaimsKeepSlot(s, Apply(s, step));
    }
  }

  lemma StepKeepsSlot(s: State, step: Step)
    requires SlotIsSound(s) && CallsAreSound(s) && Enabled(s, step)
    ensures SlotIsSound(Apply(s, step))
  {
    if IsInsert(step) {
      InsertStepKeepsSlot(s, step);
    } else if IsWorkerStep(step) {
      WorkerStepKeepsSlot(s, step);
    } else if TouchesCalls(step) {
      CallerStepKeepsSlot(s, step);
    } else {
      QuietStep(s, step);
      OtherStepKeepsInbox(s, step);
      hide Enabled, Apply;
    }
  }

  lemma SlotStepKeepsCall(s: State, step: Step, c: nat)
    requires SlotIsSound(s) && CallsAreSound(s) && Enabled(s, step) && (step.TakeSlot? || step.SendOutcome?)
    requires c < |Apply(s, step).calls|
    ensures CallIsSound(Apply(s, step), c)
  {
    assert CallIsSound(s, c) && (IsClaiming(s, c) ==> s.slot == Some(c));
    assert step.TakeSlot? ==> Held(s) == 1 && Claiming(s) == 0;
    hide CountCompact, SlotIsSound, CallsAreSound;
  }

  lemma AddCompactKeepsCall(s: State, step: Step, c: nat)
    requires SlotIsSound(s) && CallsAreSound(s) && Enabled(s, step) && step.AddCompact? && c < |Apply(s, step).calls|
    ensures CallIsSound(Apply(s, step), c)
  {
    assert IsClaiming(s, step.call);
    assert c < |s.calls| ==> CallIsSound(s, c) && (IsClaiming(s, c) ==> s.slot == Some(c));
    hide CountCompact, Insert, SlotIsSound, CallsAreSound;
  }

  lemma ClaimOrClearKeepsCall(s: State, step: Step, c: nat)
    requires SlotIsSound(s) && CallsAreSound(s) && Enabled(s, step) && (step.Claim? || step.Clear?)
    requires c < |Apply(s, step).calls|
    ensures CallIsSound(Apply(s, step), c)
  {
    if step.Clear? { assert IsClaiming(s, step.call); }
    assert c < |s.calls| ==> CallIsSound(s, c) && (IsClaiming(s, c) ==> s.slot == Some(c));
    assert s.pc.Sending? ==> s.pc.call < |s.calls|;
    hide CountCompact, SlotIsSound, CallsAreSound;
  }

  lemma LeavingKeepsCall(s: State, step: Step, c: nat)
    requires CallsAreSound(s) && Enabled(s, step) && (step.GiveUp? || step.TakeOutcome?)
    requires c < |Apply(s, step).calls|
    ensures CallIsSound(Apply(s, step), c)
  {
    assert c < |s.calls| ==> CallIsSound(s, c);
    hide CallsAreSound;
  }

  lemma TokenKeepsCall(s: State, k: nat, c: nat)
    requires SlotIsSound(s) && CallsAreSound(s) && k < |s.notices| && c < |s.calls|
    ensures |AfterToken(s, k).calls| == |s.calls|
    ensures CallIsSound(AfterToken(s, k), c)
  {
    assert CallIsSound(s, c);
    hide SlotIsSound, CallsAreSound, Without;
  }

  lemma StepKeepsCall(s: State, step: Step, c: nat)
    requires SlotIsSound(s) && CallsAreSound(s) && Enabled(s, step) && c < |Apply(s, step).calls|
    ensures CallIsSound(Apply(s, step), c)
  {
    hide SlotIsSound;
    if step.NotifyToken? {
      TokenKeepsCall(s, step.notice, c);
    } else if step.TakeSlot? || step.SendOutcome? {
      SlotStepKeepsCall(s, step, c);
    } else if step.AddCompact? {
      AddCompactKeepsCall(s, step, c);
    } else if step.Claim? || step.Clear? {
      ClaimOrClearKeepsCall(s, step, c);
    } else if step.GiveUp? || step.TakeOutcome? {
      LeavingKeepsCall(s, step, c);
    } else if !step.Restart? {
      QuietStep(s, step);
      hide Enabled, Apply;
      assert CallIsSound(s, c);
    }
  }

  lemma SenderIsThere(s: State, step: Step)
    requires SlotIsSound(s) && CallsAreSound(s) && Enabled(s, step)
    ensures Apply(s, step).pc.Sending? ==> Apply(s, step).pc.call < |Apply(s, step).calls|
  {
    if !TouchesCalls(step) {
      QuietStep(s, step);
      hide Enabled, Apply;
      var s' := Apply(s, step);
      assert s'.pc.Sending? ==> s'.pc == Sending(s'.pc.call) && s.pc == Sending(s'.pc.call);
    } else {
      assert s.slot.Some? ==> s.slot.value < |s.calls|;
      assert s.pc.Sending? ==> s.pc.call < |s.calls|;
      hide SlotIsSound, CallsAreSound, Insert, Purged, Without;
    }
  }

  lemma StepKeepsCalls(s: State, step: Step)
    requires SlotIsSound(s) && CallsAreSound(s) && Enabled(s, step)
    ensures CallsAreSound(Apply(s, step))
  {
    var s' := Apply(s, step);
    SenderIsThere(s, step);
    hide Enabled, Apply, SlotIsSound, CallIsSound;
    forall c | 0 <= c < |s'.calls| ensures CallIsSound(s', c) {
      StepKeepsCall(s, step, c);
    }
  }

  // ----- every run -----

  ghost predicate Inv(s: State) {
    && InboxIsSound(s)
    && WakeIsSound(s)
    && SlotIsSound(s)
    && CallsAreSound(s)
  }

  lemma StartIsSound(t: Table)
    requires Shape(Table(Purged(t.rows), t.lastId))
    ensures Inv(Started(t))
  {
    CountOthers(t.rows);
  }

  lemma StepKeepsInv(s: State, step: Step)
    requires Inv(s) && Enabled(s, step)
    ensures Inv(Apply(s, step))
  {
    hide Enabled, Apply;
    StepKeepsShape(s, step);
    StepKeepsWake(s, step);
    StepKeepsSlot(s, step);
    StepKeepsCalls(s, step);
  }

  lemma {:induction false} RunKeepsInv(s: State, run: seq<Step>)
    requires Inv(s) && Legal(s, run)
    ensures Inv(Exec(s, run))
    decreases |run|
  {
    hide Inv, Enabled, Apply;
    if run != [] {
      StepKeepsInv(s, run[0]);
      RunKeepsInv(Apply(s, run[0]), run[1..]);
    }
  }

  /** The initial rows need only be right once the stale ones are purged; from then on, restarts
      included, the source determines the priority and there is never a second heartbeat row. */
  lemma InboxKeepsItsShape(t: Table, run: seq<Step>)
    requires Shape(Table(Purged(t.rows), t.lastId)) && Legal(Started(t), run)
    ensures Shape(Exec(Started(t), run).inbox)
  {
    StartIsSound(t);
    RunKeepsInv(Started(t), run);
  }

  // ----- no lost wake-up -----

  /** The worker waits with its context open, and no token is there or on its way. */
  predicate IsBlocked(s: State) {
    s.pc.Idle? && !s.ending && !Signalled(s)
  }

  /** A step that may end a drain without a producer to come: a failed query, an abort, a trigger
      without a room, the end of the process. */
  predicate IsDisturbance(step: Step) {
    step == Dequeue(false) || step.Abort? || step.Shutdown? || (step.Finish? && step.result.NoRoom?)
  }

  predicate IsQuiet(s: State) {
    && !s.ending && !s.byAbort
    && (s.pc.Idle? ==> IsHealthy(s.last))
    && (s.pc.Closing? && s.pc.why.Some? ==> s.pc.why.value == PreemptedByNotify)
  }

  lemma StepKeepsQuiet(s: State, step: Step)
    requires IsQuiet(s) && Enabled(s, step) && !IsDisturbance(step)
    ensures IsQuiet(Apply(s, step))
  {
    if !IsWorkerStep(step) && !step.Restart? {
      hide Insert, HasHeartbeat, Without;
    } else {
      hide AfterItem, Merged, UserRows, OtherRows, TopIndex, Without, Purged;
    }
  }

  lemma {:induction false} RunKeepsQuiet(s: State, run: seq<Step>)
    requires IsQuiet(s) && Legal(s, run) && forall i :: 0 <= i < |run| ==> !IsDisturbance(run[i])
    ensures IsQuiet(Exec(s, run))
    decreases |run|
  {
    hide IsQuiet, Enabled, Apply, IsDisturbance;
    if run != [] {
      StepKeepsQuiet(s, run[0]);
      RunKeepsQuiet(Apply(s, run[0]), run[1..]);
    }
  }

  /** In every interleaving, a blocked worker faces an empty inbox, however the tokens were merged,
      unless its last drain ended by a failed query, an abort or a trigger without a room. */
  lemma BlockedMeansEmpty(t: Table, run: seq<Step>)
    requires Shape(Table(Purged(t.rows), t.lastId)) && Legal(Started(t), run)
    requires IsBlocked(Exec(Started(t), run))
    ensures var s := Exec(Started(t), run);
      s.inbox.rows == [] || s.last in {QueryFailed, PreemptedByAbort, LackedRoom}
  {
    StartIsSound(t);
    RunKeepsInv(Started(t), run);
  }

  /** So it always does, as long as no query fails, nobody aborts, the room is known and the
      process goes on. */
  lemma {:induction false} NoLostWakeUp(t: Table, run: seq<Step>)
    requires Shape(Table(Purged(t.rows), t.lastId)) && Legal(Started(t), run)
    requires forall i :: 0 <= i < |run| ==> !IsDisturbance(run[i])
    requires IsBlocked(Exec(Started(t), run))
    ensures Exec(Started(t), run).inbox.rows == []
  {
    RunKeepsQuiet(Started(t), run);
    BlockedMeansEmpty(t, run);
  }

  lemma Prepend(s: State, step: Step, run: seq<Step>)
    requires Enabled(s, step) && Legal(Apply(s, step), run)
    ensures Legal(s, [step] + run) && Exec(s, [step] + run) == Exec(Apply(s, step), run)
  {
    assert ([step] + run)[1..] == run;
  }

  lemma OneRow(row: Row)
    requires !IsStale(row)
    ensures Started(Table([row], row.id)).inbox.rows == [row]
    ensures TopIndex([row]) == 0 && Without([row], 0) == []
    ensures UserRows([]) == [] && OtherRows([]) == []
  {
    assert Purged([row]) == [row] + Purged([row][1..]);
  }

  /** A run that leaves the worker blocked for that reason, with those rows in the table. */
  ghost predicate Strands(t: Table, run: seq<Step>, why: Why, left: seq<Row>) {
    && Legal(Started(t), run)
    && var s := Exec(Started(t), run);
      IsBlocked(s) && s.last == why && s.inbox.rows == left
  }

  /** A failing query strands a row that was there at the start. */
  lemma FailedQueryStrands(row: Row) returns (run: seq<Step>)
    requires row.source.User?
    ensures Strands(Table([row], row.id), run, QueryFailed, [row])
  {
    OneRow(row);
    Prepend(Started(Table([row], row.id)), Dequeue(false), []);
    run := [Dequeue(false)] + [];
  }

  // ----- a drain without interruption -----

  lemma {:induction false} ExecAppend(s: State, run: seq<Step>, run': seq<Step>)
    requires Legal(s, run) && Legal(Exec(s, run), run')
    ensures Legal(s, run + run') && Exec(s, run + run') == Exec(Exec(s, run), run')
    decreases |run|
  {
    hide Enabled, Apply;
    if run == [] {
      assert run + run' == run';
    } else {
      ExecAppend(Apply(s, run[0]), run[1..], run');
      assert (run + run')[1..] == run[1..] + run';
    }
  }

  lemma CompactIsARun(s: State) returns (run: seq<Step>)
    requires Inv(s) && s.pc.Running? && s.pc.item.source.Compact?
    ensures Legal(s, run)
    ensures var s' := Exec(s, run);
      s'.inbox == s.inbox && s'.begun == s.begun && s'.ending == s.ending && s'.pc.Top?
  {
    var s1 := Apply(s, TakeSlot);
    StepKeepsInv(s, TakeSlot);
    assert s.slot.Some? && CallIsSound(s1, s1.pc.call);
    hide Inv;
    var s2 := Apply(s1, SendOutcome(NoSession));
    Prepend(s2, Reset, []);
    Prepend(s1, SendOutcome(NoSession), [Reset] + []);
    Prepend(s, TakeSlot, [SendOutcome(NoSession)] + ([Reset] + []));
    run := [TakeSlot] + ([SendOutcome(NoSession)] + ([Reset] + []));
  }

  function EndOf(s: State, result: Result): Why {
    if result.NoRoom? then LackedRoom else if s.byNotify then PreemptedByNotify else PreemptedByAbort
  }

  lemma PromptIsARun(s: State, result: Result) returns (run: seq<Step>)
    requires s.pc.Running? && !s.pc.item.source.Compact? && s.current.Some?
    ensures Legal(s, run)
    ensures var item, s' := s.pc.item, Exec(s, run);
      && s'.inbox == AfterItem(s.inbox, item, result)
      && s'.begun == s.begun && s'.ending == s.ending
      && s'.wake == s.wake && s'.notices == s.notices
      && (if Stops(item, result) then s'.pc.Idle? && s'.last == EndOf(s, result) else s'.pc.Top?)
  {
    hide AfterItem;
    var s1 := if result.Preempted? then Apply(s, Abort) else s;
    var s2 := Apply(s1, Finish(result));
    Prepend(s2, Reset, []);
    Prepend(s1, Finish(result), [Reset] + []);
    run := [Finish(result)] + ([Reset] + []);
    if result.Preempted? {
      Prepend(s, Abort, run);
      run := [Abort] + run;
    }
  }

  lemma NextIsARun(s: State, mergeOk: bool) returns (run: seq<Step>)
    requires s.pc.Top? && !s.ending && s.inbox.rows != []
    ensures Legal(s, run)
    ensures var (item, rest), s' := Next(s.inbox, mergeOk), Exec(s, run);
      && s'.pc == Running(item)
      && s'.inbox == rest
      && s'.begun == s.begun + [item] && !s'.ending
      && s'.wake == s.wake && s'.notices == s.notices
      && s'.current == Some(item.priority) && !s'.byNotify
  {
    var s1 := Apply(s, Dequeue(true));
    var s2 := Apply(s1, Merge(mergeOk));
    hide TopIndex, UserRows, OtherRows, Merged;
    Prepend(s2, Begin, []);
    Prepend(s1, Merge(mergeOk), [Begin] + []);
    Prepend(s, Dequeue(true), [Merge(mergeOk)] + ([Begin] + []));
    run := [Dequeue(true)] + ([Merge(mergeOk)] + ([Begin] + []));
  }

  lemma TakeOnlyRow(row: Row) returns (run: seq<Step>)
    requires !IsStale(row)
    ensures Legal(Started(Table([row], row.id)), run)
    ensures var s' := Exec(Started(Table([row], row.id)), run);
      && s'.pc == Running(row) && s'.inbox == Table([], row.id)
      && s'.current.Some? && !s'.byNotify && !s'.ending && !Signalled(s')
  {
    OneRow(row);
    run := NextIsARun(Started(Table([row], row.id)), true);
  }

  /** So does an abort, and a trigger for which there is no room: the row goes back into the
      table, and nobody is there to wake the worker for it. */
  lemma RequeueStrands(row: Row, byAbort: bool) returns (run: seq<Step>)
    requires if byAbort then row.source.User? else row.source.Trigger?
    ensures Strands(Table([row], row.id), run, if byAbort then PreemptedByAbort else LackedRoom,
      [row.(id := row.id + 1)])
  {
    var first := TakeOnlyRow(row);
    var result := if byAbort then Preempted(true) else NoRoom(true);
    assert Stops(row, result) && AfterItem(Table([], row.id), row, result).rows == [row.(id := row.id + 1)];
    hide Started, Enabled, Apply, Legal, Exec, AfterItem, Stops;
    var second := PromptIsARun(Exec(Started(Table([row], row.id)), first), result);
    ExecAppend(Started(Table([row], row.id)), first, second);
    run := first + second;
  }

  /** The run processes `log`, leaves `table`, and ends blocked or at the head of the loop. */
  ghost predicate Does(s: State, run: seq<Step>, log: seq<Row>, table: Table, ends: bool) {
    && Legal(s, run)
    && var s' := Exec(s, run);
      && Inv(s') && !s'.ending
      && s'.inbox == table
      && s'.begun == s.begun + log
      && (if ends then s'.pc.Idle? else s'.pc.Top?)
  }

  lemma DoesAppend(s: State, run: seq<Step>, log: seq<Row>, table: Table, run': seq<Step>, log': seq<Row>,
    table': Table)
    requires Does(s, run, log, table, false) && Does(Exec(s, run), run', log', table', true)
    ensures Does(s, run + run', log + log', table', true)
  {
    hide Inv, Legal, Exec;
    ExecAppend(s, run, run');
  }

  /** One iteration of the loop that finds an item. */
  lemma TurnIsARun(s: State, turn: Turn) returns (run: seq<Step>)
    requires Inv(s) && s.pc.Top? && !s.ending && s.inbox.rows != []
    ensures var (item, rest) := Next(s.inbox, turn.mergeOk);
      Does(s, run, [item], AfterItem(rest, item, turn.result), Stops(item, turn.result))
  {
    var first := NextIsARun(s, turn.mergeOk);
    RunKeepsInv(s, first);
    var s1 := Exec(s, first);
    assert WakeIsSound(s1);
    hide Enabled, Apply, Next, Requeued;
    var second: seq<Step>;
    if s1.pc.item.source.Compact? {
      second := CompactIsARun(s1);
    } else {
      second := PromptIsARun(s1, turn.result);
    }
    RunKeepsInv(s1, second);
    ExecAppend(s, first, second);
    run := first + second;
  }

  lemma ReturnIsARun(s: State, ok: bool) returns (run: seq<Step>)
    requires Inv(s) && s.pc.Top? && !s.ending && (!ok || s.inbox.rows == [])
    ensures Does(s, run, [], s.inbox, true)
  {
    StepKeepsInv(s, Dequeue(ok));
    hide Inv;
    Prepend(s, Dequeue(ok), []);
    run := [Dequeue(ok)] + [];
  }

  /** What `Drain` computes is what some run of the steps does; a preemption needs an Abort. */
  lemma {:induction false} DrainIsARun(s: State, turns: nat -> Turn, k: nat) returns (run: seq<Step>)
    requires Inv(s) && s.pc.Top? && !s.ending
    ensures var d := Drain(s.inbox, turns, k); Does(s, run, d.log, d.table, true)
    decreases |s.inbox.rows|
  {
    var turn := turns(k);
    if !turn.dequeueOk || s.inbox.rows == [] {
      run := ReturnIsARun(s, turn.dequeueOk);
    } else {
      run := TurnIsARun(s, turn);
      var (item, rest) := Next(s.inbox, turn.mergeOk);
      var table := AfterItem(rest, item, turn.result);
      DrainUnfolds(s.inbox, turns, k);
      hide Drain;
      if !Stops(item, turn.result) {
        assert Exec(s, run).inbox == rest;
        hide Drain, Next, Legal, Exec, Inv;
        var more := DrainIsARun(Exec(s, run), turns, k + 1);
        hide Does;
        DoesAppend(s, run, [item], table, more, Drain(table, turns, k + 1).log, Drain(table, turns, k + 1).table);
        run := run + more;
      }
    }
  }

  // ----- no row disappears, and none is processed twice -----

  predicate InHand(s: State) {
    s.pc.Holding? || s.pc.Ready?
  }

  /** The item is these rows, merged. */
  predicate IsMadeOf(item: Row, parts: seq<Row>) {
    parts != [] && item == Merged(parts[0], parts[1..])
  }

  predicate PartsAreSound(s: State) {
    && |s.parts| == |s.begun|
    && (forall k :: 0 <= k < |s.begun| ==> IsMadeOf(s.begun[k], s.parts[k]))
    && (s.pc.Holding? ==> s.held == [s.pc.item])
    && (s.pc.Ready? ==> IsMadeOf(s.pc.item, s.held))
  }

  lemma EndingKeepsParts(s: State, result: Result)
    ensures s.pc.Running? ==> var s' := AfterFinish(s, result);
      s'.begun == s.begun && s'.parts == s.parts && s'.held == s.held && !InHand(s')
    ensures s.pc.Closing? ==> var s' := AfterReset(s);
      s'.begun == s.begun && s'.parts == s.parts && s'.held == s.held && !InHand(s')
  {
    hide AfterItem, Stops, WhyOf;
  }

  lemma WorkerKeepsParts(s: State, step: Step)
    requires Enabled(s, step) && IsWorkerStep(step) && !step.Dequeue? && !step.Merge? && !step.Begin?
    ensures var s' := Apply(s, step);
      s'.begun == s.begun && s'.parts == s.parts && s'.held == s.held && !InHand(s')
  {
    EndingKeepsParts(s, if step.Finish? then step.result else Completed);
    hide AfterFinish, AfterReset;
  }

  lemma InsertKeepsParts(s: State, step: Step)
    requires Enabled(s, step) && IsInsert(step)
    ensures var s' := Apply(s, step);
      s'.begun == s.begun && s'.parts == s.parts && s'.held == s.held && s'.pc == s.pc
  {
    hide Insert, HasHeartbeat;
  }

  lemma OthersKeepParts(s: State, step: Step)
    requires Enabled(s, step) && !IsWorkerStep(step) && !step.Restart?
    ensures var s' := Apply(s, step);
      s'.begun == s.begun && s'.parts == s.parts && s'.held == s.held && s'.pc == s.pc
  {
    if IsInsert(step) {
      InsertKeepsParts(s, step);
    } else {
      hide Without;
    }
  }

  lemma OtherStepsKeepParts(s: State, step: Step)
    requires Enabled(s, step) && !step.Dequeue? && !step.Merge? && !step.Begin? && !step.Restart?
    ensures var s' := Apply(s, step);
      s'.begun == s.begun && s'.parts == s.parts && s'.held == s.held && (InHand(s') ==> s'.pc == s.pc)
  {
    if IsWorkerStep(step) {
      WorkerKeepsParts(s, step);
    } else {
      OthersKeepParts(s, step);
    }
  }

  lemma StepKeepsParts(s: State, step: Step)
    requires PartsAreSound(s) && Enabled(s, step)
    ensures PartsAreSound(Apply(s, step))
  {
    if step.Dequeue? || step.Begin? || step.Restart? {
      hide Merged, TopIndex, Without, Purged;
    } else if step.Merge? {
      var extra := UserRows(s.inbox.rows);
      assert ([s.pc.item] + extra)[1..] == extra;
      hide UserRows, OtherRows;
    } else {
      OtherStepsKeepParts(s, step);
      hide Enabled, Apply, Merged;
    }
  }

  lemma {:induction false} RunKeepsParts(s: State, run: seq<Step>)
    requires PartsAreSound(s) && Legal(s, run)
    ensures PartsAreSound(Exec(s, run))
    decreases |run|
  {
    hide PartsAreSound, Enabled, Apply;
    if run != [] {
      StepKeepsParts(s, run[0]);
      RunKeepsParts(Apply(s, run[0]), run[1..]);
    }
  }

  /** The row is in the table, in the worker's hands, or one of the rows of a processed item. */
  ghost predicate IsAccountedFor(s: State, row: Row) {
    || row in s.inbox.rows
    || (InHand(s) && row in s.held)
    || (exists k :: 0 <= k < |s.parts| && row in s.parts[k])
  }

  lemma MergeAccounts(s: State, ok: bool, row: Row)
    requires s.pc.Holding? && IsAccountedFor(s, row)
    ensures IsAccountedFor(AfterMerge(s, ok), row)
  {
    FilterMembers(s.inbox.rows, row);
    hide Merged, UserRows, OtherRows;
  }

  lemma DequeueAccounts(s: State, ok: bool, row: Row)
    requires s.pc.Top? && IsAccountedFor(s, row)
    ensures IsAccountedFor(AfterDequeue(s, ok), row)
  {
    hide TopIndex;
    if s.inbox.rows != [] {
      var k := TopIndex(s.inbox.rows);
      assert row in s.inbox.rows ==> row == s.inbox.rows[k] || row in Without(s.inbox.rows, k);
    }
  }

  lemma BeginAccounts(s: State, row: Row)
    requires s.pc.Ready? && IsAccountedFor(s, row)
    ensures IsAccountedFor(Apply(s, Begin), row)
  {
    var s' := Apply(s, Begin);
    assert s'.parts[|s.parts|] == s.held;
    assert forall k :: 0 <= k < |s.parts| ==> s'.parts[k] == s.parts[k];
  }

  lemma WorkerTakesNoRow(s: State, step: Step)
    requires Enabled(s, step) && IsWorkerStep(step) && !step.Dequeue? && !step.Merge? && !step.Begin?
    ensures s.inbox.rows <= Apply(s, step).inbox.rows
    ensures !InHand(s)
  {
    hide WhyOf;
  }

  lemma OthersTakeNoRow(s: State, step: Step)
    requires Enabled(s, step) && !IsWorkerStep(step) && !step.Restart?
    ensures s.inbox.rows <= Apply(s, step).inbox.rows
    ensures Apply(s, step).pc == s.pc
  {
    if IsInsert(step) {
      InsertTakesNoRow(s, step);
    } else {
      OtherStepKeepsInbox(s, step);
      hide Enabled, Apply;
    }
  }

  lemma InsertTakesNoRow(s: State, step: Step)
    requires Enabled(s, step) && IsInsert(step)
    ensures s.inbox.rows <= Apply(s, step).inbox.rows
    ensures Apply(s, step).pc == s.pc
  {
    hide HasHeartbeat;
  }

  lemma StepAccounts(s: State, step: Step, row: Row)
    requires IsAccountedFor(s, row) && Enabled(s, step) && !step.Restart?
    ensures IsAccountedFor(Apply(s, step), row)
  {
    if step.Dequeue? {
      DequeueAccounts(s, step.ok, row);
    } else if step.Merge? {
      MergeAccounts(s, step.ok, row);
    } else if step.Begin? {
      BeginAccounts(s, row);
    } else {
      OtherStepsKeepParts(s, step);
      if IsWorkerStep(step) { WorkerTakesNoRow(s, step); } else { OthersTakeNoRow(s, step); }
      hide Enabled, Apply;
    }
  }

  lemma {:induction false} RunAccounts(s: State, run: seq<Step>, row: Row)
    requires Legal(s, run) && IsAccountedFor(s, row)
    requires forall i :: 0 <= i < |run| ==> !run[i].Restart?
    ensures IsAccountedFor(Exec(s, run), row)
    decreases |run|
  {
    hide IsAccountedFor, Enabled, Apply;
    if run != [] {
      StepAccounts(s, run[0], row);
      RunAccounts(Apply(s, run[0]), run[1..], row);
    }
  }

  /** From any point of a process on, a row that is in the inbox there stays in the inbox, or is
      held by the worker, or is one of the rows whose merge the worker has processed. */
  lemma NoRowDisappears(t: Table, past: seq<Step>, run: seq<Step>, row: Row)
    requires Legal(Started(t), past) && Legal(Exec(Started(t), past), run)
    requires row in Exec(Started(t), past).inbox.rows
    requires forall i :: 0 <= i < |run| ==> !run[i].Restart?
    ensures var s := Exec(Exec(Started(t), past), run);
      || row in s.inbox.rows
      || (InHand(s) && row in s.held && IsMadeOf(s.pc.item, s.held))
      || (exists k :: 0 <= k < |s.begun| == |s.parts| && row in s.parts[k] && IsMadeOf(s.begun[k], s.parts[k]))
  {
    var s := Exec(Started(t), past);
    RunKeepsParts(Started(t), past);
    RunKeepsParts(s, run);
    RunAccounts(s, run, row);
    hide Legal, Exec, Merged;
  }

  ghost function Ids(rows: seq<Row>): set<int> {
    set row | row in rows :: row.id
  }

  /** A row is in one place: in the table, in hand, or in one processed item. */
  ghost predicate IsInOnePlace(s: State) {
    && (forall k :: 0 <= k < |s.parts| ==> Ids(s.parts[k]) !! Ids(s.inbox.rows))
    && (forall k, l :: 0 <= k < l < |s.parts| ==> Ids(s.parts[k]) !! Ids(s.parts[l]))
    && (InHand(s) ==> Ids(s.held) !! Ids(s.inbox.rows))
    && (InHand(s) ==> forall k :: 0 <= k < |s.parts| ==> Ids(s.parts[k]) !! Ids(s.held))
    && (forall k, row :: 0 <= k < |s.parts| && row in s.parts[k] ==> row.id <= s.inbox.lastId)
    && (InHand(s) ==> forall row :: row in s.held ==> row.id <= s.inbox.lastId)
  }

  lemma TakenRowIsApart(rows: seq<Row>, k: nat)
    requires Ascending(rows) && k < |rows|
    ensures Ids(Without(rows, k)) !! Ids([rows[k]])
    ensures Ids(Without(rows, k)) <= Ids(rows) && Ids([rows[k]]) <= Ids(rows)
  {
    assert rows[k] in rows;
    forall row | row in Without(rows, k) ensures row in rows && row.id != rows[k].id {
    }
  }

  lemma DequeueKeepsPlaces(s: State, ok: bool)
    requires IsInOnePlace(s) && s.pc.Top? && Shape(s.inbox)
    ensures IsInOnePlace(AfterDequeue(s, ok))
  {
    if s.inbox.rows != [] {
      TakenRowIsApart(s.inbox.rows, TopIndex(s.inbox.rows));
    }
    hide TopIndex, Without, Ids;
  }

  lemma UsersAndOthers(rows: seq<Row>)
    requires Ascending(rows)
    ensures Ids(UserRows(rows)) !! Ids(OtherRows(rows))
    ensures Ids(UserRows(rows)) <= Ids(rows) && Ids(OtherRows(rows)) <= Ids(rows)
    ensures forall row :: row in UserRows(rows) ==> row in rows
  {
    forall row { FilterMembers(rows, row); }
    hide UserRows, OtherRows;
    forall a, b | a in UserRows(rows) && b in OtherRows(rows) ensures a.id != b.id {
      var i :| 0 <= i < |rows| && rows[i] == a;
      var j :| 0 <= j < |rows| && rows[j] == b;
      assert i != j;
    }
  }

  lemma MergeKeepsPlaces(s: State, ok: bool)
    requires IsInOnePlace(s) && s.pc.Holding? && Shape(s.inbox)
    ensures IsInOnePlace(AfterMerge(s, ok))
  {
    var users := UserRows(s.inbox.rows);
    UsersAndOthers(s.inbox.rows);
    hide UserRows, OtherRows, Merged;
    assert Ids(s.held + users) == Ids(s.held) + Ids(users);
  }

  lemma BeginKeepsPlaces(s: State)
    requires IsInOnePlace(s) && s.pc.Ready?
    ensures IsInOnePlace(Apply(s, Begin))
  {
    hide Ids;
  }

  predicate IsOneRowMore(t: Table, t': Table) {
    && t'.lastId == t.lastId + 1
    && |t'.rows| == |t.rows| + 1
    && t'.rows == t.rows + [t'.rows[|t.rows|]]
    && t'.rows[|t.rows|].id == t'.lastId
  }

  lemma OtherStepsKeepPlaces(s: State, s': State)
    requires IsInOnePlace(s)
    requires s'.parts == s.parts && s'.held == s.held && (InHand(s') ==> InHand(s))
    requires s'.inbox == s.inbox || IsOneRowMore(s.inbox, s'.inbox)
    ensures IsInOnePlace(s')
  {
    if s'.inbox != s.inbox {
      assert Ids(s'.inbox.rows) == Ids(s.inbox.rows) + {s'.inbox.lastId};
    }
  }

  lemma OthersInsertOneRow(s: State, step: Step)
    requires Enabled(s, step) && !step.Dequeue? && !step.Merge? && !step.Begin? && !step.Restart?
    ensures Apply(s, step).inbox == s.inbox || IsOneRowMore(s.inbox, Apply(s, step).inbox)
  {
    if !IsInsert(step) && !step.Finish? {
      if !IsWorkerStep(step) { OtherStepKeepsInbox(s, step); }
      hide AfterItem, Stops, WhyOf, Without;
    }
  }

  lemma StepKeepsPlaces(s: State, step: Step)
    requires IsInOnePlace(s) && InboxIsSound(s) && Enabled(s, step)
    ensures IsInOnePlace(Apply(s, step))
  {
    if step.Dequeue? {
      DequeueKeepsPlaces(s, step.ok);
    } else if step.Merge? {
      MergeKeepsPlaces(s, step.ok);
    } else if step.Begin? {
      BeginKeepsPlaces(s);
    } else if !step.Restart? {
      OtherStepsKeepParts(s, step);
      OthersInsertOneRow(s, step);
      hide Enabled, Apply, IsInOnePlace;
      OtherStepsKeepPlaces(s, Apply(s, step));
    }
  }

  lemma {:induction false} RunKeepsPlaces(s: State, run: seq<Step>)
    requires Inv(s) && IsInOnePlace(s) && Legal(s, run)
    ensures IsInOnePlace(Exec(s, run))
    decreases |run|
  {
    hide InboxIsSound, WakeIsSound, SlotIsSound, CallsAreSound, IsInOnePlace, Enabled, Apply;
    if run != [] {
      StepKeepsInv(s, run[0]);
      StepKeepsPlaces(s, run[0]);
      RunKeepsPlaces(Apply(s, run[0]), run[1..]);
    }
  }

  /** No row is processed twice by a process, or processed and still queued: what is put back
      is a new row. */
  lemma NoRowIsProcessedTwice(t: Table, run: seq<Step>)
    requires Shape(Table(Purged(t.rows), t.lastId)) && Legal(Started(t), run)
    ensures var s := Exec(Started(t), run);
      && (forall k, l :: 0 <= k < l < |s.parts| ==> Ids(s.parts[k]) !! Ids(s.parts[l]))
      && (forall k :: 0 <= k < |s.parts| ==> Ids(s.parts[k]) !! Ids(s.inbox.rows))
  {
    StartIsSound(t);
    RunKeepsPlaces(Started(t), run);
  }

  // ----- merged contents -----

  lemma {:induction false} JoinedHolds(content: string, extra: seq<Row>, k: nat) returns (before: string, after: string)
    requires k < |extra|
    ensures Joined(content, extra) == before + extra[k].content + after
    decreases |extra|
  {
    if k == 0 {
      after := if |extra| == 1 then "" else "\n" + Joined(extra[1].content, extra[1..][1..]);
      before := content + "\n";
    } else {
      before, after := JoinedHolds(extra[0].content, extra[1..], k - 1);
      before := content + "\n" + before;
    }
  }

  /** A merged item has the content of each of its parts in it. */
  lemma MergedCarries(item: Row, parts: seq<Row>, k: nat) returns (before: string, after: string)
    requires IsMadeOf(item, parts) && k < |parts|
    ensures item.content == before + parts[k].content + after
  {
    if k > 0 {
      before, after := JoinedHolds(parts[0].content, parts[1..], k - 1);
    } else {
      before := "";
      after := if |parts| == 1 then "" else "\n" + Joined(parts[1].content, parts[1..][1..]);
    }
  }

  // ----- preemption -----

  /** Notices have the priorities of their sources, and an item of user priority is safe from them. */
  ghost predicate UsersAreSafe(s: State) {
    && (forall k :: 0 <= k < |s.notices| ==> s.notices[k].priority >= USER_PRIORITY)
    && (s.current == Some(USER_PRIORITY) ==> !s.byNotify)
    && (s.pc.Running? ==> s.current == Some(s.pc.item.priority))
  }

  lemma TakingKeepsUsersSafe(s: State, ok: bool)
    requires UsersAreSafe(s)
    ensures UsersAreSafe(AfterDequeue(s, ok))
    ensures s.pc.Holding? ==> UsersAreSafe(AfterMerge(s, ok))
  {
    hide Merged, UserRows, OtherRows, TopIndex, Without;
  }

  lemma EndingKeepsUsersSafe(s: State, result: Result)
    requires UsersAreSafe(s)
    ensures s.pc.Running? ==> UsersAreSafe(AfterFinish(s, result))
    ensures s.pc.Closing? ==> UsersAreSafe(AfterReset(s))
  {
    hide AfterItem, Stops, WhyOf;
  }

  lemma WorkerKeepsUsersSafe(s: State, step: Step)
    requires UsersAreSafe(s) && Enabled(s, step) && IsWorkerStep(step)
    ensures UsersAreSafe(Apply(s, step))
  {
    if step.Dequeue? || step.Merge? {
      TakingKeepsUsersSafe(s, step.ok);
    } else {
      EndingKeepsUsersSafe(s, if step.Finish? then step.result else Completed);
    }
    hide AfterDequeue, AfterMerge, AfterFinish, AfterReset;
  }

  lemma InsertKeepsUsersSafe(s: State, step: Step)
    requires UsersAreSafe(s) && Enabled(s, step) && IsInsert(step)
    ensures UsersAreSafe(Apply(s, step))
  {
    hide Insert, HasHeartbeat;
  }

  lemma StepKeepsUsersSafe(s: State, step: Step)
    requires UsersAreSafe(s) && Enabled(s, step)
    ensures UsersAreSafe(Apply(s, step))
  {
    if IsWorkerStep(step) {
      WorkerKeepsUsersSafe(s, step);
    } else if IsInsert(step) {
      InsertKeepsUsersSafe(s, step);
    } else {
      hide Purged;
    }
  }

  lemma {:induction false} RunKeepsUsersSafe(s: State, run: seq<Step>)
    requires UsersAreSafe(s) && Legal(s, run)
    ensures UsersAreSafe(Exec(s, run))
    decreases |run|
  {
    hide UsersAreSafe, Enabled, Apply;
    if run != [] {
      StepKeepsUsersSafe(s, run[0]);
      RunKeepsUsersSafe(Apply(s, run[0]), run[1..]);
    }
  }

  /** No arrival preempts a user's message, or a compact request: only Abort and the shutdown
      can, in any interleaving. */
  lemma NobodyPreemptsUsers(t: Table, run: seq<Step>)
    requires Shape(Table(Purged(t.rows), t.lastId)) && Legal(Started(t), run)
    requires var s := Exec(Started(t), run); s.pc.Running? && (s.pc.item.source.User? || s.pc.item.source.Compact?)
    ensures !Exec(Started(t), run).byNotify
  {
    StartIsSound(t);
    RunKeepsInv(Started(t), run);
    RunKeepsUsersSafe(Started(t), run);
  }

  // ----- the compact hand-off, over every run -----

  /** The result slot is set exactly while one call is about to insert or to take its claim back,
      one compact row is queued, or the worker holds that row; there is never a second row, no
      channel is sent two outcomes, no send blocks, and a compact item always finds the slot set. */
  lemma CompactHandOff(t: Table, run: seq<Step>)
    requires Shape(Table(Purged(t.rows), t.lastId)) && Legal(Started(t), run)
    ensures var s := Exec(Started(t), run);
      && (s.slot.Some? <==> Claiming(s) + CountCompact(s.inbox.rows) + Held(s) == 1)
      && (s.slot.None? <==> Claiming(s) + CountCompact(s.inbox.rows) + Held(s) == 0)
      && (forall c, d :: 0 <= c < |s.calls| && 0 <= d < |s.calls| && IsClaiming(s, c) && IsClaiming(s, d) ==> c == d)
      && (forall c :: 0 <= c < |s.calls| ==> |s.calls[c].channel| <= s.calls[c].sent <= 1)
      && (s.pc.Sending? ==> forall outcome :: Enabled(s, SendOutcome(outcome)))
      && (Enabled(s, TakeSlot) ==> s.slot.Some?)
  {
    StartIsSound(t);
    RunKeepsInv(Started(t), run);
    var s := Exec(Started(t), run);
    assert s.pc.Sending? ==> CallIsSound(s, s.pc.call);
    forall c | 0 <= c < |s.calls| ensures |s.calls[c].channel| <= s.calls[c].sent <= 1 {
      assert CallIsSound(s, c);
    }
  }

  /** Undisturbed, a worker that is blocked has answered every Compact call that waits. */
  lemma EveryCompactIsAnswered(t: Table, run: seq<Step>, c: nat)
    requires Shape(Table(Purged(t.rows), t.lastId)) && Legal(Started(t), run)
    requires forall i :: 0 <= i < |run| ==> !IsDisturbance(run[i])
    requires IsBlocked(Exec(Started(t), run)) && InPhase(Exec(Started(t), run), c, Waiting)
    ensures |Exec(Started(t), run).calls[c].channel| == 1
  {
    NoLostWakeUp(t, run);
    StartIsSound(t);
    RunKeepsInv(Started(t), run);
    var s := Exec(Started(t), run);
    assert CallIsSound(s, c);
  }
}
