/** What arrivals do to the worker and what the end of an item does to the inbox, said of sources;
    and how often the worker wakes up. */
module WorkerSteps {
  import opened Common
  import opened InboxModel
  import opened InboxDrain
  import opened InboxOrder
  import opened WorkerModel

  // ----- arrivals -----

  /** The source of the row that this step puts into the table, if it puts one there. */
  predicate Brings(s: State, step: Step, source: Source) {
    match step
    case Add(src, _, _) => src == source
    case AddCompact(_, ok) => ok && source == Compact
    case AddHeartbeat => source == Heartbeat && forall row :: row in s.inbox.rows ==> row.source != Heartbeat
    case _ => false
  }

  /** Who interrupts whom: users and compact requests interrupt triggers and heartbeats, triggers
      interrupt heartbeats. */
  predicate Interrupts(arriving: Source, running: Source) {
    match arriving
    case User => running == Trigger || running == Heartbeat
    case Compact => running == Trigger || running == Heartbeat
    case Trigger => running == Heartbeat
    case Heartbeat => false
  }

  /** An arrival adds a row and, when it is announced while an item is being processed, cancels
      that item exactly when it may interrupt it. */
  lemma ArrivalCancelsIff(t: Table, run: seq<Step>, insert: Step, source: Source)
    requires Shape(Table(Purged(t.rows), t.lastId)) && Legal(Started(t), run)
    requires var s := Exec(Started(t), run); s.pc.Running? && Enabled(s, insert) && Brings(s, insert, source)
    ensures var s := Exec(Started(t), run);
      var s1 := Apply(s, insert);
      var announce := NotifyCancel(|s.notices|);
      && |s1.inbox.rows| == |s.inbox.rows| + 1
      && s1.inbox.rows[|s.inbox.rows|].source == source
      && s1.byNotify == s.byNotify
      && Enabled(s1, announce)
      && (Apply(s1, announce).byNotify <==> s.byNotify || Interrupts(source, s.pc.item.source))
  {
    StartIsSound(t);
    RunKeepsInv(Started(t), run);
    RunKeepsUsersSafe(Started(t), run);
    hide Legal, Exec;
    var s := Exec(Started(t), run);
    assert InboxIsSound(s);
    hide Inv, Shape;
    AnnouncedIs(s, insert, source);
  }

  lemma AnnouncedIs(s: State, insert: Step, source: Source)
    requires Enabled(s, insert) && Brings(s, insert, source)
    ensures var s1 := Apply(s, insert);
      && s1.inbox == Insert(s.inbox, PriorityOf(source), source, s1.inbox.rows[|s.inbox.rows|].content,
                            s1.inbox.rows[|s.inbox.rows|].replyTo)
      && |s1.notices| == |s.notices| + 1 && s1.notices[|s.notices|].priority == PriorityOf(source)
      && !s1.notices[|s.notices|].tokenNext
      && s1.current == s.current && s1.byNotify == s.byNotify
  {
    hide AfterDequeue, AfterMerge, AfterFinish, AfterReset, AfterCancel, AfterToken, Started;
    if HasHeartbeat(s.inbox.rows) {
      var i :| 0 <= i < |s.inbox.rows| && s.inbox.rows[i].source.Heartbeat?;
      assert s.inbox.rows[i] in s.inbox.rows;
    }
  }

  /** An item starts with its context open, whatever happened to the one before it. */
  lemma ItemStartsUncancelled(s: State, ok: bool)
    requires s.pc.Ready? && !s.ending
    ensures Enabled(s, Begin) && !Enabled(Apply(s, Begin), Finish(Preempted(ok)))
  {
  }

  /** A heartbeat that finds one queued changes nothing; any other is queued and announced. */
  lemma HeartbeatStep(s: State)
    ensures Apply(s, AddHeartbeat).inbox == WithHeartbeat(s.inbox)
    ensures (exists row :: row in s.inbox.rows && row.source == Heartbeat) ==> Apply(s, AddHeartbeat) == s
  {
    HeartbeatIsQueuedOnce(s.inbox);
  }

  // ----- the end of an item -----

  /** In the machine, too, an item ends the drain in the cases of `EndsDrain` only, and is put back
      under a fresh id exactly when it is no heartbeat and its insert works. */
  lemma FinishEndsAsItShould(s: State, result: Result)
    requires Enabled(s, Finish(result))
    ensures var s', item := Apply(s, Finish(result)), s.pc.item;
      && s'.pc.Closing?
      && (s'.pc.why.Some? <==> EndsDrain(item.source, result))
      && (result.NoRoom? ==> s'.pc.why != Some(PreemptedByNotify) && s'.pc.why != Some(PreemptedByAbort))
      && s'.inbox.rows == s.inbox.rows +
          (if EndsDrain(item.source, result) && result.requeueOk && item.source != Heartbeat
           then [item.(id := s.inbox.lastId + 1)] else [])
  {
  }

  /** The reply to a merged prompt goes to its last part; the rest is as in the first. */
  lemma MergedRepliesToTheLast(item: Row, parts: seq<Row>)
    requires IsMadeOf(item, parts)
    ensures item.replyTo == parts[|parts| - 1].replyTo
    ensures item.id == parts[0].id && item.priority == parts[0].priority && item.source == parts[0].source
  {
  }

  // ----- compact calls and the shutdown -----

  /** The outcome of a compaction goes into the channel of the call it was made for, and from there to
      the caller, who is then gone. */
  lemma OutcomeIsDelivered(s: State, outcome: Outcome)
    requires Inv(s) && Enabled(s, SendOutcome(outcome))
    ensures var c, s' := s.pc.call, Apply(s, SendOutcome(outcome));
      && s'.calls == s.calls[c := s.calls[c].(channel := [outcome], sent := 1)]
      && (s.calls[c].phase.Waiting? ==>
            && Enabled(s', TakeOutcome(c))
            && Apply(s', TakeOutcome(c)).calls[c] == s'.calls[c].(phase := Left, channel := []))
  {
    hide Inv;
    SendingCallIsEmpty(s);
    hide Shape, AfterDequeue, AfterMerge, AfterFinish, AfterReset, AfterCancel, AfterToken, Started, Inserted;
    assert [] + [outcome] == [outcome];
  }

  lemma SendingCallIsEmpty(s: State)
    requires Inv(s) && s.pc.Sending? && s.pc.call < |s.calls|
    ensures s.calls[s.pc.call].channel == [] && s.calls[s.pc.call].sent == 0
  {
    assert CallIsSound(s, s.pc.call);
  }

  /** A caller who gives up waiting is gone, too; whoever is gone stays so. */
  lemma CallersLeaveOnce(s: State, step: Step, c: nat)
    requires Enabled(s, step) && !step.Restart?
    requires InPhase(s, c, Left) || step == GiveUp(c) || step == TakeOutcome(c) || step == Clear(c)
    ensures InPhase(Apply(s, step), c, Left)
  {
    if TouchesCalls(step) {
      hide AfterDequeue, AfterMerge, AfterFinish, AfterReset, AfterCancel, Insert, HasHeartbeat, Started, Without;
    } else {
      QuietStep(s, step);
      hide Apply, Enabled;
    }
  }

  /** Once the process is to end, the worker takes no further item: at most the one in hand is begun. */
  lemma {:induction false} ShutdownEndsTheWork(s: State, run: seq<Step>)
    requires s.ending && Legal(s, run) && forall i :: 0 <= i < |run| ==> !run[i].Restart?
    ensures Exec(s, run).ending
    ensures |Exec(s, run).begun| + (if InHand(Exec(s, run)) then 1 else 0) <= |s.begun| + (if InHand(s) then 1 else 0)
    decreases |run|
  {
    if run != [] {
      EndingTakesNothing(s, run[0]);
      hide Enabled, Apply;
      ShutdownEndsTheWork(Apply(s, run[0]), run[1..]);
    }
  }

  lemma EndingTakesNothing(s: State, step: Step)
    requires s.ending && Enabled(s, step) && !step.Restart?
    ensures var s' := Apply(s, step);
      s'.ending && |s'.begun| + (if InHand(s') then 1 else 0) <= |s.begun| + (if InHand(s) then 1 else 0)
  {
    if IsWorkerStep(step) {
      hide TopIndex, Without, AfterItem, Stops, WhyOf, Merged, UserRows, OtherRows;
      hide Inserted, AfterCancel, AfterToken, Started, HasHeartbeat;
    } else {
      OthersLeaveTheWorkerAlone(s, step);
      hide Apply, Enabled;
    }
  }

  lemma OthersLeaveTheWorkerAlone(s: State, step: Step)
    requires Enabled(s, step) && !IsWorkerStep(step) && !step.Restart?
    ensures var s' := Apply(s, step); s'.pc == s.pc && s'.begun == s.begun && (s.ending ==> s'.ending)
  {
    hide AfterDequeue, AfterMerge, AfterFinish, AfterReset, Insert, HasHeartbeat, Started;
  }

  // ----- wake-ups -----

  function Wakes(run: seq<Step>): nat {
    if run == [] then 0 else (if run[0].Wake? then 1 else 0) + Wakes(run[1..])
  }

  function Tokens(run: seq<Step>): nat {
    if run == [] then 0 else (if run[0].NotifyToken? then 1 else 0) + Tokens(run[1..])
  }

  /** Each time the worker wakes up it uses up a token that somebody has sent: over every run it wakes
      up at most as often as it was notified. */
  lemma {:induction false} WakesAreSignalled(s: State, run: seq<Step>)
    requires Legal(s, run)
    ensures Wakes(run) + (if Exec(s, run).wake then 1 else 0) <= Tokens(run) + (if s.wake then 1 else 0)
    decreases |run|
  {
    if run != [] {
      TokenGoes(s, run[0]);
      hide Apply, Enabled;
      WakesAreSignalled(Apply(s, run[0]), run[1..]);
    }
  }

  lemma TokenGoes(s: State, step: Step)
    requires Enabled(s, step)
    ensures step.Wake? ==> s.wake && !Apply(s, step).wake
    ensures Apply(s, step).wake ==> s.wake || step.NotifyToken?
  {
    hide Purged;
  }
}
