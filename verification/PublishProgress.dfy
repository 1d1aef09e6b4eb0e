/** Bounded work: a measure that every publish lowers, and three passes that always suffice. */
module PublishProgress {
  import opened Breakers
  import opened RelayNames
  import opened PublishModel
  import opened PublishSafety

  // ----- the measure -----

  /** Publishes that relay r may still see of the item. */
  ghost function TriesLeft(it: Item, r: Relay): int {
    REJECT_THRESHOLD - RejectCount(it, r)
  }

  ghost function SumOver(it: Item, relays: set<Relay>): int {
    if relays == {} then 0
    else var r :| r in relays; TriesLeft(it, r) + SumOver(it, relays - {r})
  }

  ghost function Budget(items: seq<Item>): int {
    if items == [] then 0
    else
      var last := items[|items| - 1];
      Budget(items[..|items| - 1]) + SumOver(last, last.pending)
  }

  lemma {:induction false} SumSplit(it: Item, relays: set<Relay>, r: Relay)
    requires r in relays
    ensures SumOver(it, relays) == TriesLeft(it, r) + SumOver(it, relays - {r})
    decreases relays
  {
    var pick :| pick in relays && SumOver(it, relays) == TriesLeft(it, pick) + SumOver(it, relays - {pick});
    if pick != r {
      SumSplit(it, relays - {pick}, r);
      SumSplit(it, relays - {r}, pick);
      assert relays - {pick} - {r} == relays - {r} - {pick};
    }
  }

  lemma {:induction false} SumSame(a: Item, b: Item, relays: set<Relay>)
    requires forall r :: r in relays ==> RejectCount(a, r) == RejectCount(b, r)
    ensures SumOver(a, relays) == SumOver(b, relays)
    decreases relays
  {
    if relays != {} {
      var r :| r in relays;
      SumSplit(a, relays, r);
      SumSplit(b, relays, r);
      SumSame(a, b, relays - {r});
    }
  }

  lemma {:induction false} SumFresh(it: Item, relays: set<Relay>)
    requires it.rejects == map[]
    ensures SumOver(it, relays) == REJECT_THRESHOLD * |relays|
    decreases relays
  {
    if relays != {} {
      var r :| r in relays;
      SumSplit(it, relays, r);
      SumFresh(it, relays - {r});
    }
  }

  lemma {:induction false} SumNonNegative(it: Item, relays: set<Relay>)
    requires forall r :: r in relays ==> RejectCount(it, r) < REJECT_THRESHOLD
    ensures SumOver(it, relays) >= 0
    decreases relays
  {
    if relays != {} {
      var r :| r in relays;
      SumSplit(it, relays, r);
      SumNonNegative(it, relays - {r});
    }
  }

  /** One publish costs the item at least one try, whatever the relay answers. */
  lemma AttemptCosts(it: Item, r: Relay, stuck: set<int>)
    requires r in it.pending && RejectCount(it, r) < REJECT_THRESHOLD
    ensures var a := AcceptedItem(it, r, stuck); SumOver(a, a.pending) < SumOver(it, it.pending)
    ensures var b := RejectedItem(it, r); SumOver(b, b.pending) < SumOver(it, it.pending)
  {
    var a, b := AcceptedItem(it, r, stuck), RejectedItem(it, r);
    SumSplit(it, it.pending, r);
    SumSame(a, it, it.pending - {r});
    SumSame(b, it, it.pending - {r});
    if r in b.pending {
      SumSplit(b, b.pending, r);
    }
  }

  lemma {:induction false} BudgetUpdate(items: seq<Item>, i: nat, it: Item)
    requires i < |items|
    ensures Budget(items[i := it]) == Budget(items) - SumOver(items[i], items[i].pending) + SumOver(it, it.pending)
  {
    var last := |items| - 1;
    if i == last {
      assert items[i := it][..last] == items[..last];
    } else {
      BudgetUpdate(items[..last], i, it);
      assert items[i := it][..last] == items[..last][i := it];
    }
  }

  ghost predicate TriesOk(items: seq<Item>) {
    forall i, r :: 0 <= i < |items| && r in items[i].pending ==> RejectCount(items[i], r) < REJECT_THRESHOLD
  }

  ghost predicate NotRejectedOut(s: State) {
    forall it, r :: it in s.q.items && r in it.pending ==> Rejections(s.log, it.serial, r) < REJECT_THRESHOLD
  }

  lemma InvTriesOk(s: State)
    requires Inv(s)
    ensures TriesOk(s.q.items) && NotRejectedOut(s)
  {
    forall i, r | 0 <= i < |s.q.items| && r in s.q.items[i].pending
      ensures Rejections(s.log, s.q.items[i].serial, r) < REJECT_THRESHOLD
      ensures RejectCount(s.q.items[i], r) == Rejections(s.log, s.q.items[i].serial, r)
    {
      var it := s.q.items[i];
      assert ItemOk(it, s.log) && !Finished(s.log, it.serial, r);
      assert Accepts(s.log, it.serial, r) + Rejections(s.log, it.serial, r) <= REJECT_THRESHOLD;
    }
  }

  lemma BudgetAppend(items: seq<Item>, it: Item)
    ensures Budget(items + [it]) == Budget(items) + SumOver(it, it.pending)
  {
    assert (items + [it])[..|items|] == items;
  }

  lemma {:induction false} EvictLowersBudget(items: seq<Item>, now: int, stuck: set<int>)
    requires TriesOk(items)
    ensures 0 <= Budget(Staying(items, now, stuck)) <= Budget(items)
  {
    if items != [] {
      var init, last := items[..|items| - 1], items[|items| - 1];
      EvictLowersBudget(init, now, stuck);
      SumNonNegative(last, last.pending);
      var before := Staying(init, now, stuck);
      BudgetAppend(before, last);
      BudgetAppend(init, last);
      assert items == init + [last];
      if !Stays(last, now, stuck) {
        assert Staying(items, now, stuck) == before;
      }
    }
  }

  lemma {:induction false} BudgetNonNegative(items: seq<Item>)
    requires TriesOk(items)
    ensures Budget(items) >= 0
  {
    if items != [] {
      BudgetNonNegative(items[..|items| - 1]);
      SumNonNegative(items[|items| - 1], items[|items| - 1].pending);
    }
  }

  /** What a step adds to the budget: three tries for each relay of a new event. */
  ghost function Granted(step: Step): nat {
    if step.Enqueue? then REJECT_THRESHOLD * |Names(step.relays)| else 0
  }

  lemma StepChangesBudget(s: State, step: Step)
    requires Inv(s) && Enabled(s, step) && !step.Restart?
    ensures Budget(Apply(s, step).q.items) + (if step.Publish? then 1 else 0) <= Budget(s.q.items) + Granted(step)
  {
    InvTriesOk(s);
    match step
    case Enqueue(_, relays, _, _, _) =>
      if relays != [] {
        var after := Apply(s, step).q.items;
        var it := after[|s.q.items|];
        assert after[..|s.q.items|] == s.q.items;
        SumFresh(it, it.pending);
      }
    case Begin(now, stuck) => EvictLowersBudget(s.q.items, now, stuck);
    case End(now, _, _, stuck, _) => EvictLowersBudget(s.q.items, now, stuck);
    case Publish(ok, stuck) =>
      PendingItem(s.q.items, s.phase.relay, s.phase.rest[0]);
      var i := IndexOf(s.q.items, s.phase.rest[0]);
      AttemptCosts(s.q.items[i], s.phase.relay, stuck);
      BudgetUpdate(s.q.items, i, AcceptedItem(s.q.items[i], s.phase.relay, stuck));
      BudgetUpdate(s.q.items, i, RejectedItem(s.q.items[i], s.phase.relay));
    case _ =>
  }

  ghost function Publishes(steps: seq<Step>): nat {
    if steps == [] then 0 else (if steps[0].Publish? then 1 else 0) + Publishes(steps[1..])
  }

  ghost function TotalGranted(steps: seq<Step>): nat {
    if steps == [] then 0 else Granted(steps[0]) + TotalGranted(steps[1..])
  }

  /** A process makes no more publishes than three for each pair of event and relay it was
      given, less what is still left to try. */
  lemma {:induction false} PublishesAreBounded(s: State, steps: seq<Step>)
    requires Inv(s) && Legal(s, steps)
    requires forall k :: 0 <= k < |steps| ==> !steps[k].Restart?
    ensures Publishes(steps) + Budget(Exec(s, steps).q.items) <= Budget(s.q.items) + TotalGranted(steps)
    ensures Budget(Exec(s, steps).q.items) >= 0
    decreases |steps|
  {
    InvTriesOk(s);
    BudgetNonNegative(s.q.items);
    if steps != [] {
      StepChangesBudget(s, steps[0]);
      StepKeepsInv(s, steps[0]);
      PublishesAreBounded(Apply(s, steps[0]), steps[1..]);
    }
  }

  // ----- three passes empty the queue -----

  /** No new event, no restart, no cancellation, and every connect succeeds; what the relays
      answer to a publish is left open. */
  ghost predicate Undisturbed(step: Step) {
    match step
    case Enqueue(_, _, _, _, _) => false
    case Connect(_, ok, _) => ok
    case Bail => false
    case Leave(cancelled) => !cancelled
    case Restart(_, _) => false
    case _ => true
  }

  ghost predicate AllClosed(breakers: map<Relay, Breaker>) {
    forall r :: r in breakers ==> breakers[r].state == Closed
  }

  ghost predicate Tried(s: State, it: Item, r: Relay, k: nat) {
    Rejections(s.log, it.serial, r) >= k
  }

  /** The pair of `it` and `r` still has its turn in this pass. */
  ghost predicate ToCome(phase: Phase, it: Item, r: Relay) {
    match phase
    case Loop(work, _) => r in work && it.serial in work[r]
    case Batch(work, _, relay, rest) => (r in work && it.serial in work[r]) || (r == relay && it.serial in rest)
    case _ => false
  }

  /** k passes are behind us: what is still pending was rejected k times, and once the
      pass under way has had its turn with it, k + 1 times. */
  ghost predicate Round(s: State, k: nat) {
    && AllClosed(s.q.breakers)
    && forall it, r :: it in s.q.items && r in it.pending ==>
         && Tried(s, it, r, k)
         && (s.phase.Idle? || ToCome(s.phase, it, r) || Tried(s, it, r, k + 1))
  }

  lemma BeginKeepsRound(s: State, step: Step, k: nat)
    requires Inv(s) && Round(s, k) && step.Begin? && Enabled(s, step)
    ensures Round(Apply(s, step), k)
  {
    var q, t := Evicted(s.q, step.now, step.stuck), Apply(s, step);
    forall it, r | it in t.q.items && r in it.pending
      ensures Tried(t, it, r, k) && ToCome(t.phase, it, r)
    {
      InStaying(s.q.items, step.now, step.stuck, it);
      InPendingOn(q.items, r, it.serial);
      assert BreakerOf(q, r).state == Closed;
    }
  }

  /** A pair that is still pending after a publish: its turn came with that publish, or its
      place in the pass is as before. */
  lemma PairAfterPublish(s: State, step: Step, k: nat, was: Item, r: Relay)
    requires step.Publish? && Enabled(s, step)
    requires Tried(s, was, r, k) && (ToCome(s.phase, was, r) || Tried(s, was, r, k + 1))
    requires was.serial == s.phase.rest[0] && r == s.phase.relay ==> !step.ok
    ensures var t := Apply(s, step);
            Tried(t, was, r, k) && (ToCome(t.phase, was, r) || Tried(t, was, r, k + 1))
  {
    CountsAfter(s.log, Attempt(s.phase.rest[0], s.phase.relay, step.ok), was.serial, r);
  }

  lemma PublishKeepsRound(s: State, step: Step, k: nat)
    requires Inv(s) && Round(s, k) && step.Publish? && Enabled(s, step)
    ensures Round(Apply(s, step), k)
  {
    var t := Apply(s, step);
    forall it, r | it in t.q.items && r in it.pending
      ensures Tried(t, it, r, k) && (ToCome(t.phase, it, r) || Tried(t, it, r, k + 1))
    {
      var was := ItemBefore(s, step, it, r);
      PairAfterPublish(s, step, k, was, r);
    }
  }

  lemma ItemBefore(s: State, step: Step, it: Item, r: Relay) returns (was: Item)
    requires Inv(s) && step.Publish? && Enabled(s, step)
    requires it in Apply(s, step).q.items && r in it.pending
    ensures was in s.q.items && was.serial == it.serial && r in was.pending
    ensures was.serial == s.phase.rest[0] && r == s.phase.relay ==> !step.ok
  {
    var after := Apply(s, step).q.items;
    var j :| 0 <= j < |after| && after[j] == it;
    PendingItem(s.q.items, s.phase.relay, s.phase.rest[0]);
    was := s.q.items[j];
  }

  lemma EvictKeepsTried(s: State, step: Step, k: nat)
    requires Inv(s) && Round(s, k) && step.End? && Enabled(s, step)
    ensures Round(Apply(s, step), k + 1)
  {
    forall it | it in Apply(s, step).q.items ensures it in s.q.items {
      InStaying(s.q.items, step.now, step.stuck, it);
    }
  }

  lemma StepKeepsRound(s: State, step: Step, k: nat)
    requires Inv(s) && Round(s, k) && Enabled(s, step) && Undisturbed(step)
    ensures Round(Apply(s, step), if step.End? then k + 1 else k)
  {
    match step
    case Begin(_, _) => BeginKeepsRound(s, step, k);
    case Publish(_, _) => PublishKeepsRound(s, step, k);
    case End(_, _, _, _, _) => EvictKeepsTried(s, step, k);
    case _ =>
  }

  lemma {:induction false} NothingStays(items: seq<Item>, now: int, stuck: set<int>)
    requires forall it :: it in items ==> it.pending == {}
    ensures Staying(items, now, stuck) == []
  {
    if items != [] {
      NothingStays(items[..|items| - 1], now, stuck);
    }
  }

  lemma ThirdPassEmpties(s: State, step: Step)
    requires Inv(s) && Round(s, 2) && step.End? && Enabled(s, step)
    ensures Apply(s, step).q.items == []
  {
    InvTriesOk(s);
    assert forall it, r :: it in s.q.items && r in it.pending ==> Tried(s, it, r, 3);
    assert forall it :: it in s.q.items ==> it.pending == {};
    NothingStays(s.q.items, step.now, step.stuck);
  }

  lemma {:induction false} EmptyStaysEmpty(s: State, steps: seq<Step>)
    requires s.q.items == [] && Legal(s, steps)
    requires forall k :: 0 <= k < |steps| ==> Undisturbed(steps[k])
    ensures Exec(s, steps).q.items == []
    decreases |steps|
  {
    if steps != [] {
      EmptyStaysEmpty(Apply(s, steps[0]), steps[1..]);
    }
  }

  ghost function PassesEnded(steps: seq<Step>): nat {
    if steps == [] then 0 else (if steps[0].End? then 1 else 0) + PassesEnded(steps[1..])
  }

  lemma {:induction false} PassesEmpty(s: State, steps: seq<Step>, k: nat)
    requires Inv(s) && Round(s, k) && k < 3 && Legal(s, steps)
    requires forall j :: 0 <= j < |steps| ==> Undisturbed(steps[j])
    requires k + PassesEnded(steps) >= 3
    ensures Exec(s, steps).q.items == []
    decreases |steps|
  {
    var t := Apply(s, steps[0]);
    if k == 2 && steps[0].End? {
      ThirdPassEmpties(s, steps[0]);
      EmptyStaysEmpty(t, steps[1..]);
    } else {
      StepKeepsInv(s, steps[0]);
      StepKeepsRound(s, steps[0], k);
      PassesEmpty(t, steps[1..], if steps[0].End? then k + 1 else k);
    }
  }

  /** From rest with every breaker closed, while connects succeed and nothing new arrives, the
      queue is empty after three passes, whichever publishes are rejected. */
  lemma {:induction false} ThreePassesEmptyTheQueue(s: State, steps: seq<Step>)
    requires Inv(s) && s.phase.Idle? && AllClosed(s.q.breakers) && Legal(s, steps)
    requires forall k :: 0 <= k < |steps| ==> Undisturbed(steps[k])
    requires PassesEnded(steps) >= 3
    ensures Exec(s, steps).q.items == []
  {
    PassesEmpty(s, steps, 0);
  }
}
