/** Delivery order: a relay that never rejects gets events in enqueue order. */
module PublishOrder {
  import opened Breakers
  import opened RelayNames
  import opened PublishModel
  import opened PublishSafety

  /** The serials that relay r accepted, in the order in which it did. */
  ghost function AcceptedAt(log: seq<Attempt>, r: Relay): seq<nat> {
    if log == [] then []
    else
      var a := log[|log| - 1];
      AcceptedAt(log[..|log| - 1], r) + if a.relay == r && a.accepted then [a.serial] else []
  }

  lemma AcceptedAtAppend(log: seq<Attempt>, a: Attempt, r: Relay)
    ensures AcceptedAt(log + [a], r) == AcceptedAt(log, r) + if a.relay == r && a.accepted then [a.serial] else []
  {
    assert (log + [a])[..|log|] == log;
  }

  lemma {:induction false} AcceptedWasTallied(log: seq<Attempt>, r: Relay, n: nat)
    requires n in AcceptedAt(log, r)
    ensures Accepts(log, n, r) > 0
  {
    if n in AcceptedAt(log[..|log| - 1], r) {
      AcceptedWasTallied(log[..|log| - 1], r, n);
    }
  }

  /** No publish to r in the run is rejected, and the process does not restart. */
  ghost predicate NeverRejects(s: State, steps: seq<Step>, r: Relay)
    requires Legal(s, steps)
    decreases |steps|
  {
    steps == [] ||
    (!Rejects(s, steps[0], r) && !steps[0].Restart? && NeverRejects(Apply(s, steps[0]), steps[1..], r))
  }

  ghost predicate Rejects(s: State, step: Step, r: Relay) {
    step.Publish? && !step.ok && s.phase.Batch? && s.phase.relay == r
  }

  ghost predicate AllBelow(a: seq<nat>, b: seq<nat>) {
    forall i, j :: 0 <= i < |a| && 0 <= j < |b| ==> a[i] < b[j]
  }

  /** What r has accepted lies, in order, before what is still pending on it. */
  ghost predicate InOrderAt(s: State, r: Relay) {
    && Increasing(AcceptedAt(s.log, r))
    && AllBelow(AcceptedAt(s.log, r), PendingOn(s.q.items, r))
    && (s.phase.Batch? && s.phase.relay == r ==> s.phase.rest <= PendingOn(s.q.items, r))
  }

  lemma {:induction false} FirstLeaves(items: seq<Item>, i: nat, it: Item, r: Relay)
    requires i < |items| && r in items[i].pending && r !in it.pending
    requires PendingOn(items, r) != [] && PendingOn(items, r)[0] == items[i].serial
    requires forall i, j :: 0 <= i < j < |items| ==> items[i].serial < items[j].serial
    ensures PendingOn(items[i := it], r) == PendingOn(items, r)[1..]
  {
    var init, last := items[..|items| - 1], |items| - 1;
    if i == last {
      assert items[i := it][..last] == init;
      if PendingOn(init, r) != [] {
        InPendingOn(init, r, PendingOn(init, r)[0]);
      }
    } else {
      InPendingOn(init, r, items[i].serial);
      assert init[i] in init;
      assert PendingOn(init, r) != [];
      FirstLeaves(init, i, it, r);
      assert items[i := it][..last] == init[i := it];
    }
  }

  lemma EvictedStaysBelow(items: seq<Item>, r: Relay, now: int, stuck: set<int>, a: seq<nat>)
    requires AllBelow(a, PendingOn(items, r))
    ensures AllBelow(a, PendingOn(Staying(items, now, stuck), r))
  {
    var kept := PendingOn(Staying(items, now, stuck), r);
    forall j | 0 <= j < |kept| ensures kept[j] in PendingOn(items, r) {
      InPendingOn(Staying(items, now, stuck), r, kept[j]);
      var it :| it in Staying(items, now, stuck) && it.serial == kept[j] && r in it.pending;
      InStaying(items, now, stuck, it);
      InPendingOn(items, r, kept[j]);
    }
  }

  lemma AcceptKeepsOrder(s: State, step: Step)
    requires step.Publish? && step.ok && Enabled(s, step) && InOrderAt(s, s.phase.relay)
    requires forall i, j :: 0 <= i < j < |s.q.items| ==> s.q.items[i].serial < s.q.items[j].serial
    ensures InOrderAt(Apply(s, step), s.phase.relay)
  {
    var n, r, t := s.phase.rest[0], s.phase.relay, Apply(s, step);
    PendingItem(s.q.items, r, n);
    AcceptedAtAppend(s.log, Attempt(n, r, true), r);
    PendingOnIncreases(s.q.items, r);
    var i := IndexOf(s.q.items, n);
    FirstLeaves(s.q.items, i, t.q.items[i], r);
    TailsKeepOrder(AcceptedAt(s.log, r), PendingOn(s.q.items, r), s.phase.rest);
  }

  lemma TailsKeepOrder(got: seq<nat>, pending: seq<nat>, rest: seq<nat>)
    requires Increasing(got) && Increasing(pending) && AllBelow(got, pending) && rest != [] && rest <= pending
    ensures Increasing(got + [rest[0]]) && AllBelow(got + [rest[0]], pending[1..]) && rest[1..] <= pending[1..]
  {
  }

  /** A publish to one relay leaves what pends on another as it was. */
  lemma PublishElsewhere(s: State, step: Step, r: Relay)
    requires step.Publish? && Enabled(s, step) && s.phase.relay != r
    ensures PendingOn(Apply(s, step).q.items, r) == PendingOn(s.q.items, r)
  {
    var i := IndexOf(s.q.items, s.phase.rest[0]);
    if i >= 0 {
      PendingOnUpdate(s.q.items, i, AcceptedItem(s.q.items[i], s.phase.relay, step.stuck), r);
      PendingOnUpdate(s.q.items, i, RejectedItem(s.q.items[i], s.phase.relay), r);
    }
  }

  lemma PublishKeepsOrder(s: State, step: Step, r: Relay)
    requires Inv(s) && InOrderAt(s, r) && step.Publish? && Enabled(s, step) && !Rejects(s, step, r)
    ensures InOrderAt(Apply(s, step), r)
  {
    if s.phase.relay == r {
      AcceptKeepsOrder(s, step);
    } else {
      PublishElsewhere(s, step, r);
      AcceptedAtAppend(s.log, Attempt(s.phase.rest[0], s.phase.relay, step.ok), r);
    }
  }

  lemma EnqueueKeepsOrder(s: State, step: Step, r: Relay)
    requires Inv(s) && InOrderAt(s, r) && step.Enqueue? && Enabled(s, step)
    ensures InOrderAt(Apply(s, step), r)
  {
    if step.relays != [] {
      var t := Apply(s, step);
      PendingOnAppend(s.q.items, t.q.items[|s.q.items|], r);
      var got := AcceptedAt(s.log, r);
      forall i | 0 <= i < |got| ensures got[i] < s.nextSerial {
        AcceptedWasTallied(s.log, r, got[i]);
        assert Accepts(s.log, got[i], r) + Rejections(s.log, got[i], r) > 0;
      }
    }
  }

  lemma StepKeepsOrder(s: State, step: Step, r: Relay)
    requires Inv(s) && InOrderAt(s, r) && Enabled(s, step) && !Rejects(s, step, r) && !step.Restart?
    ensures InOrderAt(Apply(s, step), r)
  {
    match step
    case Enqueue(_, _, _, _, _) => EnqueueKeepsOrder(s, step, r);
    case Begin(now, stuck) => EvictedStaysBelow(s.q.items, r, now, stuck, AcceptedAt(s.log, r));
    case Publish(_, _) => PublishKeepsOrder(s, step, r);
    case End(now, _, _, stuck, _) => EvictedStaysBelow(s.q.items, r, now, stuck, AcceptedAt(s.log, r));
    case _ =>
  }

  lemma {:induction false} RunKeepsOrder(s: State, steps: seq<Step>, r: Relay)
    requires Inv(s) && InOrderAt(s, r) && Legal(s, steps) && NeverRejects(s, steps, r)
    ensures InOrderAt(Exec(s, steps), r)
    decreases |steps|
  {
    if steps != [] {
      StepKeepsOrder(s, steps[0], r);
      StepKeepsInv(s, steps[0]);
      RunKeepsOrder(Apply(s, steps[0]), steps[1..], r);
    }
  }

  /** Over every run of a process: what such a relay is given next is the oldest event that
      still waits for it. */
  lemma OldestGoesFirst(s: State, start: Step, steps: seq<Step>, r: Relay)
    requires RowsOk(s.q.table) && start.Restart? && Enabled(s, start)
    requires Legal(Apply(s, start), steps) && NeverRejects(Apply(s, start), steps, r)
    ensures var t := Exec(Apply(s, start), steps);
      t.phase.Batch? && t.phase.relay == r && t.phase.rest != [] ==>
        && t.phase.rest[0] in PendingOn(t.q.items, r)
        && forall n :: n in PendingOn(t.q.items, r) ==> t.phase.rest[0] <= n
  {
    RestartKeepsInv(s, start);
    RunKeepsOrder(Apply(s, start), steps, r);
    RunKeepsInv(Apply(s, start), steps);
    var t := Exec(Apply(s, start), steps);
    PendingOnIncreases(t.q.items, r);
  }

  /** From the start of a process on, through probes, evictions, cancelled batches and enqueues
      at any moment, a relay that never rejects accepts events in the order of their enqueue. */
  lemma AcceptedInEnqueueOrder(s: State, start: Step, steps: seq<Step>, r: Relay)
    requires RowsOk(s.q.table) && start.Restart? && Enabled(s, start)
    requires Legal(Apply(s, start), steps) && NeverRejects(Apply(s, start), steps, r)
    ensures Increasing(AcceptedAt(Exec(Apply(s, start), steps).log, r))
  {
    RestartKeepsInv(s, start);
    RunKeepsOrder(Apply(s, start), steps, r);
  }
}
