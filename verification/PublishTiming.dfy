/** Time in the publish queue: how far apart the probes of a dead relay are, and how long the
    drain goroutine sleeps. */
module PublishTiming {
  import opened Breakers
  import opened RelayNames
  import opened PublishModel
  import opened PublishSafety

  // ----- between passes -----

  /** Before and after every pass, whatever was cancelled or failed inside it, no relay is left
      half-open (and so denied for ever), a breaker is closed exactly while it has seen fewer
      than three failures in a row, and the others wait between 30 s and 30 min. */
  lemma NoRelayIsStarved(s: State, steps: seq<Step>)
    requires Inv(s) && Legal(s, steps) && Exec(s, steps).phase.Idle?
    ensures forall r :: r in Exec(s, steps).q.breakers ==>
              var b := Exec(s, steps).q.breakers[r];
              && b.state != HalfOpen
              && (b.state == Closed <==> b.failures < BREAKER_THRESHOLD)
              && (b.state == Open ==> BASE_COOLDOWN <= b.cooldown <= MAX_COOLDOWN)
              && (exists later :: GrantOf(b, later) != Deny)
  {
    RunKeepsInv(s, steps);
    var t := Exec(s, steps);
    forall r | r in t.q.breakers
      ensures t.q.breakers[r].state != HalfOpen && exists later :: GrantOf(t.q.breakers[r], later) != Deny
    {
      assert Healthy(t.q.breakers[r], t.clock);
      assert GrantOf(t.q.breakers[r], t.q.breakers[r].nextProbe) != Deny;
    }
  }

  // ----- spacing of probes -----

  ghost predicate FailsTo(step: Step, r: Relay) {
    step.Connect? && step.relay == r && !step.ok
  }

  ghost function Failures(steps: seq<Step>, r: Relay): nat {
    if steps == [] then 0 else (if FailsTo(steps[0], r) then 1 else 0) + Failures(steps[1..], r)
  }

  /** Relay r tripped at time t0 and k probes of it have failed since. */
  ghost predicate DownSince(s: State, r: Relay, t0: int, k: nat) {
    && r in s.q.breakers
    && s.q.breakers[r].state != Closed
    && s.q.breakers[r].cooldown == CooldownAfter(k)
    && s.q.breakers[r].nextProbe >= t0 + WaitBefore(k + 1)
  }

  /** In the run no connect to r gets as far as closing its breaker, the process does not
      restart, and some item wants r throughout. */
  ghost predicate StaysDown(s: State, steps: seq<Step>, r: Relay)
    requires Legal(s, steps)
    decreases |steps|
  {
    steps == [] ||
    (&& !steps[0].Restart? && !(steps[0].Finish? && s.phase.relay == r)
     && r in Wanted(Apply(s, steps[0]).q.items)
     && StaysDown(Apply(s, steps[0]), steps[1..], r))
  }

  lemma FailureTrips(s: State, step: Step)
    requires Inv(s) && Enabled(s, step) && step.Connect? && !step.ok && BreakerOf(s.q, step.relay).state == Closed
    ensures DownSince(Apply(s, step), step.relay, step.now, 0)
      <==> BreakerOf(s.q, step.relay).failures == BREAKER_THRESHOLD - 1
  {
    assert BreakerOf(s.q, step.relay).failures < BREAKER_THRESHOLD;
    assert WaitBefore(1) == WaitBefore(0) + CooldownAfter(0);
    assert Pow2(0) == 1;
  }

  /** The connects to r that have failed in a row, counted on from n over one step: a batch that
      is finished starts the count anew, and so do a restart and the sweep of r's breaker. */
  ghost function CountOn(s: State, step: Step, r: Relay, n: nat): nat
    requires Enabled(s, step)
  {
    if FailsTo(step, r) then n + 1
    else if step.Restart? || (step.Finish? && s.phase.relay == r) || (step.End? && r !in Apply(s, step).q.breakers)
      then 0
    else n
  }

  ghost function InARow(s: State, steps: seq<Step>, r: Relay, n: nat): nat
    requires Legal(s, steps)
    decreases |steps|
  {
    if steps == [] then n else InARow(Apply(s, steps[0]), steps[1..], r, CountOn(s, steps[0], r, n))
  }

  lemma StepCountsFailures(s: State, step: Step, r: Relay)
    requires Enabled(s, step)
    ensures BreakerOf(Apply(s, step).q, r).failures == CountOn(s, step, r, BreakerOf(s.q, r).failures)
  {
  }

  lemma {:induction false} FailuresAreCounted(s: State, steps: seq<Step>, r: Relay)
    requires Legal(s, steps)
    ensures BreakerOf(Exec(s, steps).q, r).failures == InARow(s, steps, r, BreakerOf(s.q, r).failures)
    decreases |steps|
  {
    hide Enabled, Apply, CountOn;
    if steps != [] {
      StepCountsFailures(s, steps[0], r);
      FailuresAreCounted(Apply(s, steps[0]), steps[1..], r);
    }
  }

  /** Over every run of a process: a connect failure trips a closed breaker exactly when it is
      the third since the last batch to that relay was finished, or since its breaker is new. */
  lemma ThirdFailureTrips(s: State, start: Step, steps: seq<Step>, step: Step)
    requires RowsOk(s.q.table) && start.Restart? && Enabled(s, start)
    requires Legal(Apply(s, start), steps) && Enabled(Exec(Apply(s, start), steps), step)
    requires step.Connect? && !step.ok && BreakerOf(Exec(Apply(s, start), steps).q, step.relay).state == Closed
    ensures DownSince(Apply(Exec(Apply(s, start), steps), step), step.relay, step.now, 0)
      <==> InARow(Apply(s, start), steps, step.relay, 0) == BREAKER_THRESHOLD - 1
  {
    RestartKeepsInv(s, start);
    RunKeepsInv(Apply(s, start), steps);
    FailuresAreCounted(Apply(s, start), steps, step.relay);
    FailureTrips(Exec(Apply(s, start), steps), step);
  }

  lemma FailedProbeEscalates(s: State, step: Step, r: Relay, t0: int, k: nat)
    requires Inv(s) && Enabled(s, step) && DownSince(s, r, t0, k) && FailsTo(step, r)
    ensures step.now >= t0 + WaitBefore(k + 1)
    ensures DownSince(Apply(s, step), r, t0, k + 1)
  {
    assert TakenUp(s.q, r, s.phase.probes);
    assert Healthy(s.q.breakers[r], s.clock);
    CooldownDoubles(k);
  }

  lemma OtherStepsKeepDown(s: State, step: Step, r: Relay, t0: int, k: nat)
    requires Inv(s) && Enabled(s, step) && DownSince(s, r, t0, k) && !FailsTo(step, r)
    requires !step.Restart? && !(step.Finish? && s.phase.relay == r) && r in Wanted(Apply(s, step).q.items)
    ensures DownSince(Apply(s, step), r, t0, k)
  {
    match step
    case End(now, sweepAt, _, stuck, _) =>
      assert Wanted(Apply(s, step).q.items) == Wanted(Evicted(s.q, now, stuck).items);
    case _ =>
  }

  ghost function Counted(step: Step, r: Relay, k: nat): nat {
    if FailsTo(step, r) then k + 1 else k
  }

  /** Counting on from the k-th, each failed probe of r in the run comes no sooner after t0
      than the sum of all cooldowns before it. */
  ghost predicate Spaced(steps: seq<Step>, r: Relay, t0: int, k: nat) {
    steps == [] ||
    (&& (FailsTo(steps[0], r) ==> steps[0].now >= t0 + WaitBefore(k + 1))
     && Spaced(steps[1..], r, t0, Counted(steps[0], r, k)))
  }

  lemma StepIsSpaced(s: State, step: Step, r: Relay, t0: int, k: nat)
    requires Inv(s) && Enabled(s, step) && DownSince(s, r, t0, k)
    requires !step.Restart? && !(step.Finish? && s.phase.relay == r) && r in Wanted(Apply(s, step).q.items)
    ensures FailsTo(step, r) ==> step.now >= t0 + WaitBefore(k + 1)
    ensures Inv(Apply(s, step)) && DownSince(Apply(s, step), r, t0, Counted(step, r, k))
  {
    StepKeepsInv(s, step);
    if FailsTo(step, r) {
      FailedProbeEscalates(s, step, r, t0, k);
    } else {
      OtherStepsKeepDown(s, step, r, t0, k);
    }
  }

  /** While some item waits for a dead relay, the j-th failed probe after the trip leaves the
      cooldown at min(30 s * 2^j, 30 min), and it happens no sooner after the trip than the sum
      of the cooldowns before it, whatever is cancelled, rolled back or enqueued in between. */
  lemma {:induction false} ProbesAreSpaced(s: State, steps: seq<Step>, r: Relay, t0: int, k: nat)
    requires Inv(s) && Legal(s, steps) && DownSince(s, r, t0, k) && StaysDown(s, steps, r)
    ensures DownSince(Exec(s, steps), r, t0, k + Failures(steps, r))
    ensures Spaced(steps, r, t0, k)
    decreases |steps|
  {
    hide Inv, Apply, Enabled, DownSince;
    if steps != [] {
      StepIsSpaced(s, steps[0], r, t0, k);
      ProbesAreSpaced(Apply(s, steps[0]), steps[1..], r, t0, Counted(steps[0], r, k));
    }
  }

  // ----- sleeping -----

  /** Some relay is wanted, and every wanted one is down. */
  ghost predicate AllDown(q: Queue) {
    Wanted(q.items) != {} && forall r :: r in Wanted(q.items) ==> BreakerOf(q, r).state == Open
  }

  /** An eviction at `now` keeps an item that waits for a relay whose probe is due. */
  ghost predicate KeepsDueItem(q: Queue, now: int, stuck: set<int>) {
    exists it, r :: it in q.items && Stays(it, now, stuck) && r in it.pending && BreakerOf(q, r).nextProbe <= now
  }

  /** With every wanted relay down, the sleep ends when the first of them may be probed, which is
      never more than 30 minutes away.  A pass that begins before its end finds no work.  One that
      begins from then on finds some exactly when an item that waits for a due relay outlives the
      eviction with which the pass begins; all it finds are probes, and finding none it has
      dropped an event. */
  lemma SleepIsExact(s: State, d: int, begin: Step)
    requires Inv(s) && AllDown(s.q) && IsSleep(s.q, s.clock, d)
    requires begin.Begin? && Enabled(s, begin)
    ensures 0 <= d <= MAX_COOLDOWN
    ensures var t := Apply(s, begin);
      && t.phase.work.Keys == t.phase.probes
      && (t.phase.work.Keys != {} <==> KeepsDueItem(s.q, begin.now, begin.stuck))
      && (begin.now < s.clock + d ==> t.phase.work.Keys == {})
      && (begin.now >= s.clock + d && t.phase.work.Keys == {} ==> |t.q.items| < |s.q.items|)
  {
    assert BreakersOk(s.q.breakers, s.clock);
    hide Inv, AllDown, IsSleep, WorkFor, ProbesFor, Staying, KeepsDueItem;
    PassFindsWork(s.q, s.clock, d, begin.now, begin.stuck);
    WorkIsDueItems(s.q, begin.now, begin.stuck);
  }

  lemma WorkIsDueItems(q: Queue, now: int, stuck: set<int>)
    requires AllDown(q)
    ensures var q' := Evicted(q, now, stuck);
      && WorkFor(q', now).Keys == ProbesFor(q', now)
      && (WorkFor(q', now).Keys != {} <==> KeepsDueItem(q, now, stuck))
  {
    var q' := Evicted(q, now, stuck);
    forall r | r in Wanted(q'.items) ensures BreakerOf(q', r) == BreakerOf(q, r) && BreakerOf(q, r).state == Open {
      EvictionWantsNoMore(q.items, now, stuck, r);
    }
    assert WorkFor(q', now).Keys == ProbesFor(q', now);
    if r :| r in ProbesFor(q', now) {
      var it :| it in q'.items && r in it.pending;
      InStaying(q.items, now, stuck, it);
    }
    if it, r :| it in q.items && Stays(it, now, stuck) && r in it.pending && BreakerOf(q, r).nextProbe <= now {
      InStaying(q.items, now, stuck, it);
      assert r in ProbesFor(q', now);
    }
  }

  lemma PassFindsWork(q: Queue, clock: int, d: int, now: int, stuck: set<int>)
    requires BreakersOk(q.breakers, clock) && AllDown(q) && IsSleep(q, clock, d) && clock <= now
    ensures 0 <= d <= MAX_COOLDOWN
    ensures if now < clock + d then WorkFor(Evicted(q, now, stuck), now).Keys == {}
      else ProbesFor(Evicted(q, now, stuck), now) != {} || |Staying(q.items, now, stuck)| < |q.items|
  {
    var first :| first in Wanted(q.items) && d == NonNegative(BreakerOf(q, first).nextProbe - clock);
    assert Healthy(q.breakers[first], clock);
    if now < clock + d {
      assert forall r :: r in Wanted(q.items) ==> d <= NonNegative(BreakerOf(q, r).nextProbe - clock);
      forall r | r in Wanted(q.items) ensures GrantOf(BreakerOf(q, r), now) == Deny {
        assert d <= NonNegative(BreakerOf(q, r).nextProbe - clock);
      }
      hide IsSleep;
      NoRelayIsDue(q, now, stuck);
    } else {
      hide IsSleep;
      DueRelayIsProbed(q, first, now, stuck);
    }
  }

  lemma NoRelayIsDue(q: Queue, now: int, stuck: set<int>)
    requires forall r :: r in Wanted(q.items) ==> GrantOf(BreakerOf(q, r), now) == Deny
    ensures WorkFor(Evicted(q, now, stuck), now).Keys == {}
  {
    var q' := Evicted(q, now, stuck);
    forall r | r in Wanted(q'.items) ensures GrantOf(BreakerOf(q', r), now) == Deny {
      EvictionWantsNoMore(q.items, now, stuck, r);
    }
  }

  lemma EvictionWantsNoMore(items: seq<Item>, now: int, stuck: set<int>, r: Relay)
    requires r in Wanted(Staying(items, now, stuck))
    ensures r in Wanted(items)
  {
    var it :| it in Staying(items, now, stuck) && r in it.pending;
    InStaying(items, now, stuck, it);
  }

  /** The age of the only event passes a day one nanosecond before the sleep ends. */
  function AgingState(evt: Event): State {
    var it := Item(0, evt, {"r"}, 0, 0, {"r"}, false, map[]);
    var b := Breaker(Open, 3, BASE_COOLDOWN, TTL_UNDELIVERED + 1);
    State(Queue([it], map["r" := b], Table([], 0)), TTL_UNDELIVERED + 1 - BASE_COOLDOWN, Idle, [], 1)
  }

  /** A pass at the very end of a sleep may find nothing: in this state, which satisfies the
      invariant, the relay is due by then, and the pass drops the event instead. */
  lemma SleepMayEndInVain(evt: Event)
    ensures var s := AgingState(evt);
      var begin := Begin(s.clock + BASE_COOLDOWN, {});
      && Inv(s) && AllDown(s.q) && IsSleep(s.q, s.clock, BASE_COOLDOWN) && Enabled(s, begin)
      && WorkFor(s.q, begin.now).Keys == {"r"}
      && Apply(s, begin).phase.work.Keys == {} && Apply(s, begin).q.items == []
  {
    var s := AgingState(evt);
    AgingStateIsGood(evt);
    hide Inv;
    var it := s.q.items[0];
    assert s.q.items == [it] && [it][..0] == [];
    assert Wanted(s.q.items) == {"r"} by { assert it in s.q.items; }
    assert Staying(s.q.items, TTL_UNDELIVERED + 1, {}) == [];
  }

  lemma AgingStateIsGood(evt: Event)
    ensures Inv(AgingState(evt))
  {
  }

  /** A pass that ends with a sleep of zero and a non-empty queue is followed by one that
      probes some relay or evicts some event, whatever is enqueued before it: the loop never spins. */
  lemma {:induction false} NoSpin(s: State, end: Step, enqueues: seq<Step>, begin: Step)
    requires Inv(s) && end.End? && Enabled(s, end) && Apply(s, end).q.items != []
    requires IsSleep(Apply(s, end).q, end.wakeAt, 0)
    requires Legal(Apply(s, end), enqueues) && forall k :: 0 <= k < |enqueues| ==> enqueues[k].Enqueue?
    requires begin.Begin? && Enabled(Exec(Apply(s, end), enqueues), begin)
    ensures var t := Exec(Apply(s, end), enqueues);
            || Apply(t, begin).phase.probes != {}
            || |Apply(t, begin).q.items| < |t.q.items|
  {
    var u := Apply(s, end);
    hide Inv;
    ItemsWantRelays(s, end);
    assert end.wakeAt == u.clock;
    hide Apply, Enabled;
    var r := ZeroSleepMeansDue(u.q, end.wakeAt);
    EnqueuesOnlyAdd(u, enqueues, r);
    DueRelayIsProbed(Exec(u, enqueues).q, r, begin.now, begin.stuck);
  }

  lemma ZeroSleepMeansDue(q: Queue, now: int) returns (r: Relay)
    requires Wanted(q.items) != {} && IsSleep(q, now, 0)
    ensures r in Wanted(q.items) && BreakerOf(q, r).state == Open && BreakerOf(q, r).nextProbe <= now
  {
    assert q.items != [];
    r :| r in Wanted(q.items) && 0 == NonNegative(BreakerOf(q, r).nextProbe - now);
  }

  lemma {:induction false} EnqueuesOnlyAdd(s: State, enqueues: seq<Step>, r: Relay)
    requires Legal(s, enqueues) && forall k :: 0 <= k < |enqueues| ==> enqueues[k].Enqueue?
    requires r in Wanted(s.q.items)
    ensures var t := Exec(s, enqueues);
      t.q.breakers == s.q.breakers && s.clock <= t.clock && r in Wanted(t.q.items)
    decreases |enqueues|
  {
    if enqueues != [] {
      var it :| it in s.q.items && r in it.pending;
      assert it in Apply(s, enqueues[0]).q.items;
      EnqueuesOnlyAdd(Apply(s, enqueues[0]), enqueues[1..], r);
    }
  }

  /** A wanted relay whose time has come is probed by a pass that evicts nothing. */
  lemma DueRelayIsProbed(q: Queue, r: Relay, now: int, stuck: set<int>)
    requires r in Wanted(q.items) && BreakerOf(q, r).state == Open && BreakerOf(q, r).nextProbe <= now
    ensures ProbesFor(Evicted(q, now, stuck), now) != {} || |Staying(q.items, now, stuck)| < |q.items|
  {
    StayingShrinks(q.items, now, stuck);
    if Staying(q.items, now, stuck) == q.items {
      assert BreakerOf(Evicted(q, now, stuck), r) == BreakerOf(q, r);
      assert r in ProbesFor(Evicted(q, now, stuck), now);
    }
  }

  lemma ItemsWantRelays(s: State, end: Step)
    requires end.End? && Enabled(s, end) && Apply(s, end).q.items != []
    ensures Wanted(Apply(s, end).q.items) != {}
  {
    var it := Apply(s, end).q.items[0];
    InStaying(s.q.items, end.now, end.stuck, it);
    assert it.pending != {};
    var r :| r in it.pending;
    assert r in Wanted(Apply(s, end).q.items);
  }

  lemma {:induction false} StayingShrinks(items: seq<Item>, now: int, stuck: set<int>)
    ensures Staying(items, now, stuck) == items || |Staying(items, now, stuck)| < |items|
  {
    if items != [] {
      StayingShrinks(items[..|items| - 1], now, stuck);
      assert items == items[..|items| - 1] + [items[|items| - 1]];
    }
  }
}
