/** What the outside answers to the drain goroutine of the publish queue, moment by moment, and
    which steps of the machine those answers allow. */
module PublishEnvironment {
  import opened RelayNames
  import opened PublishModel
  import opened PublishSafety
  import opened PublishProgress

  /** An enqueue by another goroutine. */
  datatype Arrival = Arrival(evt: Event, relays: seq<Relay>, created: int, insertOk: bool)

  /** What the drain goroutine meets when it is about to take a step: the time (and the two
      further clock readings of the last critical section), whether its context is cancelled,
      whether a relay can be reached, whether it accepts a publish, which row deletes fail, and
      the enqueues that got hold of the mutex since its last step. */
  datatype Moment = Moment(now: int, sweepAt: int, wakeAt: int, cancelled: bool, connects: bool, accepts: bool,
                           stuck: set<int>, arrivals: seq<Arrival>)

  /** Time does not run backwards and a cancellation is final. */
  ghost predicate WellTimed(env: nat -> Moment) {
    && (forall n: nat :: env(n).now <= env(n).sweepAt <= env(n).wakeAt)
    && (forall i: nat, j: nat :: i < j ==> env(i).wakeAt <= env(j).now && (env(i).cancelled ==> env(j).cancelled))
    && (forall n: nat, a :: a in env(n).arrivals ==> a.created <= env(n).now)
  }

  function EnqueueOf(a: Arrival, now: int): Step {
    Step.Enqueue(a.evt, a.relays, a.created, now, a.insertOk)
  }

  /** All enqueues of the moment, in their order. */
  function Enqueues(m: Moment): seq<Step> {
    seq(|m.arrivals|, i requires 0 <= i < |m.arrivals| => EnqueueOf(m.arrivals[i], m.now))
  }

  /** The step of the drain goroutine is what it must be, given the answers of the moment. */
  predicate IsAnswer(m: Moment, step: Step) {
    match step
    case Begin(now, stuck) => now == m.now && stuck == m.stuck
    case Connect(_, ok, now) => ok == m.connects && now == m.now
    case Publish(ok, stuck) => ok == m.accepts && stuck == m.stuck
    case Finish => true
    case Bail => m.cancelled
    case Leave(cancelled) => cancelled && m.cancelled
    case Rollback => true
    case End(now, sweepAt, wakeAt, stuck, _) =>
      now == m.now && sweepAt == m.sweepAt && wakeAt == m.wakeAt && stuck == m.stuck
    case Enqueue(_, _, _, _, _) => false
    case Restart(_, _) => false
  }

  /** The step talks to a relay. */
  predicate Sends(step: Step) {
    step.Connect? || step.Publish?
  }

  /** What the goroutine itself does in the n-th moment: nothing but looking at its context, one step,
      or the end of the loop over the relays, when all have been visited, and then the rollback. It
      talks to a relay only when it has just found its context open. */
  predicate IsOwn(env: nat -> Moment, n: nat, own: seq<Step>) {
    || own == []
    || (|own| == 1 && IsAnswer(env(n), own[0]) && (Sends(own[0]) ==> n > 0 && !env(n - 1).cancelled))
    || own == [Step.Leave(false), Step.Rollback]
  }

  predicate IsMoment(env: nat -> Moment, n: nat, steps: seq<Step>) {
    Enqueues(env(n)) <= steps && IsOwn(env, n, steps[|env(n).arrivals|..])
  }

  /** The steps are the moments from `lo` on to `hi`, one after the other: every enqueue of each,
      in order, and the goroutine's own step, decided by its answers and by no other. */
  ghost predicate Answers(env: nat -> Moment, lo: nat, hi: nat, steps: seq<Step>)
    decreases hi - lo
  {
    if lo >= hi then lo == hi && steps == []
    else exists n: nat :: n <= |steps| && IsMoment(env, lo, steps[..n]) && Answers(env, lo + 1, hi, steps[n..])
  }

  lemma OneMoment(env: nat -> Moment, n: nat, own: seq<Step>)
    requires IsOwn(env, n, own)
    ensures Answers(env, n, n + 1, Enqueues(env(n)) + own)
  {
    var steps := Enqueues(env(n)) + own;
    assert steps[|env(n).arrivals|..] == own;
    assert steps[..|steps|] == steps && steps[|steps|..] == [];
    assert Answers(env, n + 1, n + 1, steps[|steps|..]);
  }

  lemma AnswersCons(env: nat -> Moment, lo: nat, hi: nat, first: seq<Step>, rest: seq<Step>)
    requires IsMoment(env, lo, first) && Answers(env, lo + 1, hi, rest)
    ensures lo < hi && Answers(env, lo, hi, first + rest)
  {
    hide IsMoment;
    AnswersGoOn(env, lo + 1, hi, rest);
    var steps := first + rest;
    assert steps[..|first|] == first && steps[|first|..] == rest;
  }

  lemma AnswersGoOn(env: nat -> Moment, lo: nat, hi: nat, steps: seq<Step>)
    requires Answers(env, lo, hi, steps)
    ensures lo <= hi
  {
  }

  lemma NoMoment(env: nat -> Moment, n: nat)
    ensures Answers(env, n, n, [])
  {
  }

  /** The steps of the first moment, and the others. */
  lemma AnswersHead(env: nat -> Moment, lo: nat, hi: nat, steps: seq<Step>) returns (n: nat)
    requires Answers(env, lo, hi, steps) && lo < hi
    ensures n <= |steps| && IsMoment(env, lo, steps[..n]) && Answers(env, lo + 1, hi, steps[n..])
  {
    n :| n <= |steps| && IsMoment(env, lo, steps[..n]) && Answers(env, lo + 1, hi, steps[n..]);
  }

  lemma NoSteps(env: nat -> Moment, lo: nat, hi: nat, steps: seq<Step>)
    requires Answers(env, lo, hi, steps) && lo >= hi
    ensures lo == hi && steps == []
  {
  }

  lemma {:induction false} AnswersJoin(env: nat -> Moment, lo: nat, mid: nat, hi: nat, a: seq<Step>, b: seq<Step>)
    requires Answers(env, lo, mid, a) && Answers(env, mid, hi, b)
    ensures lo <= mid <= hi && Answers(env, lo, hi, a + b)
    decreases mid - lo
  {
    hide Answers, IsMoment;
    AnswersGoOn(env, mid, hi, b);
    if lo >= mid {
      NoSteps(env, lo, mid, a);
      assert [] + b == b;
    } else {
      var n := AnswersHead(env, lo, mid, a);
      AnswersJoin(env, lo + 1, mid, hi, a[n..], b);
      AnswersCons(env, lo, hi, a[..n], a[n..] + b);
      assert a + b == a[..n] + (a[n..] + b);
    }
  }

  /** One more moment. */
  lemma NextMoment(env: nat -> Moment, lo: nat, n: nat, steps: seq<Step>, own: seq<Step>)
    requires Answers(env, lo, n, steps) && IsOwn(env, n, own)
    ensures Answers(env, lo, n + 1, steps + (Enqueues(env(n)) + own))
  {
    OneMoment(env, n, own);
    AnswersJoin(env, lo, n, n + 1, steps, Enqueues(env(n)) + own);
  }

  // ----- the moment of a step -----

  /** An enqueue of the n-th moment, or the step of the goroutine in it. */
  predicate IsStepOf(env: nat -> Moment, n: nat, step: Step) {
    || step in Enqueues(env(n))
    || (IsAnswer(env(n), step) && (Sends(step) ==> n > 0 && !env(n - 1).cancelled))
    || step == Step.Leave(false) || step == Step.Rollback
  }

  ghost predicate IsStepBetween(env: nat -> Moment, lo: nat, hi: nat, step: Step) {
    exists n: nat :: lo <= n < hi && IsStepOf(env, n, step)
  }

  lemma MomentSteps(env: nat -> Moment, n: nat, steps: seq<Step>, k: nat)
    requires IsMoment(env, n, steps) && k < |steps|
    ensures IsStepOf(env, n, steps[k])
  {
    var arrivals := |env(n).arrivals|;
    var own := steps[arrivals..];
    if k < arrivals {
      assert steps[k] == Enqueues(env(n))[k];
    } else {
      assert steps[k] == own[k - arrivals];
    }
  }

  lemma {:induction false} StepsHaveMoments(env: nat -> Moment, lo: nat, hi: nat, steps: seq<Step>)
    requires Answers(env, lo, hi, steps)
    ensures forall k :: 0 <= k < |steps| ==> IsStepBetween(env, lo, hi, steps[k])
    decreases hi - lo
  {
    hide IsMoment, IsStepOf;
    if lo < hi {
      var n := AnswersHead(env, lo, hi, steps);
      StepsHaveMoments(env, lo + 1, hi, steps[n..]);
      hide Answers;
      forall k | 0 <= k < |steps| ensures IsStepBetween(env, lo, hi, steps[k]) {
        if k < n {
          MomentSteps(env, lo, steps[..n], k);
        } else {
          assert steps[k] == steps[n..][k - n];
          assert IsStepBetween(env, lo + 1, hi, steps[n..][k - n]);
        }
      }
    }
  }

  /** What holds at all moments holds of the steps: when every relay can be reached, no connect fails,
      when every relay accepts, every publish is accepted, and the other way round. */
  lemma AnswersAreHeard(env: nat -> Moment, lo: nat, hi: nat, steps: seq<Step>, connects: bool, accepts: bool)
    requires Answers(env, lo, hi, steps)
    requires forall n: nat :: lo <= n < hi ==> env(n).connects == connects && env(n).accepts == accepts
    ensures forall k :: 0 <= k < |steps| ==> (steps[k].Connect? ==> steps[k].ok == connects)
    ensures forall k :: 0 <= k < |steps| ==> (steps[k].Publish? ==> steps[k].ok == accepts)
  {
    StepsHaveMoments(env, lo, hi, steps);
    hide Answers;
    forall k | 0 <= k < |steps|
      ensures steps[k].Connect? ==> steps[k].ok == connects
      ensures steps[k].Publish? ==> steps[k].ok == accepts
    {
      assert IsStepBetween(env, lo, hi, steps[k]);
    }
  }

  function ArrivalsIn(env: nat -> Moment, lo: nat, hi: nat): seq<Arrival>
    decreases hi - lo
  {
    if lo >= hi then [] else env(lo).arrivals + ArrivalsIn(env, lo + 1, hi)
  }

  /** What the steps enqueue. */
  function Brought(steps: seq<Step>): seq<Arrival> {
    if steps == [] then []
    else
      (match steps[0]
       case Enqueue(evt, relays, created, _, insertOk) => [Arrival(evt, relays, created, insertOk)]
       case _ => []) + Brought(steps[1..])
  }

  lemma {:induction false} BroughtJoin(a: seq<Step>, b: seq<Step>)
    ensures Brought(a + b) == Brought(a) + Brought(b)
  {
    if a == [] {
      assert a + b == b;
    } else {
      BroughtJoin(a[1..], b);
      assert (a + b)[1..] == a[1..] + b;
    }
  }

  lemma {:induction false} EnqueuesBring(arrivals: seq<Arrival>, now: int, steps: seq<Step>)
    requires |steps| == |arrivals| && forall i :: 0 <= i < |steps| ==> steps[i] == EnqueueOf(arrivals[i], now)
    ensures Brought(steps) == arrivals
  {
    if steps != [] {
      EnqueuesBring(arrivals[1..], now, steps[1..]);
      assert arrivals == [arrivals[0]] + arrivals[1..];
    }
  }

  lemma OwnBringsNothing(env: nat -> Moment, n: nat, own: seq<Step>)
    requires IsOwn(env, n, own)
    ensures Brought(own) == []
  {
    if own != [] {
      assert own[1..] == [] || own[1..] == [Step.Rollback];
      assert [Step.Rollback][1..] == [];
    }
  }

  /** No enqueue is lost, repeated or altered, and they keep their order. */
  lemma {:induction false} EveryArrivalIsEnqueued(env: nat -> Moment, lo: nat, hi: nat, steps: seq<Step>)
    requires Answers(env, lo, hi, steps)
    ensures Brought(steps) == ArrivalsIn(env, lo, hi)
    decreases hi - lo
  {
    hide Answers, Brought, IsMoment, ArrivalsIn;
    ArrivalsGoOn(env, lo, hi);
    if lo < hi {
      var n := AnswersHead(env, lo, hi, steps);
      var first, rest := steps[..n], steps[n..];
      EveryArrivalIsEnqueued(env, lo + 1, hi, rest);
      MomentBrings(env, lo, first);
      BroughtJoin(first, rest);
      assert steps == first + rest;
    } else {
      NoSteps(env, lo, hi, steps);
    }
  }

  lemma ArrivalsGoOn(env: nat -> Moment, lo: nat, hi: nat)
    ensures Brought([]) == []
    ensures lo >= hi ==> ArrivalsIn(env, lo, hi) == []
    ensures lo < hi ==> ArrivalsIn(env, lo, hi) == env(lo).arrivals + ArrivalsIn(env, lo + 1, hi)
  {
  }

  lemma MomentBrings(env: nat -> Moment, n: nat, steps: seq<Step>)
    requires IsMoment(env, n, steps)
    ensures Brought(steps) == env(n).arrivals
  {
    var m := env(n);
    var own := steps[|m.arrivals|..];
    assert steps == Enqueues(m) + own;
    hide Brought, IsOwn;
    EnqueuesBring(m.arrivals, m.now, Enqueues(m));
    OwnBringsNothing(env, n, own);
    BroughtJoin(Enqueues(m), own);
  }

  // ----- cancellation -----

  /** Once the context was found cancelled, no relay is contacted and nothing is published any more. */
  lemma CancelledSendsNothing(env: nat -> Moment, lo: nat, hi: nat, steps: seq<Step>)
    requires WellTimed(env) && Answers(env, lo, hi, steps) && lo > 0 && env(lo - 1).cancelled
    ensures SendsNothing(steps)
  {
    StepsHaveMoments(env, lo, hi, steps);
    hide Answers;
    forall k | 0 <= k < |steps| ensures !Sends(steps[k]) {
      assert IsStepBetween(env, lo, hi, steps[k]);
      var n: nat :| lo <= n < hi && IsStepOf(env, n, steps[k]);
      assert env(n - 1).cancelled by { assert lo - 1 < n - 1 ==> env(lo - 1).cancelled ==> env(n - 1).cancelled; }
    }
  }

  ghost predicate SendsNothing(steps: seq<Step>) {
    forall k :: 0 <= k < |steps| ==> !Sends(steps[k])
  }

  /** So a pass that begins with its context cancelled talks to no relay. */
  lemma CancelledPassSendsNothing(env: nat -> Moment, lo: nat, mid: nat, hi: nat,
                                  opening: seq<Step>, visits: seq<Step>, closing: seq<Step>)
    requires WellTimed(env) && env(lo).cancelled && SendsNothing(opening)
    requires Answers(env, lo + 1, mid, visits) && Answers(env, mid, hi, closing)
    ensures SendsNothing(opening + visits + closing)
  {
    AnswersGoOn(env, lo + 1, mid, visits);
    assert env(mid - 1).cancelled by { assert lo < mid - 1 ==> env(lo).cancelled ==> env(mid - 1).cancelled; }
    CancelledSendsNothing(env, lo + 1, mid, visits);
    CancelledSendsNothing(env, mid, hi, closing);
  }

  lemma OpeningSendsNothing(m: Moment, begin: Step)
    requires begin.Begin?
    ensures SendsNothing(Enqueues(m) + [begin])
  {
  }

  // ----- calm -----

  /** From moment `lo` on nothing is cancelled and nothing arrives, and every relay can be
      reached; what the relays answer to a publish is left open. */
  ghost predicate CalmFrom(env: nat -> Moment, lo: nat) {
    forall n: nat :: lo <= n ==> !env(n).cancelled && env(n).connects && env(n).arrivals == []
  }

  lemma CalmStepsAreUndisturbed(env: nat -> Moment, lo: nat, hi: nat, steps: seq<Step>)
    requires Answers(env, lo, hi, steps) && CalmFrom(env, lo)
    ensures forall k :: 0 <= k < |steps| ==> Undisturbed(steps[k])
  {
    StepsHaveMoments(env, lo, hi, steps);
    hide Answers;
    forall k | 0 <= k < |steps| ensures Undisturbed(steps[k]) {
      assert IsStepBetween(env, lo, hi, steps[k]);
      var n: nat :| lo <= n < hi && IsStepOf(env, n, steps[k]);
      assert Enqueues(env(n)) == [];
    }
  }

  lemma {:induction false} PassesAdd(a: seq<Step>, b: seq<Step>)
    ensures PassesEnded(a + b) == PassesEnded(a) + PassesEnded(b)
  {
    if a == [] {
      assert a + b == b;
    } else {
      PassesAdd(a[1..], b);
      assert (a + b)[1..] == a[1..] + b;
    }
  }

  lemma OnePassEnded(steps: seq<Step>)
    requires steps != [] && steps[|steps| - 1].End?
    ensures PassesEnded(steps) >= 1
  {
    var n := |steps| - 1;
    PassesAdd(steps[..n], [steps[n]]);
    assert steps == steps[..n] + [steps[n]];
    assert [steps[n]][1..] == [];
  }
}
