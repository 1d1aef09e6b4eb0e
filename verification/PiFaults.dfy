/** How a wait ends when it is not answered, what else the consumed events bring about, and when a
    grace window closes. */
module PiFaults {
  import opened Common
  import opened PiRpc

  // ----- events that change nothing about the wait -----

  /** Neither the end of a turn nor a rejected command. */
  predicate GoesOn(e: Event) {
    match e
    case AgentEnd(_) => false
    case AutoRetryEnd(success, _) => success == Some(true)
    case Response(_, success, _) => success != Some(false)
    case _ => true
  }

  /** The i-th arrival from here is such an event, and comes while the process runs. */
  predicate GoesOnAt(env: Env, p: Proc, i: nat) {
    && p.pos + i < |env.stream|
    && env.stream[p.pos + i].Event? && GoesOn(env.stream[p.pos + i].event)
    && ExitsLater(env, ClockAt(env, p, i))
  }

  /** So are the first n. */
  predicate GoesOnFor(env: Env, p: Proc, n: nat) {
    p.pos + n <= |env.stream| && forall i :: 0 <= i < n ==> GoesOnAt(env, p, i)
  }

  /** The time when the n-th of them has been taken. */
  function ClockAfter(env: Env, p: Proc, n: nat): int
    requires p.pos + n <= |env.stream|
  {
    if n == 0 then p.now else ClockAt(env, p, n - 1)
  }

  lemma {:induction false} ClockIsShifted(env: Env, p: Proc, p': Proc, i: nat)
    requires p'.pos == p.pos + 1 && p.pos + i + 1 < |env.stream| && p'.now == Max(p.now, env.stream[p.pos].at)
    ensures ClockAt(env, p', i) == ClockAt(env, p, i + 1)
  {
    if i > 0 { ClockIsShifted(env, p, p', i - 1); }
  }

  lemma RestGoesOn(env: Env, p: Proc, p': Proc, n: nat)
    requires n > 0 && GoesOnFor(env, p, n)
    requires p'.pos == p.pos + 1 && p'.now == Max(p.now, env.stream[p.pos].at)
    ensures GoesOnFor(env, p', n - 1) && ClockAfter(env, p', n - 1) == ClockAfter(env, p, n)
  {
    forall i | 0 <= i < n - 1 ensures GoesOnAt(env, p', i) {
      assert GoesOnAt(env, p, i + 1);
      ClockIsShifted(env, p, p', i);
    }
    if n > 1 { ClockIsShifted(env, p, p', n - 2); }
  }

  /** The waiter passes them and then stands where they end. */
  lemma {:induction false} WaitGoesOn(env: Env, p: Proc, w: Waiter, aborted: bool, n: nat)
    returns (p': Proc, w': Waiter, aborted': bool)
    requires GoesOnFor(env, p, n)
    ensures WaitFrom(env, p, w, aborted) == WaitFrom(env, p', w', aborted')
    ensures p'.pos == p.pos + n && p'.now == ClockAfter(env, p, n)
    decreases n
  {
    if n == 0 {
      p', w', aborted' := p, w, aborted;
    } else {
      assert ClockAt(env, p, 0) == Max(p.now, env.stream[p.pos].at);
      assert GoesOnAt(env, p, 0);
      EventIsTaken(env, p, w, aborted);
      var p1 := AfterEvent(env, p, aborted);
      RestGoesOn(env, p, p1, n);
      var e := env.stream[p.pos].event;
      hide WaitFrom, GoesOnFor, AfterEvent, Handled;
      p', w', aborted' := WaitGoesOn(env, p1, Handled(w, e), aborted || Cancelled(env, p1.now), n - 1);
    }
  }

  // ----- faults -----

  /** The error that is reported for a fault at this time: a cancelled context comes first. */
  function Reported(env: Env, fault: Fault, now: int): Outcome {
    Error(if env.cancel.Some? && env.cancel.value <= now then ContextCancelled else fault)
  }

  /** Whatever passed before it, a line that cannot be read ends the wait, and is consumed. */
  lemma ReadErrorEndsTheWait(env: Env, p: Proc, w: Waiter, aborted: bool, n: nat)
    requires GoesOnFor(env, p, n) && p.pos + n < |env.stream| && env.stream[p.pos + n].ReadError?
    requires ExitsLater(env, ClockAt(env, p, n))
    ensures var (outcome, p', _) := WaitFrom(env, p, w, aborted);
      outcome == Reported(env, StreamFault, ClockAt(env, p, n)) && p'.pos == p.pos + n + 1
  {
    var p1, w1, aborted1 := WaitGoesOn(env, p, w, aborted, n);
  }

  /** So does a rejected command, with the reason that was given. */
  lemma RejectionEndsTheWait(env: Env, p: Proc, w: Waiter, aborted: bool, n: nat, command: string, error: string)
    requires GoesOnFor(env, p, n) && p.pos + n < |env.stream|
    requires env.stream[p.pos + n].Event? && env.stream[p.pos + n].event == Response(command, Some(false), error)
    requires ExitsLater(env, ClockAt(env, p, n))
    ensures var (outcome, p', _) := WaitFrom(env, p, w, aborted);
      outcome == Reported(env, Rejected(command, error), ClockAt(env, p, n)) && p'.pos == p.pos + n + 1
  {
    var p1, w1, aborted1 := WaitGoesOn(env, p, w, aborted, n);
  }

  /** And so does the end of the output, if the process does not exit before it. */
  lemma EndOfOutputEndsTheWait(env: Env, p: Proc, w: Waiter, aborted: bool, n: nat)
    requires GoesOnFor(env, p, n) && p.pos + n == |env.stream| && env.close.Some?
    requires ExitsLater(env, Max(ClockAfter(env, p, n), env.close.value))
    ensures WaitFrom(env, p, w, aborted).0 ==
      Reported(env, EndOfFile, Max(ClockAfter(env, p, n), env.close.value))
  {
    var p1, w1, aborted1 := WaitGoesOn(env, p, w, aborted, n);
  }

  /** The exit of the process ends the wait when nothing more arrives before it, even if the output
      is never closed. */
  lemma ExitEndsTheWait(env: Env, p: Proc, w: Waiter, aborted: bool, n: nat)
    requires GoesOnFor(env, p, n) && env.exit.Some?
    requires p.pos + n < |env.stream| ==> env.exit.value < env.stream[p.pos + n].at
    requires p.pos + n == |env.stream| && env.close.Some? ==> env.exit.value < env.close.value
    requires ClockAfter(env, p, n) <= env.exit.value
    ensures var (outcome, p', _) := WaitFrom(env, p, w, aborted);
      outcome == Reported(env, ProcessExited, env.exit.value) && p'.pos == p.pos + n
  {
    var p1, w1, aborted1 := WaitGoesOn(env, p, w, aborted, n);
  }

  /** Otherwise a wait without an answer goes on, cancelled or not. */
  lemma SilenceNeverEnds(env: Env, p: Proc, w: Waiter, aborted: bool, n: nat)
    requires GoesOnFor(env, p, n) && p.pos + n == |env.stream| && env.close.None? && env.exit.None?
    ensures WaitFrom(env, p, w, aborted).0 == WaitsForever
  {
    var p1, w1, aborted1 := WaitGoesOn(env, p, w, aborted, n);
  }

  /** The end of the retries without success ends the turn with the error it names, which then stands
      or is rescinded like any other. */
  lemma ExhaustedRetriesCommit(env: Env, p: Proc, w: Waiter, aborted: bool, finalError: string)
    requires p.pos < |env.stream| && env.stream[p.pos].Event? && env.stream[p.pos].event.AutoRetryEnd?
    requires env.stream[p.pos].event.success != Some(true) && env.stream[p.pos].event.finalError == finalError
    requires ExitsLater(env, Max(p.now, env.stream[p.pos].at))
    ensures var p' := AfterEvent(env, p, aborted);
      p'.pos == p.pos + 1 && WaitFrom(env, p, w, aborted) == Conclude(env, p', w.(finalErr := finalError))
  {
    EventIsTaken(env, p, w, aborted);
  }

  // ----- dialogs and tools -----

  /** The dialogs that the agent opened. */
  function Dialogs(s: seq<Arrival>): seq<string> {
    if s == [] then []
    else
      (if s[0].Event? && s[0].event.UiRequest? && s[0].event.verb in ["select", "confirm", "input", "editor"]
       then [s[0].event.id] else []) + Dialogs(s[1..])
  }

  function Tools(s: seq<Arrival>): seq<string> {
    if s == [] then []
    else (if s[0].Event? && s[0].event.ToolStart? then [s[0].event.tool] else []) + Tools(s[1..])
  }

  /** The dialogs that were cancelled. */
  function Answered(sent: seq<Command>): seq<string> {
    if sent == [] then []
    else Answered(sent[..|sent| - 1]) + match sent[|sent| - 1] case UiCancelled(id) => [id] case _ => []
  }

  lemma AnsweredAppend(sent: seq<Command>, c: Command)
    ensures Answered(sent + [c]) == Answered(sent) + match c case UiCancelled(id) => [id] case _ => []
  {
    assert (sent + [c])[..|sent|] == sent;
  }

  lemma FirstCons(a: Arrival, s: seq<Arrival>)
    ensures Dialogs([a] + s) == Dialogs([a]) + Dialogs(s) && Tools([a] + s) == Tools([a]) + Tools(s)
  {
    assert ([a] + s)[1..] == s;
  }

  /** From `p` to `p'` every dialog of the consumed events is cancelled, and every tool shown. */
  ghost predicate ServesAll(env: Env, p: Proc, p': Proc) {
    && p.pos <= p'.pos <= |env.stream|
    && Answered(p'.sent) == Answered(p.sent) + Dialogs(env.stream[p.pos..p'.pos])
    && p'.tools == p.tools + Tools(env.stream[p.pos..p'.pos])
  }

  /** However it ends, an event loop cancels each dialog of the events it has consumed, once and in
      order, and shows each tool they start. */
  lemma {:induction false} DialogsAreCancelled(env: Env, p: Proc, w: Waiter, aborted: bool)
    requires p.pos <= |env.stream|
    ensures ServesAll(env, p, DrainEvents(env, p, w, aborted).1)
    decreases |env.stream| - p.pos
  {
    var (next, p1) := NextEvent(env, p);
    NextServes(env, p);
    if next.Got? {
      var aborts := !aborted && Cancelled(env, p1.now);
      var p2 := if aborts then p1.(sent := p1.sent + [AbortCommand]) else p1;
      AnsweredAppend(p1.sent, AbortCommand);
      var p3 := SideEffects(p2, next.event);
      EventServes(env, p, p2, next.event);
      hide NextEvent, SideEffects, Handled, ServesAll, IsTerminal, Answered;
      if !IsRejection(next.event) && !IsTerminal(next.event) {
        DialogsAreCancelled(env, p3, Handled(w, next.event), aborted || aborts);
        ServesOn(env, p, p3, DrainEvents(env, p3, Handled(w, next.event), aborted || aborts).1);
      }
    }
  }

  lemma NextServes(env: Env, p: Proc)
    requires p.pos <= |env.stream|
    ensures var (next, p1) := NextEvent(env, p);
      && p1.sent == p.sent && p1.tools == p.tools
      && (next.Got? ==>
            && p1.pos == p.pos + 1 <= |env.stream|
            && env.stream[p.pos].Event? && env.stream[p.pos].event == next.event)
      && (!next.Got? ==> ServesAll(env, p, p1))
  {
    var p1 := NextEvent(env, p).1;
    assert p1.pos > p.pos ==> env.stream[p.pos..p1.pos] == [env.stream[p.pos]];
  }

  lemma EventServes(env: Env, p: Proc, p2: Proc, e: Event)
    requires p.pos < |env.stream| && p2.pos == p.pos + 1 && p2.tools == p.tools
    requires Answered(p2.sent) == Answered(p.sent)
    requires env.stream[p.pos].Event? && env.stream[p.pos].event == e
    ensures ServesAll(env, p, SideEffects(p2, e)) && SideEffects(p2, e).pos == p.pos + 1
  {
    hide Dialogs, Tools, Answered;
    var a := env.stream[p.pos];
    assert env.stream[p.pos..p.pos + 1] == [a];
    OneOnly(a);
    if e.UiRequest? { AnsweredAppend(p2.sent, UiCancelled(e.id)); }
  }

  lemma OneOnly(a: Arrival)
    requires a.Event?
    ensures Dialogs([a]) == if a.event.UiRequest? && IsDialog(a.event.verb) then [a.event.id] else []
    ensures Tools([a]) == if a.event.ToolStart? then [a.event.tool] else []
  {
    assert [a][1..] == [];
  }

  lemma ServesOn(env: Env, p: Proc, p1: Proc, p2: Proc)
    requires p.pos < |env.stream| && p1.pos == p.pos + 1 && ServesAll(env, p, p1) && ServesAll(env, p1, p2)
    ensures ServesAll(env, p, p2)
  {
    var a := env.stream[p.pos];
    assert env.stream[p.pos..p1.pos] == [a];
    assert env.stream[p.pos..p2.pos] == [a] + env.stream[p1.pos..p2.pos];
    FirstCons(a, env.stream[p1.pos..p2.pos]);
  }

  /** A grace window only looks: it sends nothing and shows nothing. */
  lemma {:induction false} GraceHasNoEffects(env: Env, p: Proc, w: Waiter, end: int)
    ensures var p' := GraceDrain(env, p, w, end).1; p'.sent == p.sent && p'.tools == p.tools
    decreases |env.stream| - p.pos
  {
    if ArrivesFirst(env, p, end) {
      var (next, p1) := Taken(env, p);
      if next.Got? && !ContinuesTurn(next.event) { GraceHasNoEffects(env, p1, w, end); }
    }
  }

  // ----- the end of a grace window -----

  /** A line that cannot be read ends the window, and is consumed; the end of the output ends it, too. */
  lemma ReadErrorEndsTheWindow(env: Env, p: Proc, w: Waiter, end: int)
    requires p.pos <= |env.stream|
    requires if p.pos < |env.stream| then env.stream[p.pos].ReadError? && Max(p.now, env.stream[p.pos].at) < end
             else env.close.Some? && Max(p.now, env.close.value) < end
    ensures var (rescinded, p', w') := GraceDrain(env, p, w, end);
      !rescinded && w' == w && p'.pos == if p.pos < |env.stream| then p.pos + 1 else p.pos
  {
  }

  /** It closes after 200 ms, or with the cancellation or the exit, whichever comes first. */
  lemma WindowCloses(env: Env, now: int)
    ensures var end := GraceEnd(env, now);
      && end <= now + 200
      && (env.cancel.Some? ==> end <= Max(now, env.cancel.value))
      && (env.exit.Some? ==> end <= Max(now, env.exit.value))
      && (|| end == now + 200
          || (env.cancel.Some? && end == Max(now, env.cancel.value))
          || (env.exit.Some? && end == Max(now, env.exit.value)))
  {
  }
}
