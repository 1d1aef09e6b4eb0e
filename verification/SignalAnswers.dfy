/** What one call of the multiplexer is given over a run: at most the first response to its id,
    or, when the id counter has come round, nothing at all. */
module SignalAnswers {
  import opened SignalRpc

  // ----- calls that nobody will answer -----

  /** The call has registered, has been sent nothing, and nobody will send it anything. */
  ghost predicate Abandoned(s: Client, i: nat) {
    && i < |s.calls|
    && !s.calls[i].phase.Numbered?
    && s.calls[i].sent == 0
    && !IsPending(s.pending, i, s.calls[i])
    && s.reader != Delivering(i)
  }

  lemma AddsToSettled(s: Client, step: Step, i: nat)
    requires Inv(s) && Enabled(s, step) && i < |s.calls|
    requires !IsPending(s.pending, i, s.calls[i]) && s.reader != Delivering(i)
    ensures Adds(s, step, i) == []
  {
  }

  lemma SettledStays(s: Client, step: Step, i: nat)
    requires Inv(s) && Enabled(s, step) && i < |s.calls| && !s.calls[i].phase.Numbered?
    requires !IsPending(s.pending, i, s.calls[i]) && s.reader != Delivering(i)
    ensures var s' := Apply(s, step);
      i < |s'.calls| && !IsPending(s'.pending, i, s'.calls[i]) && s'.reader != Delivering(i)
  {
    CallAfter(s, step, i);
    hide CallsAreSound, LinesAreUsedOnce, OpenCallsAreTracked, Given;
  }

  lemma StepKeepsAbandoned(s: Client, step: Step, i: nat)
    requires Inv(s) && Enabled(s, step) && Abandoned(s, i)
    ensures Abandoned(Apply(s, step), i)
  {
    CallAfter(s, step, i);
    AddsToSettled(s, step, i);
    SettledStays(s, step, i);
    hide Apply, Enabled, Inv;
  }

  lemma {:induction false} RunKeepsAbandoned(s: Client, run: seq<Step>, i: nat)
    requires Inv(s) && Legal(s, run) && Abandoned(s, i)
    ensures Abandoned(Exec(s, run), i)
    decreases |run|
  {
    hide Inv, Enabled, Apply, Abandoned;
    if run != [] {
      StepKeepsInv(s, run[0]);
      StepKeepsAbandoned(s, run[0], i);
      RunKeepsAbandoned(Apply(s, run[0]), run[1..], i);
    }
  }

  lemma SameIdNextRound(i: nat)
    ensures IdOf(i + WRAP) == IdOf(i)
  {
    assert (i + WRAP + 1) % WRAP == (i + 1) % WRAP;
  }

  /** The call that is numbered a whole round later takes the entry of one that waits. */
  lemma NextRoundTakesTheEntry(s: Client, i: nat) returns (run: seq<Step>)
    requires Inv(s) && !s.reader.Failing? && |s.calls| == i + WRAP
    requires IsOpen(s.calls[i]) && IsPending(s.pending, i, s.calls[i])
    ensures Legal(s, run) && |Exec(s, run).calls| == |s.calls| + 1
    ensures Abandoned(Exec(s, run), i) && IsOpen(Exec(s, run).calls[i])
  {
    var j := |s.calls|;
    var s1 := Apply(s, TakeNumber);
    assert s.calls[i].id == IdOf(i) && s.calls[i].sent == 0 && s.reader != Delivering(i);
    CallAdded(s, TakeNumber);
    SameIdNextRound(i);
    Prepend(s1, Register(j), []);
    Prepend(s, TakeNumber, [Register(j)] + []);
    run := [TakeNumber] + ([Register(j)] + []);
    var s2 := Apply(s1, Register(j));
    hide Inv, IdOf;
    assert s1.calls[i] == s.calls[i] && s1.calls[j].id == s.calls[i].id;
    assert Abandoned(s2, i);
  }

  /** n calls that take a number and get no further. */
  lemma {:induction false} ManyNumbers(s: Client, n: nat) returns (run: seq<Step>)
    ensures Legal(s, run)
    ensures var s' := Exec(s, run);
      s'.pending == s.pending && s'.reader == s.reader && s.calls <= s'.calls && |s'.calls| == |s.calls| + n
    decreases n
  {
    if n == 0 {
      run := [];
    } else {
      var s1 := Apply(s, TakeNumber);
      run := ManyNumbers(s1, n - 1);
      Prepend(s, TakeNumber, run);
      run := [TakeNumber] + run;
    }
  }

  /** No bound on the calls, no promise: there is a run from the start after which the first call
      waits, and is never sent anything however the run goes on. */
  lemma FirstCallMayWaitForever() returns (run: seq<Step>)
    ensures Legal(Fresh(), run) && |Exec(Fresh(), run).calls| == 0x1_0000_0000_0000_0000 + 1
    ensures IsOpen(Exec(Fresh(), run).calls[0])
    ensures forall more :: Legal(Exec(Fresh(), run), more) ==>
      var s := Exec(Exec(Fresh(), run), more); s.calls != [] && s.calls[0].sent == 0
  {
    var first := RegisterFirst();
    var s1 := Exec(Fresh(), first);
    var others := ManyNumbers(s1, WRAP - 1);
    ExecAppend(Fresh(), first, others);
    FreshIsSound();
    RunKeepsInv(Fresh(), first + others);
    var s2 := Exec(s1, others);
    assert s2.calls[0] == s1.calls[0];
    var last := NextRoundTakesTheEntry(s2, 0);
    ExecAppend(Fresh(), first + others, last);
    run := first + others + last;
    RunKeepsInv(Fresh(), run);
    hide Inv, Legal, Exec;
    var s3 := Exec(Fresh(), run);
    forall more | Legal(s3, more) ensures Exec(s3, more).calls != [] && Exec(s3, more).calls[0].sent == 0 {
      RunKeepsAbandoned(s3, more, 0);
    }
  }

  lemma RegisterFirst() returns (run: seq<Step>)
    ensures Legal(Fresh(), run)
    ensures var s := Exec(Fresh(), run);
      |s.calls| == 1 && IsOpen(s.calls[0]) && IsPending(s.pending, 0, s.calls[0]) && s.reader == Scanning
  {
    var s1 := Apply(Fresh(), TakeNumber);
    Prepend(s1, Register(0), []);
    Prepend(Fresh(), TakeNumber, [Register(0)] + []);
    run := [TakeNumber] + ([Register(0)] + []);
  }

  // ----- the first response, in every interleaving -----

  ghost predicate NoneIn(lines: seq<Line>, id: string, from: nat, to: nat) {
    forall l :: from <= l < to && l < |lines| ==> !RespondsTo(lines[l], id)
  }

  /** Lines that the reader has dealt with, but for a match. */
  function Seen(s: Client): nat {
    if s.reader.Matching? && s.lines != [] then |s.lines| - 1 else |s.lines|
  }

  predicate ReadsAreOver(s: Client) {
    s.reader.Failing? || s.reader.Ending? || s.reader.Ended?
  }

  /** Call i waits in the map, and none of the lines seen since number n0 responds to it. */
  ghost predicate StillPending(s: Client, i: nat, n0: nat)
    requires i < |s.calls|
  {
    IsPending(s.pending, i, s.calls[i]) && n0 <= Seen(s) && NoneIn(s.lines, s.calls[i].id, n0, Seen(s))
  }

  /** The reader has taken its entry, for the first line that responds to it. */
  ghost predicate AboutToGet(s: Client, i: nat, n0: nat)
    requires i < |s.calls|
  {
    && s.reader == Delivering(i) && n0 < |s.lines|
    && NoneIn(s.lines, s.calls[i].id, n0, |s.lines| - 1)
    && RespondsTo(s.lines[|s.lines| - 1], s.calls[i].id)
  }

  /** It has its message: the first response, or the end of reads that held none. */
  ghost predicate HasFirst(s: Client, i: nat, n0: nat)
    requires i < |s.calls|
  {
    && |Given(s.calls[i])| == 1
    && match Given(s.calls[i])[0]
       case Response(k) =>
         n0 <= k < |s.lines| && NoneIn(s.lines, s.calls[i].id, n0, k) && RespondsTo(s.lines[k], s.calls[i].id)
       case ReadsEnded =>
         n0 <= |s.lines| && NoneIn(s.lines, s.calls[i].id, n0, |s.lines|) && ReadsAreOver(s)
  }

  ghost predicate OnItsWay(s: Client, i: nat, n0: nat) {
    && i < |s.calls| && n0 <= |s.lines| && !s.calls[i].phase.Numbered?
    && (StillPending(s, i, n0) || AboutToGet(s, i, n0) || HasFirst(s, i, n0) || Abandoned(s, i))
  }

  lemma PendingGoesOn(s: Client, step: Step, i: nat, n0: nat)
    requires Inv(s) && Enabled(s, step) && i < |s.calls| && StillPending(s, i, n0)
    requires !step.Scan? && !step.Match? && !step.FailOne?
    ensures OnItsWay(Apply(s, step), i, n0)
  {
    CallAfter(s, step, i);
    LinesOnlyGrow(s, step);
    var s' := Apply(s, step);
    assert s'.lines == s.lines && Seen(s') == Seen(s);
    assert Adds(s, step, i) == [];
    assert s.calls[i].sent == 0 && !s.calls[i].phase.Numbered? && s.reader != Delivering(i);
    hide Inv, Given, NoneIn, Seen;
  }

  lemma ScanGoesOn(s: Client, line: Line, i: nat, n0: nat)
    requires s.reader.Scanning? && i < |s.calls| && StillPending(s, i, n0)
    ensures StillPending(Scanned(s, line), i, n0)
  {
    hide Normalize;
  }

  /** The current line is for call i. */
  lemma MatchTakes(s: Client, i: nat, n0: nat)
    requires s.reader.Matching? && s.lines != [] && i < |s.calls| && StillPending(s, i, n0)
    requires RespondsTo(s.lines[|s.lines| - 1], s.calls[i].id)
    ensures AboutToGet(Matched(s), i, n0)
  {
    CurrentIdIs(s, s.calls[i].id);
    hide RespondsTo, CurrentId;
  }

  lemma CurrentIdIs(s: Client, id: string)
    requires s.lines != [] && IsResponse(s.lines[|s.lines| - 1])
    ensures RespondsTo(s.lines[|s.lines| - 1], id) <==> id == CurrentId(s)
  {
  }

  /** It is for another id. */
  lemma MatchPasses(s: Client, i: nat, n0: nat)
    requires s.reader.Matching? && s.lines != [] && i < |s.calls| && StillPending(s, i, n0)
    requires !RespondsTo(s.lines[|s.lines| - 1], s.calls[i].id) && CurrentId(s) != s.calls[i].id
    ensures StillPending(Matched(s), i, n0)
  {
    hide RespondsTo, CurrentId;
  }

  lemma MatchGoesOn(s: Client, i: nat, n0: nat)
    requires Inv(s) && s.reader.Matching? && s.lines != [] && i < |s.calls| && StillPending(s, i, n0)
    ensures StillPending(Matched(s), i, n0) || AboutToGet(Matched(s), i, n0)
  {
    assert IsResponse(s.lines[|s.lines| - 1]);
    CurrentIdIs(s, s.calls[i].id);
    hide Inv, StillPending, AboutToGet, Matched, CurrentId, RespondsTo;
    if RespondsTo(s.lines[|s.lines| - 1], s.calls[i].id) {
      MatchTakes(s, i, n0);
    } else {
      MatchPasses(s, i, n0);
    }
  }

  lemma FailGoesOn(s: Client, id: string, i: nat, n0: nat)
    requires Inv(s) && Enabled(s, FailOne(id)) && i < |s.calls| && StillPending(s, i, n0)
    ensures StillPending(Apply(s, FailOne(id)), i, n0) || HasFirst(Apply(s, FailOne(id)), i, n0)
  {
    CallAfter(s, FailOne(id), i);
    assert |Given(s.calls[i])| == s.calls[i].sent == 0;
    hide Inv, Given;
  }

  lemma StepFromPending(s: Client, step: Step, i: nat, n0: nat)
    requires Inv(s) && Enabled(s, step) && i < |s.calls| && StillPending(s, i, n0)
    ensures OnItsWay(Apply(s, step), i, n0)
  {
    CallAfter(s, step, i);
    LinesOnlyGrow(s, step);
    assert s.calls[i].id in s.pending && !s.calls[i].phase.Numbered?;
    if step.Scan? {
      ScanGoesOn(s, step.line, i, n0);
    } else if step.Match? {
      MatchGoesOn(s, i, n0);
    } else if step.FailOne? {
      FailGoesOn(s, step.id, i, n0);
    } else {
      PendingGoesOn(s, step, i, n0);
    }
    hide Inv, StillPending, AboutToGet, HasFirst, Abandoned;
  }

  lemma DeliveringWaits(s: Client, step: Step)
    requires Enabled(s, step) && s.reader.Delivering? && !step.Deliver?
    ensures Apply(s, step).reader == s.reader && Apply(s, step).lines == s.lines
  {
  }

  lemma DeliveryIsFirst(s: Client, i: nat, n0: nat)
    requires Inv(s) && Enabled(s, Deliver) && i < |s.calls| && AboutToGet(s, i, n0)
    ensures var s' := Apply(s, Deliver); i < |s'.calls| && HasFirst(s', i, n0)
  {
    CallAfter(s, Deliver, i);
    assert |Given(s.calls[i])| == s.calls[i].sent == 0;
    hide Inv, Given, RespondsTo;
  }

  lemma StepFromTaken(s: Client, step: Step, i: nat, n0: nat)
    requires Inv(s) && Enabled(s, step) && i < |s.calls| && AboutToGet(s, i, n0)
    ensures var s' := Apply(s, step); i < |s'.calls| && (AboutToGet(s', i, n0) || HasFirst(s', i, n0))
  {
    if step.Deliver? {
      DeliveryIsFirst(s, i, n0);
    } else {
      CallAfter(s, step, i);
      DeliveringWaits(s, step);
      hide Inv, Apply, Enabled, RespondsTo;
    }
  }

  lemma StepFromFirst(s: Client, step: Step, i: nat, n0: nat)
    requires Inv(s) && Enabled(s, step) && i < |s.calls| && HasFirst(s, i, n0)
    ensures var s' := Apply(s, step); i < |s'.calls| && HasFirst(s', i, n0)
  {
    CallAfter(s, step, i);
    AddsCurrentLine(s, step, i);
    LinesOnlyGrow(s, step);
    assert |Given(s.calls[i])| == s.calls[i].sent;
    if ReadsAreOver(s) { OverStaysOver(s, step); }
    hide Inv, Apply, Enabled, Given, Adds, RespondsTo, ReadsAreOver;
  }

  lemma OverStaysOver(s: Client, step: Step)
    requires Enabled(s, step) && ReadsAreOver(s)
    ensures ReadsAreOver(Apply(s, step)) && Apply(s, step).lines == s.lines
  {
  }

  lemma StepKeepsOnItsWay(s: Client, step: Step, i: nat, n0: nat)
    requires Inv(s) && Enabled(s, step) && OnItsWay(s, i, n0)
    ensures OnItsWay(Apply(s, step), i, n0)
  {
    CallAfter(s, step, i);
    LinesOnlyGrow(s, step);
    hide StillPending, AboutToGet, HasFirst, Abandoned, Inv, Apply, Enabled, Given, Adds;
    if StillPending(s, i, n0) {
      StepFromPending(s, step, i, n0);
    } else if AboutToGet(s, i, n0) {
      StepFromTaken(s, step, i, n0);
    } else if HasFirst(s, i, n0) {
      StepFromFirst(s, step, i, n0);
    } else {
      StepKeepsAbandoned(s, step, i);
    }
  }

  lemma {:induction false} RunKeepsOnItsWay(s: Client, run: seq<Step>, i: nat, n0: nat)
    requires Inv(s) && Legal(s, run) && OnItsWay(s, i, n0)
    ensures OnItsWay(Exec(s, run), i, n0)
    decreases |run|
  {
    hide Inv, Enabled, Apply, OnItsWay;
    if run != [] {
      StepKeepsInv(s, run[0]);
      StepKeepsOnItsWay(s, run[0], i, n0);
      RunKeepsOnItsWay(Apply(s, run[0]), run[1..], i, n0);
    }
  }

  lemma {:induction false} FirstForFinds(lines: seq<Line>, id: string, from: nat, end: nat)
    requires from <= end <= |lines| && NoneIn(lines, id, from, end) && (end < |lines| ==> RespondsTo(lines[end], id))
    ensures FirstFor(id, lines[from..], from) == if end < |lines| then Response(end) else ReadsEnded
    decreases end - from
  {
    if from < end {
      assert lines[from..][1..] == lines[from + 1..];
      FirstForFinds(lines, id, from + 1, end);
    }
  }

  lemma OnItsWayMeans(s: Client, i: nat, n0: nat)
    requires Inv(s) && OnItsWay(s, i, n0)
    ensures Given(s.calls[i]) == [] || Given(s.calls[i]) == [FirstFor(IdOf(i), s.lines[n0..], n0)]
  {
    var c := s.calls[i];
    assert c.id == IdOf(i) && |Given(c)| == c.sent;
    if HasFirst(s, i, n0) {
      var m := Given(c)[0];
      hide Inv;
      FirstForFinds(s.lines, c.id, n0, if m.Response? then m.line else |s.lines|);
      assert Given(c) == [m];
    } else {
      assert c.sent == 0;
    }
  }

  /** Whatever calls, consumer and reader do in between: a call that has registered is given at
      most one message, and that is the first response to its id among the lines that the reader
      had not matched then, or the end of the reads if they held none. */
  lemma FirstResponseIsGiven(past: seq<Step>, run: seq<Step>, i: nat)
    requires Legal(Fresh(), past) && Legal(Exec(Fresh(), past), run)
    requires var s := Exec(Fresh(), past); i < |s.calls| && IsPending(s.pending, i, s.calls[i])
    ensures var s, s' := Exec(Fresh(), past), Exec(Exec(Fresh(), past), run);
      && Seen(s) <= |s'.lines| && i < |s'.calls|
      && (Given(s'.calls[i]) == [] || Given(s'.calls[i]) == [FirstFor(IdOf(i), s'.lines[Seen(s)..], Seen(s))])
  {
    var s := Exec(Fresh(), past);
    FreshIsSound();
    RunKeepsInv(Fresh(), past);
    PendingIsOnItsWay(s, i);
    RunKeepsOnItsWay(s, run, i, Seen(s));
    RunKeepsInv(s, run);
    hide Legal, Exec, Inv, Given;
    OnItsWayMeans(Exec(s, run), i, Seen(s));
  }

  lemma PendingIsOnItsWay(s: Client, i: nat)
    requires Inv(s) && i < |s.calls| && IsPending(s.pending, i, s.calls[i])
    ensures OnItsWay(s, i, Seen(s))
  {
    assert !s.calls[s.pending[s.calls[i].id]].phase.Numbered?;
  }

  /** ... and while it waits without one, no line that the reader has dealt with responds to it,
      but for the one the reader is about to hand over, as long as the counter has not come round. */
  lemma NoResponseIsMissed(past: seq<Step>, run: seq<Step>, i: nat)
    requires Legal(Fresh(), past) && Legal(Exec(Fresh(), past), run)
    requires var s := Exec(Fresh(), past); i < |s.calls| && IsPending(s.pending, i, s.calls[i])
    requires var s' := Exec(Exec(Fresh(), past), run);
      |s'.calls| <= WRAP && i < |s'.calls| && IsOpen(s'.calls[i]) && Given(s'.calls[i]) == []
    ensures var n0, s' := Seen(Exec(Fresh(), past)), Exec(Exec(Fresh(), past), run);
      s'.reader == Delivering(i) || NoneIn(s'.lines, IdOf(i), n0, Seen(s'))
  {
    var s := Exec(Fresh(), past);
    FreshIsSound();
    RunKeepsInv(Fresh(), past);
    PendingIsOnItsWay(s, i);
    RunKeepsOnItsWay(s, run, i, Seen(s));
    RunKeepsInv(s, run);
    ExecAppend(Fresh(), past, run);
    NoCallIsForgotten(past + run, i);
    hide Legal, Exec, NoneIn;
    var s' := Exec(s, run);
    assert s'.calls[i].id == IdOf(i) && s'.calls[i].channel == [];
  }
}
