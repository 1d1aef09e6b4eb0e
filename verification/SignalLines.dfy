/** What one line from the daemon does, said of its fields alone, and which entries a call leaves
    behind. */
module SignalLines {
  import opened SignalRpc

  // ----- ids -----

  /** A line with this id, as a string or as a number. */
  predicate Bears(line: Line, id: string) {
    line.Envelope? && (line.id == Text(id) || line.id == Number(id))
  }

  /** A line with no id that a call could have: a missing one, null, an empty one, other JSON. */
  predicate BearsNone(line: Line) {
    !line.Envelope? || line.id.Absent? || line.id.Null? || line.id.OtherJson? || Bears(line, "")
  }

  /** A line responds to the i-th call exactly when its id is the call's number in decimal, as a
      string or as a number; whether it names a method as well does not matter. */
  lemma RespondsIff(line: Line, i: nat)
    ensures RespondsTo(line, IdOf(i)) <==> Bears(line, IdOf(i))
  {
  }

  // ----- one line -----

  /** A response to a registered call is put into the channel of that call, whose entry goes; nothing
      else changes. */
  lemma ResponseIsHandedOver(s: Client, line: Line, i: nat)
    requires Inv(s) && s.reader.Scanning? && i < |s.calls|
    requires s.calls[i].id in s.pending && s.pending[s.calls[i].id] == i && Bears(line, s.calls[i].id)
    ensures var s', c := AfterLine(s, line), s.calls[i];
      && s'.calls == s.calls[i := c.(channel := [Response(|s.lines|)], sent := 1)]
      && s'.pending == s.pending - {c.id}
      && s'.reader == Scanning && s'.notes == s.notes && s'.lines == s.lines + [line]
  {
    assert s.calls[i].sent == 0 && |Given(s.calls[i])| == 0 && s.calls[i].id == IdOf(i);
    assert s.calls[i].channel + [Response(|s.lines|)] == [Response(|s.lines|)];
    RespondsIff(line, i);
    LineIsKept(s, line);
    ResponseLine(s, line);
    hide Inv, AfterLine;
  }

  lemma LineIsKept(s: Client, line: Line)
    requires Inv(s) && s.reader.Scanning?
    ensures AfterLine(s, line).lines == s.lines + [line]
  {
    hide Inv, Normalize;
  }

  /** A notification, which names a method and has no id, is queued as long as there is room. */
  lemma NotificationIsQueued(s: Client, line: Line)
    requires Inv(s) && s.reader.Scanning? && |s.notes| < 128
    requires line.Envelope? && line.verb != "" && line.id.Absent?
    ensures AfterLine(s, line) == s.(notes := s.notes + [|s.lines|], lines := s.lines + [line])
  {
    hide Inv;
  }

  /** Every other line is passed over: one that cannot be read, one without a usable id, and a response
      that no registered call waits for. */
  lemma OtherLinesArePassedOver(s: Client, line: Line)
    requires Inv(s) && s.reader.Scanning?
    requires line.Envelope? && line.verb != "" ==> !line.id.Absent?
    requires BearsNone(line) || forall id :: id in s.pending ==> !Bears(line, id)
    ensures AfterLine(s, line) == s.(lines := s.lines + [line])
    ensures BearsNone(line) ==> Scanned(s, line).reader == Scanning
  {
    hide Inv;
  }

  // ----- giving up -----

  /** A call whose request cannot be written, and one whose context is done, returns with that reason and
      takes its entry with it. */
  lemma GivingUpReturns(s: Client, i: nat, why: Reason)
    requires i < |s.calls| && !s.reader.Failing?
    requires s.calls[i].phase == if why == SendFailed then Registered else Waiting
    ensures var decide := if why == SendFailed then Encode(i, false) else GiveUp(i);
      && Enabled(s, decide) && Enabled(Apply(s, decide), Leave(i))
      && var s' := Apply(Apply(s, decide), Leave(i));
        && s'.calls == s.calls[i := s.calls[i].(phase := Returned(GaveUp(why)))]
        && s'.pending == s.pending - {s.calls[i].id}
  {
  }

  // ----- entries -----

  /** The call has not returned, or it returned because the connection was closed. */
  predicate MayBePending(c: Call) {
    c.phase.Registered? || c.phase.Waiting? || c.phase.Leaving? || c.phase == Returned(Closed)
  }

  ghost predicate PendingCallsAreOpen(s: Client) {
    forall id :: id in s.pending ==> s.pending[id] < |s.calls| && MayBePending(s.calls[s.pending[id]])
  }

  lemma StepKeepsPendingOpen(s: Client, step: Step)
    requires Inv(s) && PendingCallsAreOpen(s) && Enabled(s, step)
    ensures PendingCallsAreOpen(Apply(s, step))
  {
    assert PendingIsSound(s);
    forall id | id in s.pending ensures s.calls[s.pending[id]].channel == [] {
      assert |Given(s.calls[s.pending[id]])| == 0;
    }
    hide Inv, Given, Normalize, Decimal, IsResponse, IsNotification;
  }

  lemma {:induction false} RunKeepsPendingOpen(s: Client, run: seq<Step>)
    requires Inv(s) && PendingCallsAreOpen(s) && Legal(s, run)
    ensures PendingCallsAreOpen(Exec(s, run))
    decreases |run|
  {
    hide Inv, PendingCallsAreOpen, Enabled, Apply;
    if run != [] {
      StepKeepsInv(s, run[0]);
      StepKeepsPendingOpen(s, run[0]);
      RunKeepsPendingOpen(Apply(s, run[0]), run[1..]);
    }
  }

  /** In every interleaving a call that has its response, failed to send or gave up leaves no entry
      behind; only the end of the connection may find one. */
  lemma NoEntryIsLeftBehind(run: seq<Step>, id: string)
    requires Legal(Fresh(), run) && id in Exec(Fresh(), run).pending
    ensures var s := Exec(Fresh(), run);
      s.pending[id] < |s.calls| && MayBePending(s.calls[s.pending[id]])
  {
    FreshIsSound();
    RunKeepsPendingOpen(Fresh(), run);
  }
}
