/** The JSON-RPC multiplexer: any number of concurrent calls share one connection with one
    reader. Every critical section, every channel operation and every way a call may be
    overtaken between two of them is a step of its own. */
module SignalRpc {

  /** nextID is an unsigned 64-bit counter. */
  const WRAP: nat := 0x1_0000_0000_0000_0000
  /** Room in the notification channel. */
  const NOTES: nat := 128

  // ----- request ids -----

  function Digit(d: nat): (c: char)
    requires d < 10
  {
    '0' + d as char
  }

  /** strconv.FormatUint with base 10 */
  function Decimal(n: nat): (s: string)
    ensures s != ""
  {
    if n < 10 then [Digit(n)] else Decimal(n / 10) + [Digit(n % 10)]
  }

  function IdOf(i: nat): string {
    Decimal((i + 1) % WRAP)
  }

  function DigitValue(c: char): int {
    c as int - '0' as int
  }

  function ValueOf(s: string): int {
    if s == "" then 0 else 10 * ValueOf(s[..|s| - 1]) + DigitValue(s[|s| - 1])
  }

  lemma {:induction false} DecimalRoundTrip(n: nat)
    ensures ValueOf(Decimal(n)) == n
  {
    var s := Decimal(n);
    if n >= 10 {
      DecimalRoundTrip(n / 10);
      assert s[..|s| - 1] == Decimal(n / 10);
    } else {
      assert s[..|s| - 1] == "";
    }
  }

  /** As long as the counter has not come round, no two calls have the same id. */
  lemma IdsAreDistinct(i: nat, j: nat)
    requires i < j < WRAP
    ensures IdOf(i) != IdOf(j)
  {
    DecimalRoundTrip((i + 1) % WRAP);
    DecimalRoundTrip((j + 1) % WRAP);
  }

  // ----- lines from the daemon -----

  datatype RawId = Absent | Null | Text(text: string) | Number(literal: string) | OtherJson

  datatype Line =
    | Blank
    | Malformed
    | Envelope(verb: string, id: RawId, body: string)

  /** normalizeJSONRPCID: null decodes into an empty string without an error. */
  function Normalize(id: RawId): string {
    match id
    case Text(text) => text
    case Number(literal) => literal
    case _ => ""
  }

  predicate IsNotification(line: Line) {
    line.Envelope? && line.verb != "" && line.id.Absent?
  }

  predicate IsResponse(line: Line) {
    line.Envelope? && !IsNotification(line) && Normalize(line.id) != ""
  }

  // ----- state -----

  /** What is sent to a call: the response on a line, by line number, or the end of the reads. */
  datatype Message = Response(line: nat) | ReadsEnded

  datatype Reason = SendFailed | ContextDone

  datatype Outcome = Got(message: Message) | GaveUp(why: Reason) | Closed

  /** Where a call is; `Leaving` is between its decision to give up and removePending. */
  datatype Phase = Numbered | Registered | Waiting | Leaving(why: Reason) | Returned(outcome: Outcome)

  /** `channel` has capacity 1; `sent` counts the messages ever put into it. */
  datatype Call = Call(id: string, phase: Phase, channel: seq<Message>, sent: nat)

  /** Where the reader is; it holds the lock of the pending map while `Failing`. */
  datatype Reader =
    | Scanning
    | Notifying
    | Matching
    | Delivering(call: nat)
    | Failing
    | Ending
    | Ended

  datatype Client = Client(
    nextID: nat,
    pending: map<string, nat>,
    calls: seq<Call>,
    lines: seq<Line>,
    notes: seq<nat>,
    taken: seq<nat>,
    reader: Reader)

  function Fresh(): Client {
    Client(0, map[], [], [], [], [], Scanning)
  }

  predicate IsDone(s: Client) {
    s.reader.Ended?
  }

  // ----- steps -----

  datatype Step =
    | TakeNumber      // nextID.Add, make the channel
    | Register(call: nat)
    | Encode(call: nat, ok: bool)
    | GiveUp(call: nat)       // the select takes ctx.Done
    | Leave(call: nat)        // removePending, then return
    | SeeClosed(call: nat)    // the select takes done
    | Receive(call: nat)      // the select takes the call's channel
    | Scan(line: Line)
    | Notify
    | TakeNote
    | Match
    | Deliver
    | ReadsEnd
    | FailOne(id: string)
    | FailDone
    | Close

  predicate Has(s: Client, i: nat, phase: Phase) {
    i < |s.calls| && s.calls[i].phase == phase
  }

  predicate Enabled(s: Client, step: Step) {
    match step
    case TakeNumber => true
    case Register(i) => Has(s, i, Numbered) && !s.reader.Failing?
    case Encode(i, _) => Has(s, i, Registered)
    case GiveUp(i) => Has(s, i, Waiting)
    case Leave(i) => i < |s.calls| && s.calls[i].phase.Leaving? && !s.reader.Failing?
    case SeeClosed(i) => Has(s, i, Waiting) && IsDone(s)
    case Receive(i) => Has(s, i, Waiting) && s.calls[i].channel != []
    case Scan(_) => s.reader.Scanning?
    case Notify => s.reader.Notifying? && |s.notes| < NOTES && s.lines != []
    case TakeNote => s.notes != []
    case Match => s.reader.Matching? && s.lines != []
    case Deliver =>
      s.reader.Delivering? && s.reader.call < |s.calls| && s.calls[s.reader.call].channel == [] && s.lines != []
    case ReadsEnd => s.reader.Scanning?
    case FailOne(id) =>
      s.reader.Failing? && id in s.pending && s.pending[id] < |s.calls| && s.calls[s.pending[id]].channel == []
    case FailDone => s.reader.Failing? && s.pending == map[]
    case Close => s.reader.Ending?
  }

  function WithPhase(s: Client, i: nat, phase: Phase): Client
    requires i < |s.calls|
  {
    s.(calls := s.calls[i := s.calls[i].(phase := phase)])
  }

  function Sent(s: Client, i: nat, m: Message): Client
    requires i < |s.calls|
  {
    var c := s.calls[i];
    s.(calls := s.calls[i := c.(channel := c.channel + [m], sent := c.sent + 1)])
  }

  /** Where one line leads the reader. */
  function Scanned(s: Client, line: Line): Client {
    s.(lines := s.lines + [line],
       reader := if IsNotification(line) then Notifying else if IsResponse(line) then Matching else Scanning)
  }

  /** The id on the reader's current line. */
  function CurrentId(s: Client): string
    requires s.lines != []
  {
    var line := s.lines[|s.lines| - 1];
    if line.Envelope? then Normalize(line.id) else ""
  }

  function Matched(s: Client): Client
    requires s.lines != []
  {
    var id := CurrentId(s);
    if id in s.pending then s.(pending := s.pending - {id}, reader := Delivering(s.pending[id]))
    else s.(reader := Scanning)
  }

  function Apply(s: Client, step: Step): Client
    requires Enabled(s, step)
  {
    match step
    case TakeNumber =>
      var n := (s.nextID + 1) % WRAP;
      s.(nextID := n, calls := s.calls + [Call(Decimal(n), Numbered, [], 0)])
    case Register(i) => WithPhase(s, i, Registered).(pending := s.pending[s.calls[i].id := i])
    case Encode(i, ok) => WithPhase(s, i, if ok then Waiting else Leaving(SendFailed))
    case GiveUp(i) => WithPhase(s, i, Leaving(ContextDone))
    case Leave(i) => WithPhase(s, i, Returned(GaveUp(s.calls[i].phase.why))).(pending := s.pending - {s.calls[i].id})
    case SeeClosed(i) => WithPhase(s, i, Returned(Closed))
    case Receive(i) =>
      var c := s.calls[i];
      s.(calls := s.calls[i := c.(phase := Returned(Got(c.channel[0])), channel := c.channel[1..])])
    case Scan(line) => Scanned(s, line)
    case Notify => s.(notes := s.notes + [|s.lines| - 1], reader := Scanning)
    case TakeNote => s.(notes := s.notes[1..], taken := s.taken + [s.notes[0]])
    case Match => Matched(s)
    case Deliver => Sent(s, s.reader.call, Response(|s.lines| - 1)).(reader := Scanning)
    case ReadsEnd => s.(reader := Failing)
    case FailOne(id) => Sent(s, s.pending[id], ReadsEnded).(pending := s.pending - {id})
    case FailDone => s.(reader := Ending)
    case Close => s.(reader := Ended)
  }

  ghost predicate Legal(s: Client, run: seq<Step>)
    decreases |run|
  {
    run == [] || (Enabled(s, run[0]) && Legal(Apply(s, run[0]), run[1..]))
  }

  ghost function Exec(s: Client, run: seq<Step>): Client
    requires Legal(s, run)
    decreases |run|
  {
    if run == [] then s else Exec(Apply(s, run[0]), run[1..])
  }

  // ----- invariant -----

  /** The message a call has been given, waiting in its channel or returned. */
  function Given(c: Call): seq<Message> {
    if c.phase.Returned? && c.phase.outcome.Got? then [c.phase.outcome.message] + c.channel else c.channel
  }

  predicate Answers(s: Client, c: Call, line: nat) {
    line < |s.lines| && IsResponse(s.lines[line]) && Normalize(s.lines[line].id) == c.id
  }

  predicate GivenOwn(s: Client, c: Call) {
    forall m :: m in Given(c) && m.Response? ==> Answers(s, c, m.line)
  }

  /** The line the reader still has to hand out. */
  predicate Undelivered(s: Client, line: nat) {
    (s.reader.Matching? || s.reader.Delivering?) && line == |s.lines| - 1
  }

  ghost predicate CallsAreSound(s: Client) {
    && s.nextID == |s.calls| % WRAP
    && (forall i {:trigger s.calls[i]} :: 0 <= i < |s.calls| ==>
          && s.calls[i].id == IdOf(i)
          && |Given(s.calls[i])| == s.calls[i].sent <= 1
          && (s.calls[i].phase.Numbered? ==> s.calls[i].sent == 0)
          && GivenOwn(s, s.calls[i]))
  }

  /** A registered call has not been sent anything. */
  ghost predicate PendingIsSound(s: Client) {
    forall id :: id in s.pending ==>
      && s.pending[id] < |s.calls|
      && s.calls[s.pending[id]].id == id
      && s.calls[s.pending[id]].sent == 0
      && !s.calls[s.pending[id]].phase.Numbered?
  }

  ghost predicate ReaderIsSound(s: Client) {
    && (s.reader.Notifying? || s.reader.Matching? || s.reader.Delivering? ==> s.lines != [])
    && (s.reader.Matching? || s.reader.Delivering? ==> IsResponse(s.lines[|s.lines| - 1]))
    && (s.reader.Delivering? ==>
          && s.reader.call < |s.calls|
          && s.calls[s.reader.call].id == CurrentId(s)
          && s.calls[s.reader.call].sent == 0
          && !s.calls[s.reader.call].phase.Numbered?
          && !(CurrentId(s) in s.pending && s.pending[CurrentId(s)] == s.reader.call))
  }

  /** No line has been handed to two calls, and the current one to none. */
  ghost predicate LinesAreUsedOnce(s: Client) {
    && (forall i, j, m {:trigger m in Given(s.calls[i]), m in Given(s.calls[j])} ::
          0 <= i < j < |s.calls| && m in Given(s.calls[i]) && m in Given(s.calls[j]) ==> m.ReadsEnded?)
    && (forall i, m {:trigger m in Given(s.calls[i])} ::
          0 <= i < |s.calls| && m in Given(s.calls[i]) && m.Response? ==> !Undelivered(s, m.line))
  }

  /** An unreturned call is registered, has its message, is about to get it, or shares its id. */
  ghost predicate IsTracked(s: Client, i: nat)
    requires i < |s.calls|
  {
    || (s.calls[i].id in s.pending && s.pending[s.calls[i].id] == i)
    || s.calls[i].sent == 1
    || s.reader == Delivering(i)
    || (exists j :: 0 <= j < |s.calls| && j != i && s.calls[j].id == s.calls[i].id)
  }

  predicate IsOpen(c: Call) {
    !c.phase.Numbered? && !c.phase.Returned?
  }

  ghost predicate OpenCallsAreTracked(s: Client) {
    forall i {:trigger s.calls[i]} :: 0 <= i < |s.calls| && IsOpen(s.calls[i]) ==> IsTracked(s, i)
  }

  ghost predicate Inv(s: Client) {
    && CallsAreSound(s)
    && PendingIsSound(s)
    && ReaderIsSound(s)
    && LinesAreUsedOnce(s)
    && OpenCallsAreTracked(s)
    && |s.notes| <= NOTES
  }

  lemma FreshIsSound()
    ensures Inv(Fresh())
  {
  }

  /** What a step puts into the channel of call `i`. */
  function Adds(s: Client, step: Step, i: nat): seq<Message>
    requires Enabled(s, step)
  {
    match step
    case Deliver => if i == s.reader.call then [Response(|s.lines| - 1)] else []
    case FailOne(id) => if i == s.pending[id] then [ReadsEnded] else []
    case _ => []
  }

  lemma CallAfter(s: Client, step: Step, i: nat)
    requires Inv(s) && Enabled(s, step) && i < |s.calls|
    ensures |s.calls| <= |Apply(s, step).calls| <= |s.calls| + 1
    ensures var c, c' := s.calls[i], Apply(s, step).calls[i];
      && c'.id == c.id
      && Given(c') == Given(c) + Adds(s, step, i)
      && c'.sent == c.sent + |Adds(s, step, i)|
      && (c'.phase.Numbered? ==> c.phase.Numbered?)
  {
    hide Inv;
    if step.Receive? && step.call == i {
      assert Given(s.calls[i]) == s.calls[i].channel;
      assert [s.calls[i].channel[0]] + s.calls[i].channel[1..] == s.calls[i].channel;
    }
  }

  lemma CallAdded(s: Client, step: Step)
    requires Inv(s) && Enabled(s, step)
    ensures var s' := Apply(s, step);
      && |s.calls| <= |s'.calls| <= |s.calls| + 1
      && s'.nextID == |s'.calls| % WRAP
      && (|s'.calls| > |s.calls| ==> s'.calls[|s.calls|] == Call(IdOf(|s.calls|), Numbered, [], 0))
  {
  }

  /** Only a line that the reader still had to hand out is added to a call. */
  lemma AddsCurrentLine(s: Client, step: Step, i: nat)
    requires Inv(s) && Enabled(s, step) && i < |s.calls|
    ensures |Adds(s, step, i)| <= if s.calls[i].phase.Numbered? then 0 else 1 - s.calls[i].sent
    ensures forall m :: m in Adds(s, step, i) && m.Response? ==>
      && Undelivered(s, m.line)
      && Answers(s, s.calls[i], m.line)
      && s.reader == Delivering(i)
      && !Undelivered(Apply(s, step), m.line)
  {
  }

  lemma HandedOutStays(s: Client, step: Step, line: nat)
    requires Inv(s) && Enabled(s, step) && line < |s.lines| && !Undelivered(s, line)
    ensures !Undelivered(Apply(s, step), line)
  {
  }

  lemma LinesOnlyGrow(s: Client, step: Step)
    requires Enabled(s, step)
    ensures s.lines <= Apply(s, step).lines
  {
  }

  lemma StepKeepsCalls(s: Client, step: Step)
    requires Inv(s) && Enabled(s, step)
    ensures CallsAreSound(Apply(s, step))
  {
    hide Apply, Adds;
    var s' := Apply(s, step);
    CallAdded(s, step);
    LinesOnlyGrow(s, step);
    forall i | 0 <= i < |s'.calls|
      ensures
        && s'.calls[i].id == IdOf(i)
        && |Given(s'.calls[i])| == s'.calls[i].sent <= 1
        && (s'.calls[i].phase.Numbered? ==> s'.calls[i].sent == 0)
        && GivenOwn(s', s'.calls[i])
    {
      if i < |s.calls| {
        CallAfter(s, step, i);
        AddsCurrentLine(s, step, i);
        assert |Given(s.calls[i])| == s.calls[i].sent && GivenOwn(s, s.calls[i]);
      }
    }
  }

  /** An entry of the pending map after a step was there before, and nothing is sent to its call. */
  lemma EntryBefore(s: Client, step: Step, id: string)
    requires Inv(s) && Enabled(s, step) && id in Apply(s, step).pending
    ensures var i := Apply(s, step).pending[id];
      && i < |s.calls| && s.calls[i].id == id && s.calls[i].sent == 0
      && Adds(s, step, i) == []
      && !Apply(s, step).calls[i].phase.Numbered?
  {
    hide LinesAreUsedOnce, OpenCallsAreTracked, Given, GivenOwn;
  }

  lemma StepKeepsPending(s: Client, step: Step)
    requires Inv(s) && Enabled(s, step)
    ensures PendingIsSound(Apply(s, step))
  {
    hide Apply, Adds, Enabled, Inv;
    var s' := Apply(s, step);
    forall id | id in s'.pending
      ensures var i := s'.pending[id];
        i < |s'.calls| && s'.calls[i].id == id && s'.calls[i].sent == 0 && !s'.calls[i].phase.Numbered?
    {
      EntryBefore(s, step, id);
      CallAfter(s, step, s'.pending[id]);
    }
  }

  lemma StepKeepsReader(s: Client, step: Step)
    requires Inv(s) && Enabled(s, step)
    ensures ReaderIsSound(Apply(s, step))
  {
    hide LinesAreUsedOnce, OpenCallsAreTracked, CallsAreSound, Given, GivenOwn, Normalize;
  }

  /** A message of a call after the step was there before, or is the one now handed to it. */
  lemma GivenBefore(s: Client, step: Step, i: nat, m: Message)
    requires Inv(s) && Enabled(s, step)
    requires i < |Apply(s, step).calls| && m in Given(Apply(s, step).calls[i])
    ensures i < |s.calls|
    ensures m.Response? ==> !Undelivered(Apply(s, step), m.line)
    ensures m.Response? ==> || (m in Given(s.calls[i]) && !Undelivered(s, m.line))
                            || (Undelivered(s, m.line) && s.reader == Delivering(i))
  {
    hide Apply, Adds;
    assert LinesAreUsedOnce(s) && forall j :: 0 <= j < |s.calls| ==> GivenOwn(s, s.calls[j]);
    hide Undelivered, Inv, Enabled, Given;
    CallAdded(s, step);
    if i < |s.calls| {
      CallAfter(s, step, i);
      AddsCurrentLine(s, step, i);
      assert GivenOwn(s, s.calls[i]);
      if m.Response? && m in Given(s.calls[i]) { HandedOutStays(s, step, m.line); }
    }
  }

  lemma StepKeepsLines(s: Client, step: Step)
    requires Inv(s) && Enabled(s, step)
    ensures LinesAreUsedOnce(Apply(s, step))
  {
    var s' := Apply(s, step);
    assert LinesAreUsedOnce(s);
    hide Inv, Apply, Given, Undelivered, Enabled;
    forall i, m | 0 <= i < |s'.calls| && m in Given(s'.calls[i])
      ensures m.Response? ==> !Undelivered(s', m.line)
    {
      GivenBefore(s, step, i, m);
    }
    forall i, j, m | 0 <= i < j < |s'.calls| && m in Given(s'.calls[i]) && m in Given(s'.calls[j])
      ensures m.ReadsEnded?
    {
      GivenBefore(s, step, i, m);
      GivenBefore(s, step, j, m);
    }
  }

  lemma StepKeepsTracking(s: Client, step: Step)
    requires Inv(s) && Enabled(s, step)
    ensures OpenCallsAreTracked(Apply(s, step))
  {
    var s' := Apply(s, step);
    forall i | 0 <= i < |s'.calls| && IsOpen(s'.calls[i])
      ensures IsTracked(s', i)
    {
      if i < |s.calls| {
        CallAfter(s, step, i);
        OneIsTracked(s, step, i);
      }
    }
  }

  lemma OneIsTracked(s: Client, step: Step, i: nat)
    requires Inv(s) && Enabled(s, step) && i < |s.calls| && IsOpen(Apply(s, step).calls[i])
    ensures IsTracked(Apply(s, step), i)
  {
    var s' := Apply(s, step);
    CallAfter(s, step, i);
    assert s.calls[i].id == s'.calls[i].id;
    if j :| 0 <= j < |s.calls| && j != i && s.calls[j].id == s.calls[i].id {
      CallAfter(s, step, j);
      assert s'.calls[j].id == s'.calls[i].id;
    } else {
      if step.Register? && step.call != i {
        assert s.calls[step.call].id != s.calls[i].id;
      }
      if step.Leave? && step.call != i {
        assert s.calls[step.call].id != s.calls[i].id;
      }
    }
  }

  lemma StepKeepsInv(s: Client, step: Step)
    requires Inv(s) && Enabled(s, step)
    ensures Inv(Apply(s, step))
  {
    StepKeepsCalls(s, step);
    StepKeepsPending(s, step);
    StepKeepsReader(s, step);
    StepKeepsLines(s, step);
    StepKeepsTracking(s, step);
  }

  lemma {:induction false} RunKeepsInv(s: Client, run: seq<Step>)
    requires Inv(s) && Legal(s, run)
    ensures Inv(Exec(s, run))
    decreases |run|
  {
    hide Inv, Enabled, Apply;
    if run != [] {
      StepKeepsInv(s, run[0]);
      RunKeepsInv(Apply(s, run[0]), run[1..]);
    }
  }

  lemma {:induction false} ExecAppend(s: Client, run: seq<Step>, run': seq<Step>)
    requires Legal(s, run) && Legal(Exec(s, run), run')
    ensures Legal(s, run + run') && Exec(s, run + run') == Exec(Exec(s, run), run')
    decreases |run|
  {
    hide Enabled, Apply;
    if run == [] {
      assert run + run' == run';
    } else {
      ExecAppend(Apply(s, run[0]), run[1..], run');
      assert (run + run')[1..] == run[1..] + run';
    }
  }

  // ----- the theorems, over every interleaving -----

  lemma GotIsGiven(c: Call, m: Message)
    ensures c.phase == Returned(Got(m)) ==> m in Given(c)
  {
  }

  /** A call that returns a response returns one that bears its own id, and no response line
      is returned by two calls; section 5 of the JSON-RPC 2.0 specification. */
  lemma ResponsesCorrelate(run: seq<Step>, i: nat)
    requires Legal(Fresh(), run)
    requires var s := Exec(Fresh(), run);
      i < |s.calls| && s.calls[i].phase.Returned? && s.calls[i].phase.outcome.Got? &&
        s.calls[i].phase.outcome.message.Response?
    ensures var s := Exec(Fresh(), run);
      var line := s.calls[i].phase.outcome.message.line;
      && line < |s.lines|
      && IsResponse(s.lines[line])
      && Normalize(s.lines[line].id) == IdOf(i)
      && (forall j :: 0 <= j < |s.calls| && j != i ==> s.calls[j].phase != Returned(Got(Response(line))))
  {
    FreshIsSound();
    RunKeepsInv(Fresh(), run);
    var s := Exec(Fresh(), run);
    var m := s.calls[i].phase.outcome.message;
    assert m in Given(s.calls[i]);
    assert GivenOwn(s, s.calls[i]);
    forall j | 0 <= j < |s.calls| && j != i
      ensures s.calls[j].phase != Returned(Got(m))
    {
      GotIsGiven(s.calls[j], m);
    }
  }

  predicate IsReaderStep(step: Step) {
    step.Scan? || step.Notify? || step.Match? || step.Deliver? || step.ReadsEnd? || step.FailOne? || step.FailDone? ||
      step.Close?
  }

  /** The reader never waits for a call to take its message, so it can only be held up by a full
      notification channel, and every channel is sent at most one message. */
  lemma ReaderNeverWaitsForACall(run: seq<Step>)
    requires Legal(Fresh(), run)
    ensures var s := Exec(Fresh(), run);
      && (forall i {:trigger s.calls[i]} :: 0 <= i < |s.calls| ==> |s.calls[i].channel| <= s.calls[i].sent <= 1)
      && (s.reader.Delivering? ==> Enabled(s, Deliver))
      && (s.reader.Failing? ==> forall id :: id in s.pending ==> Enabled(s, FailOne(id)))
      && ((forall step :: IsReaderStep(step) ==> !Enabled(s, step))
        <==> s.reader.Ended? || (s.reader.Notifying? && |s.notes| == 128))
  {
    FreshIsSound();
    RunKeepsInv(Fresh(), run);
    var s := Exec(Fresh(), run);
    hide Legal, Exec, Enabled;
    forall i | 0 <= i < |s.calls|
      ensures |s.calls[i].channel| <= s.calls[i].sent <= 1
    {
      assert |Given(s.calls[i])| == s.calls[i].sent;
    }
    ReaderStuck(s);
  }

  /** What is registered has an empty channel. */
  lemma PendingChannelsAreEmpty(s: Client)
    requires Inv(s)
    ensures forall id :: id in s.pending ==> s.pending[id] < |s.calls| && s.calls[s.pending[id]].channel == []
  {
    forall id | id in s.pending ensures s.pending[id] < |s.calls| && s.calls[s.pending[id]].channel == [] {
      assert |Given(s.calls[s.pending[id]])| == 0;
    }
  }

  /** Unless it has ended or waits for the notification channel, the reader has a step to take. */
  lemma ReaderGoesOn(s: Client) returns (step: Step)
    requires Inv(s) && !s.reader.Ended? && (s.reader.Notifying? ==> |s.notes| < NOTES)
    ensures IsReaderStep(step) && Enabled(s, step)
  {
    PendingChannelsAreEmpty(s);
    if s.reader.Delivering? { assert |Given(s.calls[s.reader.call])| == 0; }
    assert ReaderIsSound(s);
    hide Inv, Given, Normalize;
    match s.reader
    case Scanning => step := ReadsEnd;
    case Notifying => step := Notify;
    case Matching => step := Match;
    case Delivering(_) => step := Deliver;
    case Failing =>
      if s.pending == map[] {
        step := FailDone;
      } else {
        var id :| id in s.pending;
        step := FailOne(id);
      }
    case Ending => step := Close;
  }

  lemma ReaderStuck(s: Client)
    requires Inv(s)
    ensures s.reader.Delivering? ==> Enabled(s, Deliver)
    ensures s.reader.Failing? ==> forall id :: id in s.pending ==> Enabled(s, FailOne(id))
    ensures (forall step :: IsReaderStep(step) ==> !Enabled(s, step))
      <==> s.reader.Ended? || (s.reader.Notifying? && |s.notes| == NOTES)
  {
    PendingChannelsAreEmpty(s);
    if s.reader.Delivering? { assert |Given(s.calls[s.reader.call])| == 0; }
    assert ReaderIsSound(s) && |s.notes| <= NOTES;
    if !(s.reader.Ended? || (s.reader.Notifying? && |s.notes| == NOTES)) {
      var step := ReaderGoesOn(s);
    }
    hide Inv, Given, Normalize;
  }

  lemma IdsStayDistinct(s: Client, i: nat, j: nat)
    requires Inv(s) && |s.calls| <= WRAP && i < |s.calls| && j < |s.calls| && i != j
    ensures s.calls[i].id != s.calls[j].id
  {
    if i < j { IdsAreDistinct(i, j); } else { IdsAreDistinct(j, i); }
  }

  /** Until the counter comes round, a call that has registered and not returned is still in the
      pending map, or has its one message, or is the one the reader is about to send to. */
  lemma NoCallIsForgotten(run: seq<Step>, i: nat)
    requires Legal(Fresh(), run)
    requires var s := Exec(Fresh(), run); |s.calls| <= WRAP && i < |s.calls| && IsOpen(s.calls[i])
    ensures var s := Exec(Fresh(), run);
      || (IdOf(i) in s.pending && s.pending[IdOf(i)] == i)
      || |s.calls[i].channel| == 1
      || s.reader == Delivering(i)
  {
    FreshIsSound();
    RunKeepsInv(Fresh(), run);
    var s := Exec(Fresh(), run);
    assert IsTracked(s, i) && s.calls[i].id == IdOf(i) && |Given(s.calls[i])| == s.calls[i].sent;
    if j :| 0 <= j < |s.calls| && j != i && s.calls[j].id == s.calls[i].id {
      IdsStayDistinct(s, i, j);
    }
  }

  /** When failPending lets go of the lock, every call that had registered and has not returned
      holds a message: the response to its id, or the end of the reads. */
  lemma FailPendingAnswersEveryCall(run: seq<Step>, i: nat)
    requires Legal(Fresh(), run)
    requires var s := Exec(Fresh(), run);
      Enabled(s, FailDone) && |s.calls| <= WRAP && i < |s.calls| && IsOpen(s.calls[i])
    ensures var s := Exec(Fresh(), run);
      && |s.calls[i].channel| == 1
      && (s.calls[i].channel[0].ReadsEnded? || Answers(s, s.calls[i], s.calls[i].channel[0].line))
  {
    NoCallIsForgotten(run, i);
    FreshIsSound();
    RunKeepsInv(Fresh(), run);
    var s := Exec(Fresh(), run);
    assert GivenOwn(s, s.calls[i]);
    assert Given(s.calls[i]) == s.calls[i].channel;
  }

  // ----- notifications -----

  /** The numbers of the notification lines among the first n. */
  function NotesIn(lines: seq<Line>, n: nat): seq<nat>
    requires n <= |lines|
  {
    if n == 0 then [] else NotesIn(lines, n - 1) + if IsNotification(lines[n - 1]) then [n - 1] else []
  }

  lemma {:induction false} NotesInPrefix(lines: seq<Line>, line: Line, n: nat)
    requires n <= |lines|
    ensures NotesIn(lines + [line], n) == NotesIn(lines, n)
  {
    if n > 0 { NotesInPrefix(lines, line, n - 1); }
  }

  /** Taken or waiting, in order, are all notifications but the one the reader is about to queue. */
  ghost predicate NotesAreSound(s: Client) {
    && (s.reader.Notifying? ==> s.lines != [] && IsNotification(s.lines[|s.lines| - 1]))
    && s.taken + s.notes == NotesIn(s.lines, if s.reader.Notifying? then |s.lines| - 1 else |s.lines|)
  }

  lemma StepKeepsNotes(s: Client, step: Step)
    requires NotesAreSound(s) && Enabled(s, step)
    ensures NotesAreSound(Apply(s, step))
  {
    if step.Scan? {
      ScanKeepsNotes(s, step.line);
    } else if step.TakeNote? {
      assert s.taken + [s.notes[0]] + s.notes[1..] == s.taken + s.notes;
    } else if step.Notify? {
      assert s.taken + (s.notes + [|s.lines| - 1]) == (s.taken + s.notes) + [|s.lines| - 1];
    } else {
      OtherStepKeepsNotes(s, step);
      hide Apply, Enabled;
    }
  }

  lemma ScanKeepsNotes(s: Client, line: Line)
    requires NotesAreSound(s) && s.reader.Scanning?
    ensures NotesAreSound(Scanned(s, line))
  {
    hide IsResponse, IsNotification, Normalize;
    NotesInPrefix(s.lines, line, |s.lines|);
    var lines := s.lines + [line];
    assert lines[..|s.lines|] == s.lines && lines[|s.lines|] == line;
    assert NotesIn(lines, |lines|) == NotesIn(lines, |s.lines|) + if IsNotification(line) then [|s.lines|] else [];
    hide NotesIn;
  }

  lemma OtherStepKeepsNotes(s: Client, step: Step)
    requires Enabled(s, step) && !step.Scan? && !step.TakeNote? && !step.Notify?
    ensures var s' := Apply(s, step);
      && s'.lines == s.lines && s'.notes == s.notes && s'.taken == s.taken
      && (s'.reader.Notifying? <==> s.reader.Notifying?)
  {
  }

  lemma {:induction false} RunKeepsNotes(s: Client, run: seq<Step>)
    requires NotesAreSound(s) && Legal(s, run)
    ensures NotesAreSound(Exec(s, run))
    decreases |run|
  {
    hide NotesAreSound, Enabled, Apply;
    if run != [] {
      StepKeepsNotes(s, run[0]);
      RunKeepsNotes(Apply(s, run[0]), run[1..]);
    }
  }

  /** The consumer gets every notification that was read, once and in order, whatever the calls
      do in between; only those still in the channel, and one the reader holds, are to come. */
  lemma NotificationsComeInOrder(run: seq<Step>)
    requires Legal(Fresh(), run)
    ensures var s := Exec(Fresh(), run);
      && s.taken <= NotesIn(s.lines, |s.lines|)
      && (s.notes == [] && !s.reader.Notifying? ==> s.taken == NotesIn(s.lines, |s.lines|))
  {
    RunKeepsNotes(Fresh(), run);
    var s := Exec(Fresh(), run);
    hide Legal, Exec;
    assert s.taken <= s.taken + s.notes;
  }

  // ----- the reader, run without interruption -----

  /** One pass through the loop of readLoop; the reader stays `Notifying` when it is blocked. */
  function AfterLine(s: Client, line: Line): Client
    requires Inv(s) && s.reader.Scanning?
  {
    var s1 := Scanned(s, line);
    if s1.reader.Notifying? then
      if |s1.notes| < NOTES then Apply(s1, Notify) else s1
    else if s1.reader.Matching? then
      var s2 := Matched(s1);
      if s2.reader.Delivering? then Sent(s2, s2.reader.call, Response(|s2.lines| - 1)).(reader := Scanning) else s2
    else s1
  }

  function Failed(c: Call, isPending: bool): Call {
    if isPending then c.(channel := c.channel + [ReadsEnded], sent := c.sent + 1) else c
  }

  predicate IsPending(pending: map<string, nat>, i: nat, c: Call) {
    c.id in pending && pending[c.id] == i
  }

  /** What failPending and closing `done` leave. */
  function AfterReads(s: Client): Client {
    s.(pending := map[],
       calls :=
         seq(|s.calls|, i requires 0 <= i < |s.calls| => Failed(s.calls[i], IsPending(s.pending, i, s.calls[i]))),
       reader := Ended)
  }

  lemma Prepend(s: Client, step: Step, run: seq<Step>)
    requires Enabled(s, step) && Legal(Apply(s, step), run)
    ensures Legal(s, [step] + run) && Exec(s, [step] + run) == Exec(Apply(s, step), run)
  {
    assert ([step] + run)[1..] == run;
  }

  lemma TailIsARun(s: Client, line: Line) returns (run: seq<Step>)
    requires Inv(s) && s.reader.Scanning?
    ensures Legal(Scanned(s, line), run) && Exec(Scanned(s, line), run) == AfterLine(s, line)
  {
    var s1 := Scanned(s, line);
    StepKeepsInv(s, Scan(line));
    run := [];
    if s1.reader.Notifying? {
      if |s1.notes| < NOTES {
        hide Inv;
        Prepend(s1, Notify, run);
        run := [Notify];
      }
    } else if s1.reader.Matching? {
      var s2 := Matched(s1);
      StepKeepsInv(s1, Match);
      ReaderStuck(s2);
      hide Inv;
      if s2.reader.Delivering? {
        Prepend(s2, Deliver, run);
        run := [Deliver];
      }
      Prepend(s1, Match, run);
      run := [Match] + run;
    }
  }

  lemma LineIsARun(s: Client, line: Line) returns (run: seq<Step>)
    requires Inv(s) && s.reader.Scanning?
    ensures Legal(s, run) && Exec(s, run) == AfterLine(s, line)
    ensures AfterLine(s, line).reader.Scanning? || AfterLine(s, line).reader.Notifying?
    ensures Inv(AfterLine(s, line))
  {
    var tail := TailIsARun(s, line);
    assert AfterLine(s, line).reader.Scanning? || AfterLine(s, line).reader.Notifying?;
    hide AfterLine, Inv;
    Prepend(s, Scan(line), tail);
    run := [Scan(line)] + tail;
    RunKeepsInv(s, run);
  }

  /** readLoop over the lines of a connection that then ends, unless it blocks on the way. */
  function ReadAll(s: Client, input: seq<Line>): Client
    requires Inv(s) && s.reader.Scanning?
    decreases |input|
  {
    if input == [] then AfterReads(s)
    else
      var s' := AfterLine(s, input[0]);
      LineKeepsInv(s, input[0]);
      if s'.reader.Scanning? then ReadAll(s', input[1..]) else s'
  }

  lemma LineKeepsInv(s: Client, line: Line)
    requires Inv(s) && s.reader.Scanning?
    ensures AfterLine(s, line).reader.Scanning? || AfterLine(s, line).reader.Notifying?
    ensures Inv(AfterLine(s, line))
  {
    var _ := LineIsARun(s, line);
  }

  lemma OneFail(s: Client, id: string)
    requires Inv(s) && s.reader.Failing? && id in s.pending
    ensures Enabled(s, FailOne(id))
    ensures AfterReads(Apply(s, FailOne(id))) == AfterReads(s)
    ensures Apply(s, FailOne(id)).reader.Failing?
    ensures |Apply(s, FailOne(id)).pending| < |s.pending|
  {
    assert s.pending[id] < |s.calls| && s.calls[s.pending[id]].id == id && |Given(s.calls[s.pending[id]])| == 0;
    hide Inv;
    var s' := Apply(s, FailOne(id));
    assert s'.pending.Keys == s.pending.Keys - {id};
    assert |s'.pending| == |s'.pending.Keys| && |s.pending| == |s.pending.Keys|;
    forall i | 0 <= i < |s.calls|
      ensures Failed(s'.calls[i], IsPending(s'.pending, i, s'.calls[i])) ==
        Failed(s.calls[i], IsPending(s.pending, i, s.calls[i]))
    {
      assert i == s.pending[id] ==> s.calls[i].id == id;
    }
    assert AfterReads(s').calls == AfterReads(s).calls;
  }

  lemma NothingToFail(s: Client)
    requires s.pending == map[]
    ensures AfterReads(s) == s.(reader := Ended)
  {
    assert AfterReads(s).calls == s.calls;
  }

  /** failPending as a run: one send per registered call, in any order of the map. */
  lemma {:induction false} FailsAreARun(s: Client) returns (run: seq<Step>)
    requires Inv(s) && s.reader.Failing?
    ensures Legal(s, run) && Exec(s, run) == AfterReads(s)
    decreases |s.pending|
  {
    hide Inv;
    if s.pending == map[] {
      Prepend(s.(reader := Ending), Close, []);
      Prepend(s, FailDone, [Close]);
      run := [FailDone] + [Close];
      assert AfterReads(s).calls == s.calls;
    } else {
      var id :| id in s.pending;
      OneFail(s, id);
      var s' := Apply(s, FailOne(id));
      StepKeepsInv(s, FailOne(id));
      hide Apply, Enabled;
      run := FailsAreARun(s');
      Prepend(s, FailOne(id), run);
      run := [FailOne(id)] + run;
    }
  }

  /** The uninterrupted reader is one of the interleavings. */
  lemma {:induction false} ReadAllIsARun(s: Client, input: seq<Line>) returns (run: seq<Step>)
    requires Inv(s) && s.reader.Scanning?
    ensures Legal(s, run) && Exec(s, run) == ReadAll(s, input)
    decreases |input|
  {
    hide AfterLine;
    if input == [] {
      StepKeepsInv(s, ReadsEnd);
      run := FailsAreARun(Apply(s, ReadsEnd));
      Prepend(s, ReadsEnd, run);
      run := [ReadsEnd] + run;
    } else {
      var first := LineIsARun(s, input[0]);
      var s' := AfterLine(s, input[0]);
      var rest := [];
      if s'.reader.Scanning? { rest := ReadAllIsARun(s', input[1..]); }
      ExecAppend(s, first, rest);
      run := first + rest;
    }
  }

  // ----- which message a registered call ends up with -----

  function Notifications(input: seq<Line>): nat {
    if input == [] then 0 else (if IsNotification(input[0]) then 1 else 0) + Notifications(input[1..])
  }

  predicate RespondsTo(line: Line, id: string) {
    IsResponse(line) && Normalize(line.id) == id
  }

  /** The message for a call with this id, when the lines of `input` start at number `at`. */
  function FirstFor(id: string, input: seq<Line>, at: nat): Message {
    if input == [] then ReadsEnded
    else if RespondsTo(input[0], id) then Response(at)
    else FirstFor(id, input[1..], at + 1)
  }

  lemma {:induction false} SettledCallIsLeftAlone(s: Client, input: seq<Line>, i: nat)
    requires Inv(s) && s.reader.Scanning? && i < |s.calls| && !IsPending(s.pending, i, s.calls[i])
    ensures i < |ReadAll(s, input).calls| && ReadAll(s, input).calls[i] == s.calls[i]
    decreases |input|
  {
    if input != [] {
      var s' := AfterLine(s, input[0]);
      LineKeepsInv(s, input[0]);
      if s'.reader.Scanning? { SettledCallIsLeftAlone(s', input[1..], i); }
    }
  }

  /** Among any duplicates, unknown ids, malformed lines and answers to other calls, a registered
      call is given the first response to its id, and the end of the reads if there is none. */
  lemma {:induction false} FirstResponseWins(s: Client, input: seq<Line>, i: nat)
    requires Inv(s) && s.reader.Scanning? && i < |s.calls| && IsPending(s.pending, i, s.calls[i])
    requires |s.notes| + Notifications(input) <= NOTES
    ensures var s' := ReadAll(s, input);
      && s'.reader.Ended?
      && i < |s'.calls|
      && s'.calls[i].channel == [FirstFor(s.calls[i].id, input, |s.lines|)]
    decreases |input|
  {
    assert s.calls[i].channel == [] by { assert |Given(s.calls[i])| == s.calls[i].sent; }
    if input != [] {
      var s' := AfterLine(s, input[0]);
      LineKeepsInv(s, input[0]);
      OneLine(s, input[0], i);
      if RespondsTo(input[0], s.calls[i].id) {
        SettledCallIsLeftAlone(s', input[1..], i);
        NeverBlocked(s', input[1..]);
      } else {
        FirstResponseWins(s', input[1..], i);
      }
    }
  }

  /** A line that no registered call waits for changes no call. */
  lemma OtherLine(s: Client, line: Line)
    requires Inv(s) && s.reader.Scanning?
    requires |s.notes| < NOTES || !IsNotification(line)
    requires !IsResponse(line) || Normalize(line.id) !in s.pending
    ensures var s' := AfterLine(s, line);
      && s'.reader.Scanning?
      && |s'.lines| == |s.lines| + 1
      && |s'.notes| == |s.notes| + (if IsNotification(line) then 1 else 0)
      && s'.calls == s.calls && s'.pending == s.pending
  {
    hide Inv, Normalize;
    if IsResponse(line) {
      assert CurrentId(Scanned(s, line)) == Normalize(line.id);
    }
  }

  /** A response takes its call out of the map and into the call's channel. */
  lemma ResponseLine(s: Client, line: Line)
    requires Inv(s) && s.reader.Scanning? && IsResponse(line) && Normalize(line.id) in s.pending
    ensures var id := Normalize(line.id);
      var s', i := AfterLine(s, line), s.pending[id];
      && s'.reader.Scanning?
      && |s'.lines| == |s.lines| + 1 && s'.notes == s.notes
      && s'.pending == s.pending - {id}
      && i < |s.calls| && s.calls[i].id == id
      && s'.calls == Sent(s, i, Response(|s.lines|)).calls
  {
    assert s.pending[Normalize(line.id)] < |s.calls| && s.calls[s.pending[Normalize(line.id)]].id == Normalize(line.id);
    hide Inv, Normalize;
    assert CurrentId(Scanned(s, line)) == Normalize(line.id);
  }

  lemma OneLine(s: Client, line: Line, i: nat)
    requires Inv(s) && s.reader.Scanning? && i < |s.calls| && IsPending(s.pending, i, s.calls[i])
    requires |s.notes| < NOTES || !IsNotification(line)
    ensures var s' := AfterLine(s, line);
      && s'.reader.Scanning?
      && |s'.lines| == |s.lines| + 1
      && |s'.notes| == |s.notes| + Notifications([line])
      && i < |s'.calls|
      && s'.calls[i].id == s.calls[i].id
      && s'.calls[i].channel ==
        s.calls[i].channel + (if RespondsTo(line, s.calls[i].id) then [Response(|s.lines|)] else [])
      && IsPending(s'.pending, i, s'.calls[i]) == !RespondsTo(line, s.calls[i].id)
  {
    hide Inv, AfterLine, Normalize;
    assert Notifications([line]) == if IsNotification(line) then 1 else 0;
    hide Notifications;
    if IsResponse(line) && Normalize(line.id) in s.pending {
      ResponseLine(s, line);
    } else {
      OtherLine(s, line);
    }
  }

  lemma {:induction false} NeverBlocked(s: Client, input: seq<Line>)
    requires Inv(s) && s.reader.Scanning?
    requires |s.notes| + Notifications(input) <= NOTES
    ensures ReadAll(s, input).reader.Ended?
    decreases |input|
  {
    if input != [] {
      LineKeepsInv(s, input[0]);
      NeverBlocked(AfterLine(s, input[0]), input[1..]);
    }
  }
}
