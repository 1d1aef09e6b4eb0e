/** Waiting for the result of a prompt: a stream of events with arrival times, an error that is
    committed tentatively, and a grace window in which it may be rescinded. */
module PiRpc {
  import opened Common

  /** errGraceWindow, in milliseconds */
  const GRACE_WINDOW: nat := 200

  // ----- agent messages -----

  datatype Block = Block(kind: string, text: string)

  datatype Content = Plain(text: string) | Blocks(blocks: seq<Block>) | BadContent

  datatype AgentMessage = AgentMessage(role: string, content: Content, stopReason: string, errorMessage: string)

  datatype Messages = NoMessages | BadMessages | Messages(messages: seq<AgentMessage>)

  datatype AssistantResult = AssistantResult(text: string, stopReason: string, errorMessage: string)

  function TextParts(blocks: seq<Block>): seq<string> {
    if blocks == [] then []
    else (if blocks[0].kind == "text" && blocks[0].text != "" then [blocks[0].text] else []) + TextParts(blocks[1..])
  }

  function JoinLines(parts: seq<string>): string {
    if parts == [] then "" else if |parts| == 1 then parts[0] else parts[0] + "\n" + JoinLines(parts[1..])
  }

  /** parseAssistantContent */
  function ParseContent(content: Content): string {
    match content
    case Plain(text) => text
    case Blocks(blocks) => JoinLines(TextParts(blocks))
    case BadContent => ""
  }

  /** The loop of extractLastAssistant, from the back. */
  function LastAssistant(messages: seq<AgentMessage>): AssistantResult {
    if messages == [] then AssistantResult("", "", "")
    else
      var last := messages[|messages| - 1];
      if last.role == "assistant" then AssistantResult(ParseContent(last.content), last.stopReason, last.errorMessage)
      else LastAssistant(messages[..|messages| - 1])
  }

  /** extractLastAssistant */
  function ExtractLastAssistant(messages: Messages): AssistantResult {
    if messages.Messages? then LastAssistant(messages.messages) else AssistantResult("", "", "")
  }

  /** Whatever follows it, the last message of the assistant decides. */
  lemma {:induction false} LastAssistantDecides(before: seq<AgentMessage>, m: AgentMessage, after: seq<AgentMessage>)
    requires m.role == "assistant" && forall x :: x in after ==> x.role != "assistant"
    ensures ExtractLastAssistant(Messages(before + [m] + after)) ==
      AssistantResult(ParseContent(m.content), m.stopReason, m.errorMessage)
    decreases |after|
  {
    var all := before + [m] + after;
    if after == [] {
      assert all[|all| - 1] == m;
    } else {
      var n := |after| - 1;
      assert all[|all| - 1] == after[n] && after[n] in after;
      assert all[..|all| - 1] == before + [m] + after[..n];
      LastAssistantDecides(before, m, after[..n]);
    }
  }

  // ----- events and their environment -----

  datatype Event =
    | Response(command: string, success: Option<bool>, error: string)
    | AgentEnd(messages: Messages)
    | MessageUpdate(kind: string, delta: string)
    | ToolStart(tool: string)
    | UiRequest(id: string, verb: string)
    | AutoRetryStart
    | AutoCompactionStart
    | AutoRetryEnd(success: Option<bool>, finalError: string)
    | OtherEvent(kind: string)

  datatype Arrival = Event(at: int, event: Event) | ReadError(at: int)

  /** What the process and the context will do: the lines read and when, when the channel is
      closed, when the process exits, when the context is cancelled, and, by position, whether an
      arrival is taken when another case of the select is ready at the same time. */
  datatype Env = Env(
    stream: seq<Arrival>,
    close: Option<int>,
    exit: Option<int>,
    cancel: Option<int>,
    takesTie: nat -> bool)

  datatype Command = Prompt(message: string) | AbortCommand | UiCancelled(id: string)

  /** The process as its caller sees it. */
  datatype Proc = Proc(pos: nat, now: int, sent: seq<Command>, tools: seq<string>)

  /** resultWaiter */
  datatype Waiter = Waiter(reply: string, finalErr: string, deltas: seq<string>)

  predicate Cancelled(env: Env, now: int) {
    env.cancel.Some? && env.cancel.value <= now
  }

  /** When the events case of a select becomes ready. */
  function Arrives(env: Env, p: Proc): Option<int> {
    if p.pos < |env.stream| then Some(Max(p.now, env.stream[p.pos].at))
    else if env.close.Some? then Some(Max(p.now, env.close.value))
    else None
  }

  predicate ArrivesFirst(env: Env, p: Proc, other: int) {
    var a := Arrives(env, p);
    a.Some? && (a.value < other || (a.value == other && env.takesTie(p.pos)))
  }

  // ----- one event -----

  datatype Fault = StreamFault | EndOfFile | ProcessExited | Rejected(command: string, error: string) | ContextCancelled

  datatype Next = Got(event: Event) | Failed(fault: Fault) | Never

  /** The arrival at hand is taken from the channel. */
  function Taken(env: Env, p: Proc): (r: (Next, Proc))
    requires Arrives(env, p).Some?
    ensures r.1.pos <= p.pos + 1 && r.1.pos <= Max(p.pos, |env.stream|)
    ensures r.0.Got? ==> p.pos < |env.stream| && r.1.pos == p.pos + 1
    ensures r.1.now >= p.now && !r.0.Never?
  {
    var p' := p.(now := Arrives(env, p).value);
    if p.pos >= |env.stream| then (Failed(EndOfFile), p')
    else
      match env.stream[p.pos]
      case Event(_, e) => (Got(e), p'.(pos := p.pos + 1))
      case ReadError(_) => (Failed(StreamFault), p'.(pos := p.pos + 1))
  }

  /** nextEvent */
  function NextEvent(env: Env, p: Proc): (r: (Next, Proc))
    ensures r.0.Got? ==> p.pos < |env.stream| && r.1.pos == p.pos + 1
  {
    if env.exit.None? then
      if Arrives(env, p).Some? then Taken(env, p) else (Never, p)
    else
      var exit := Max(p.now, env.exit.value);
      if ArrivesFirst(env, p, exit) then Taken(env, p) else (Failed(ProcessExited), p.(now := exit))
  }

  predicate IsDialog(verb: string) {
    verb == "select" || verb == "confirm" || verb == "input" || verb == "editor"
  }

  predicate IsRejection(e: Event) {
    e.Response? && e.success == Some(false)
  }

  /** handleSideEffects, apart from the error of a rejected command. */
  function SideEffects(p: Proc, e: Event): Proc {
    match e
    case UiRequest(id, verb) => if IsDialog(verb) then p.(sent := p.sent + [UiCancelled(id)]) else p
    case ToolStart(tool) => p.(tools := p.tools + [tool])
    case _ => p
  }

  /** continuesTurn */
  predicate ContinuesTurn(e: Event) {
    e.AutoRetryStart? || e.AutoCompactionStart?
  }

  /** handle says "done" for these. */
  predicate IsTerminal(e: Event) {
    e.AgentEnd? || (e.AutoRetryEnd? && e.success != Some(true))
  }

  function Handled(w: Waiter, e: Event): Waiter {
    match e
    case AutoRetryEnd(success, finalError) => if success == Some(true) then w else w.(finalErr := finalError)
    case MessageUpdate(kind, delta) =>
      if kind == "text_delta" && delta != "" then w.(deltas := w.deltas + [delta]) else w
    case AgentEnd(messages) =>
      var last := ExtractLastAssistant(messages);
      if last.stopReason == "error" then w.(reply := last.text, finalErr := last.errorMessage)
        else w.(reply := last.text)
    case _ => w
  }

  // ----- the loops -----

  datatype Drained = Done | DrainFailed(fault: Fault) | Hangs

  /** drainEvents with resultWaiter.handle */
  function DrainEvents(env: Env, p: Proc, w: Waiter, aborted: bool): (r: (Drained, Proc, Waiter))
    ensures r.0.Done? ==> p.pos < r.1.pos <= |env.stream|
    decreases |env.stream| - p.pos
  {
    var (next, p1) := NextEvent(env, p);
    match next
    case Never => (Hangs, p1, w)
    case Failed(fault) => (DrainFailed(fault), p1, w)
    case Got(e) =>
      var aborts := !aborted && Cancelled(env, p1.now);
      var p2 := SideEffects(if aborts then p1.(sent := p1.sent + [AbortCommand]) else p1, e);
      if IsRejection(e) then (DrainFailed(Rejected(e.command, e.error)), p2, w)
      else if IsTerminal(e) then (Done, p2, Handled(w, e))
      else DrainEvents(env, p2, Handled(w, e), aborted || aborts)
  }

  /** The first of the timer, the cancellation and the exit that ends a grace window. */
  function GraceEnd(env: Env, now: int): int {
    var t1 := now + GRACE_WINDOW;
    var t2 := if env.cancel.Some? then Min(t1, Max(now, env.cancel.value)) else t1;
    if env.exit.Some? then Min(t2, Max(now, env.exit.value)) else t2
  }

  /** graceDrain, with the end of its window */
  function GraceDrain(env: Env, p: Proc, w: Waiter, end: int): (r: (bool, Proc, Waiter))
    ensures r.0 ==> p.pos < r.1.pos <= |env.stream| && r.2 == w.(finalErr := "")
    ensures !r.0 ==> r.2 == w
    decreases |env.stream| - p.pos
  {
    if !ArrivesFirst(env, p, end) then (false, p.(now := Max(p.now, end)), w)
    else
      var (next, p1) := Taken(env, p);
      if !next.Got? then (false, p1, w)
      else if ContinuesTurn(next.event) then (true, p1, w.(finalErr := ""))
      else GraceDrain(env, p1, w, end)
  }

  datatype Outcome = Reply(text: string) | Error(fault: Fault) | WaitsForever

  function FailureText(error: string): string {
    "Request failed: " + error + "\n\nTry `!compact` to shrink the context, or `!restart` for a clean session."
  }

  function FinalText(w: Waiter): string {
    if w.reply == "" && w.finalErr != "" then FailureText(w.finalErr) else w.reply
  }

  /** waitForResult, from inside its first drainEvents. */
  function WaitFrom(env: Env, p: Proc, w: Waiter, aborted: bool): (Outcome, Proc, Waiter)
    decreases |env.stream| - p.pos
  {
    var (r, p1, w1) := DrainEvents(env, p, w, aborted);
    match r
    case Hangs => (WaitsForever, p1, w1)
    case DrainFailed(fault) => (Error(if Cancelled(env, p1.now) then ContextCancelled else fault), p1, w1)
    case Done => Conclude(env, p1, w1)
  }

  /** waitForResult after a drainEvents that saw a terminal event. */
  function Conclude(env: Env, p: Proc, w: Waiter): (Outcome, Proc, Waiter)
    decreases |env.stream| - p.pos
  {
    if w.finalErr == "" then (Reply(w.reply), p, w)
    else
      var (rescinded, p', w') := GraceDrain(env, p, w, GraceEnd(env, p.now));
      if rescinded then WaitFrom(env, p', w', false) else (Reply(FinalText(w')), p', w')
  }

  function WaitForResult(env: Env, p: Proc): (Outcome, Proc, Waiter) {
    WaitFrom(env, p, Waiter("", "", []), false)
  }

  // ----- turns -----

  /** The error that this terminal event commits; empty when it settles the turn. */
  function ErrorOf(e: Event): string
    requires IsTerminal(e)
  {
    if e.AutoRetryEnd? then e.finalError
    else
      var last := ExtractLastAssistant(e.messages);
      if last.stopReason == "error" then last.errorMessage else ""
  }

  predicate ExitsLater(env: Env, now: int) {
    env.exit.None? || now < env.exit.value
  }

  /** A whole turn: attempts that fail and are continued in time, then the events of the last
      attempt, up to an agent_end that commits no error message, whose text is the reply. */
  ghost predicate IsTurn(env: Env, s: seq<Arrival>, now: int, text: string)
    decreases |s|
  {
    && s != [] && s[0].Event?
    && var e, t := s[0].event, Max(now, s[0].at);
      && ExitsLater(env, t)
      && !IsRejection(e)
      && if !IsTerminal(e) then IsTurn(env, s[1..], t, text)
         else if ErrorOf(e) != "" then IsRescinded(env, s[1..], t, GraceEnd(env, t), text)
         else e.AgentEnd? && |s| == 1 && text == ExtractLastAssistant(e.messages).text
  }

  /** Events that are swallowed, then one that continues the turn, all before the window ends,
      and then the rest of the turn. */
  ghost predicate IsRescinded(env: Env, s: seq<Arrival>, now: int, end: int, text: string)
    decreases |s|
  {
    && s != [] && s[0].Event?
    && var e, t := s[0].event, Max(now, s[0].at);
      && t < end
      && if ContinuesTurn(e) then IsTurn(env, s[1..], t, text) else IsRescinded(env, s[1..], t, end, text)
  }

  predicate IsNext(env: Env, p: Proc, s: seq<Arrival>) {
    p.pos + |s| <= |env.stream| && env.stream[p.pos..p.pos + |s|] == s
  }

  lemma NextIsTail(env: Env, p: Proc, s: seq<Arrival>, p': Proc)
    requires IsNext(env, p, s) && s != [] && p'.pos == p.pos + 1
    ensures env.stream[p.pos] == s[0] && IsNext(env, p', s[1..])
  {
    assert s[0] == env.stream[p.pos..p.pos + |s|][0];
    assert env.stream[p'.pos..p'.pos + |s[1..]|] == env.stream[p.pos..p.pos + |s|][1..];
  }

  lemma {:induction false} GraceIsRescinded(env: Env, p: Proc, w: Waiter, end: int, s: seq<Arrival>, text: string)
    returns (k: nat)
    requires IsNext(env, p, s) && IsRescinded(env, s, p.now, end, text)
    ensures 0 < k <= |s|
    ensures var (rescinded, p', w') := GraceDrain(env, p, w, end);
      && rescinded && p'.pos == p.pos + k && w' == w.(finalErr := "")
      && IsNext(env, p', s[k..]) && IsTurn(env, s[k..], p'.now, text)
    decreases |s|
  {
    var p1 := Taken(env, p).1;
    NextIsTail(env, p, s, p1);
    if ContinuesTurn(s[0].event) {
      k := 1;
    } else {
      k := GraceIsRescinded(env, p1, w, end, s[1..], text);
      assert s[1..][k..] == s[k + 1..];
      k := k + 1;
    }
  }

  /** The process after it has handed over the event at hand. */
  function AfterEvent(env: Env, p: Proc, aborted: bool): Proc
    requires p.pos < |env.stream| && env.stream[p.pos].Event?
  {
    var p' := p.(pos := p.pos + 1, now := Max(p.now, env.stream[p.pos].at));
    SideEffects(
      if !aborted && Cancelled(env, p'.now) then p'.(sent := p'.sent + [AbortCommand]) else p',
      env.stream[p.pos].event)
  }

  lemma EventIsTaken(env: Env, p: Proc, w: Waiter, aborted: bool)
    requires p.pos < |env.stream| && env.stream[p.pos].Event?
    requires ExitsLater(env, Max(p.now, env.stream[p.pos].at)) && !IsRejection(env.stream[p.pos].event)
    ensures var e, p' := env.stream[p.pos].event, AfterEvent(env, p, aborted);
      && p'.pos == p.pos + 1 && p'.now == Max(p.now, env.stream[p.pos].at)
      && WaitFrom(env, p, w, aborted) ==
          if IsTerminal(e) then Conclude(env, p', Handled(w, e))
          else WaitFrom(env, p', Handled(w, e), aborted || Cancelled(env, p'.now))
  {
    hide Conclude;
    assert NextEvent(env, p) ==
      (Got(env.stream[p.pos].event), p.(pos := p.pos + 1, now := Max(p.now, env.stream[p.pos].at)));
  }

  lemma TerminalCommits(w: Waiter, e: Event)
    requires IsTerminal(e) && w.finalErr == ""
    ensures Handled(w, e).finalErr == ErrorOf(e)
    ensures e.AgentEnd? ==> Handled(w, e).reply == ExtractLastAssistant(e.messages).text
  {
  }

  /** Turn alignment: whatever comes behind it in the stream, a turn is answered with its own
      text and consumed to its last event, and not beyond. */
  lemma {:induction false} TurnIsAnswered(env: Env, p: Proc, w: Waiter, aborted: bool, s: seq<Arrival>, text: string)
    requires IsNext(env, p, s) && IsTurn(env, s, p.now, text) && w.finalErr == ""
    ensures var (outcome, p', w') := WaitFrom(env, p, w, aborted);
      outcome == Reply(text) && p'.pos == p.pos + |s|
    decreases |s|
  {
    var e := s[0].event;
    var p' := p.(pos := p.pos + 1);
    NextIsTail(env, p, s, p');
    EventIsTaken(env, p, w, aborted);
    p' := AfterEvent(env, p, aborted);
    hide AfterEvent, WaitFrom, IsNext, ExtractLastAssistant, GraceEnd;
    if !IsTerminal(e) {
      TurnIsAnswered(env, p', Handled(w, e), aborted || Cancelled(env, p'.now), s[1..], text);
    } else {
      TerminalCommits(w, e);
      hide Handled, ErrorOf;
      if ErrorOf(e) != "" {
        var k := GraceIsRescinded(env, p', Handled(w, e), GraceEnd(env, p'.now), s[1..], text);
        var (_, p2, w2) := GraceDrain(env, p', Handled(w, e), GraceEnd(env, p'.now));
        TurnIsAnswered(env, p2, w2, false, s[1..][k..], text);
      }
    }
  }

  // ----- calls in a row -----

  /** The waiter may come late to its turn: without a cancellation or an exit, the same events
      are a turn at any later time. */
  lemma {:induction false} LateTurnIsATurn(env: Env, s: seq<Arrival>, now: int, now': int, text: string)
    requires env.cancel.None? && env.exit.None? && now <= now' && IsTurn(env, s, now, text)
    ensures IsTurn(env, s, now', text)
    decreases |s|
  {
    var e, t, t' := s[0].event, Max(now, s[0].at), Max(now', s[0].at);
    if !IsTerminal(e) {
      LateTurnIsATurn(env, s[1..], t, t', text);
    } else if ErrorOf(e) != "" {
      LateRescueIsARescue(env, s[1..], t, t', GraceEnd(env, t), GraceEnd(env, t'), text);
    }
  }

  lemma {:induction false} LateRescueIsARescue(env: Env, s: seq<Arrival>, now: int, now': int, end: int, end': int,
    text: string)
    requires env.cancel.None? && env.exit.None? && now <= now' < end' && end <= end'
    requires IsRescinded(env, s, now, end, text)
    ensures IsRescinded(env, s, now', end', text)
    decreases |s|
  {
    var e, t, t' := s[0].event, Max(now, s[0].at), Max(now', s[0].at);
    if ContinuesTurn(e) {
      LateTurnIsATurn(env, s[1..], t, t', text);
    } else {
      LateRescueIsARescue(env, s[1..], t, t', end, end', text);
    }
  }

  datatype Call = Call(start: int, message: string)

  /** sendAndWait on a process that is alive */
  function SendAndWait(env: Env, p: Proc, call: Call): (Outcome, Proc, Waiter) {
    WaitForResult(env, p.(now := Max(p.now, call.start), sent := p.sent + [Prompt(call.message)]))
  }

  function CallAll(env: Env, p: Proc, calls: seq<Call>): (seq<Outcome>, Proc)
    decreases |calls|
  {
    if calls == [] then ([], p)
    else
      var (outcome, p', _) := SendAndWait(env, p, calls[0]);
      var (outcomes, p'') := CallAll(env, p', calls[1..]);
      ([outcome] + outcomes, p'')
  }

  function Concat(turns: seq<seq<Arrival>>): seq<Arrival> {
    if turns == [] then [] else turns[0] + Concat(turns[1..])
  }

  /** The first of some calls, on the first of as many turns. */
  lemma FirstCallGetsItsReply(env: Env, p: Proc, call: Call, turn: seq<Arrival>, rest: seq<Arrival>, text: string)
    requires env.cancel.None? && env.exit.None? && IsNext(env, p, turn + rest)
    requires turn != [] && IsTurn(env, turn, turn[0].at, text)
    ensures var (outcome, p', _) := SendAndWait(env, p, call);
      outcome == Reply(text) && p'.pos == p.pos + |turn| && IsNext(env, p', rest)
  {
    var p1 := p.(now := Max(p.now, call.start), sent := p.sent + [Prompt(call.message)]);
    hide IsTurn, WaitFrom, IsNext;
    StartTurn(env, turn, p1.now, text);
    NextIsFirst(env, p, p1, turn, rest);
    TurnIsAnswered(env, p1, Waiter("", "", []), false, turn, text);
    NextIsSecond(env, p, SendAndWait(env, p, call).1, turn, rest);
  }

  lemma NextIsFirst(env: Env, p: Proc, p1: Proc, a: seq<Arrival>, b: seq<Arrival>)
    requires IsNext(env, p, a + b) && p1.pos == p.pos
    ensures IsNext(env, p1, a)
  {
    assert env.stream[p.pos..p.pos + |a|] == (a + b)[..|a|] == a;
  }

  lemma NextIsSecond(env: Env, p: Proc, p1: Proc, a: seq<Arrival>, b: seq<Arrival>)
    requires IsNext(env, p, a + b) && p1.pos == p.pos + |a|
    ensures IsNext(env, p1, b)
  {
    assert env.stream[p1.pos..p1.pos + |b|] == (a + b)[|a|..] == b;
  }

  /** Calls whose turns come one after the other in the stream get the replies in order. */
  lemma {:induction false} CallsGetTheirReplies(env: Env, p: Proc, calls: seq<Call>, turns: seq<seq<Arrival>>,
                                                texts: seq<string>)
    requires env.cancel.None? && env.exit.None?
    requires |calls| == |turns| == |texts| && IsNext(env, p, Concat(turns))
    requires forall i :: 0 <= i < |turns| ==> turns[i] != [] && IsTurn(env, turns[i], turns[i][0].at, texts[i])
    ensures var (outcomes, p') := CallAll(env, p, calls);
      && |outcomes| == |texts|
      && (forall i :: 0 <= i < |texts| ==> outcomes[i] == Reply(texts[i]))
      && p'.pos == p.pos + |Concat(turns)|
    decreases |calls|
  {
    hide IsTurn, IsNext, SendAndWait;
    if calls != [] {
      FirstCallGetsItsReply(env, p, calls[0], turns[0], Concat(turns[1..]), texts[0]);
      CallsGetTheirReplies(env, SendAndWait(env, p, calls[0]).1, calls[1..], turns[1..], texts[1..]);
    }
  }

  lemma StartTurn(env: Env, turn: seq<Arrival>, now: int, text: string)
    requires env.cancel.None? && env.exit.None? && turn != [] && IsTurn(env, turn, turn[0].at, text)
    ensures IsTurn(env, turn, now, text)
  {
    if now >= turn[0].at { LateTurnIsATurn(env, turn, turn[0].at, now, text); }
  }

  // ----- errors without a message -----

  /** An agent_end that reports an error is followed by a retry or a compaction in time: the waiter
      goes on with it exactly when the error has a message. Without one it returns at once, and
      the events of the next attempt are left for the next call. */
  lemma FailedAttemptGoesOnIff(env: Env, p: Proc, w: Waiter, aborted: bool, last: AssistantResult)
    requires p.pos + 1 < |env.stream| && env.stream[p.pos].Event? && env.stream[p.pos + 1].Event?
    requires var e, t := env.stream[p.pos].event, Max(p.now, env.stream[p.pos].at);
      && e.AgentEnd? && last == ExtractLastAssistant(e.messages) && last.stopReason == "error"
      && ExitsLater(env, t)
      && ContinuesTurn(env.stream[p.pos + 1].event) && Max(t, env.stream[p.pos + 1].at) < GraceEnd(env, t)
    requires w.finalErr == ""
    ensures var p1 := AfterEvent(env, p, aborted);
      var p2 := p1.(pos := p.pos + 2, now := Max(p1.now, env.stream[p.pos + 1].at));
      && p1.pos == p.pos + 1
      && WaitFrom(env, p, w, aborted) ==
          if last.errorMessage == "" then (Reply(last.text), p1, w.(reply := last.text))
          else WaitFrom(env, p2, w.(reply := last.text), false)
  {
    EventIsTaken(env, p, w, aborted);
  }

  /** Two prompts; the first attempt at the first one fails with that error message, and is retried. */
  function RetriedStream(message: string): seq<Arrival> {
    [ Arrival.Event(0, AgentEnd(Messages([AgentMessage("assistant", Plain(""), "error", message)]))),
      Arrival.Event(10, AutoRetryStart),
      Arrival.Event(20, AgentEnd(Messages([AgentMessage("assistant", Plain("first"), "stop", "")]))),
      Arrival.Event(30, AgentEnd(Messages([AgentMessage("assistant", Plain("second"), "stop", "")]))) ]
  }

  /** With a message the two calls get the two replies. With an empty one the first call gets
      nothing, and the second call gets the reply to the first prompt. */
  lemma SilentErrorShiftsReplies(message: string, takesTie: nat -> bool)
    ensures var env := Env(RetriedStream(message), None, None, None, takesTie);
      var (replies, _) := CallAll(env, Proc(0, 0, [], []), [Call(0, "one"), Call(0, "two")]);
      replies == if message == "" then [Reply(""), Reply("first")] else [Reply("first"), Reply("second")]
  {
    var s := RetriedStream(message);
    var env := Env(s, None, None, None, takesTie);
    var p, calls := Proc(0, 0, [], []), [Call(0, "one"), Call(0, "two")];
    LastIsOnly(AgentMessage("assistant", Plain(""), "error", message));
    LastIsOnly(AgentMessage("assistant", Plain("first"), "stop", ""));
    LastIsOnly(AgentMessage("assistant", Plain("second"), "stop", ""));
    SettledTurn(env, s[2], 20, "first");
    SettledTurn(env, s[3], 30, "second");
    if message == "" {
      SettledTurn(env, s[0], 0, "");
      var turns := [[s[0]], [s[1], s[2]]];
      assert turns[1][1..] == [s[2]];
      assert IsTurn(env, turns[1], 10, "first");
      TwoTurns(env, p, calls, turns, ["", "first"], s[..3]);
    } else {
      var turns := [[s[0], s[1], s[2]], [s[3]]];
      assert turns[0][1..] == [s[1], s[2]] && turns[0][1..][1..] == [s[2]];
      assert IsRescinded(env, turns[0][1..], 0, GRACE_WINDOW, "first");
      assert IsTurn(env, turns[0], 0, "first");
      TwoTurns(env, p, calls, turns, ["first", "second"], s);
    }
  }

  lemma LastIsOnly(m: AgentMessage)
    requires m.role == "assistant"
    ensures ExtractLastAssistant(Messages([m])) ==
      AssistantResult(ParseContent(m.content), m.stopReason, m.errorMessage)
  {
    LastAssistantDecides([], m, []);
    assert [] + [m] + [] == [m];
  }

  lemma SettledTurn(env: Env, a: Arrival, now: int, text: string)
    requires env.exit.None? && a.Event? && a.event.AgentEnd? && ErrorOf(a.event) == ""
    requires text == ExtractLastAssistant(a.event.messages).text
    ensures IsTurn(env, [a], now, text)
  {
  }

  lemma TwoTurns(env: Env, p: Proc, calls: seq<Call>, turns: seq<seq<Arrival>>, texts: seq<string>, s: seq<Arrival>)
    requires env.cancel.None? && env.exit.None? && |calls| == |turns| == |texts| == 2
    requires s == turns[0] + turns[1] && IsNext(env, p, s)
    requires forall i :: 0 <= i < 2 ==> turns[i] != [] && IsTurn(env, turns[i], turns[i][0].at, texts[i])
    ensures CallAll(env, p, calls).0 == [Reply(texts[0]), Reply(texts[1])]
  {
    assert turns[1..][1..] == [] && Concat(turns[1..]) == turns[1] + [];
    assert Concat(turns) == s;
    hide IsTurn;
    CallsGetTheirReplies(env, p, calls, turns, texts);
  }

  // ----- when the error stands -----

  /** The clock when the i-th arrival from here is taken. */
  function ClockAt(env: Env, p: Proc, i: nat): int
    requires p.pos + i < |env.stream|
  {
    Max(if i == 0 then p.now else ClockAt(env, p, i - 1), env.stream[p.pos + i].at)
  }

  predicate InTime(env: Env, pos: nat, clock: int, end: int) {
    clock < end || (clock == end && env.takesTie(pos))
  }

  /** The i-th arrival from here is an event that is taken within the window. */
  predicate InWindow(env: Env, p: Proc, end: int, i: nat) {
    p.pos + i < |env.stream| && env.stream[p.pos + i].Event? && InTime(env, p.pos + i, ClockAt(env, p, i), end)
  }

  predicate ContinuesAt(env: Env, p: Proc, i: nat) {
    && p.pos + i < |env.stream| && env.stream[p.pos + i].Event?
    && (env.stream[p.pos + i].event.AutoRetryStart? || env.stream[p.pos + i].event.AutoCompactionStart?)
  }

  /** The k-th arrival from here continues the turn, and all up to it come in time. */
  predicate Continues(env: Env, p: Proc, end: int, k: nat) {
    ContinuesAt(env, p, k) && forall i :: 0 <= i <= k ==> InWindow(env, p, end, i)
  }

  lemma {:induction false} ClockGoesOn(env: Env, p: Proc, i: nat)
    requires p.pos + i + 1 < |env.stream|
    ensures ClockAt(env, Taken(env, p).1, i) == ClockAt(env, p, i + 1)
  {
    if i > 0 { ClockGoesOn(env, p, i - 1); }
  }

  lemma WindowGoesOn(env: Env, p: Proc, end: int, i: nat)
    requires p.pos < |env.stream|
    ensures InWindow(env, Taken(env, p).1, end, i) == InWindow(env, p, end, i + 1)
  {
    if p.pos + i + 1 < |env.stream| { ClockGoesOn(env, p, i); }
  }

  lemma ContinuesNext(env: Env, p: Proc, end: int, k: nat)
    requires InWindow(env, p, end, 0)
    ensures Continues(env, p, end, k + 1) <==> Continues(env, Taken(env, p).1, end, k)
  {
    var p' := Taken(env, p).1;
    assert ContinuesAt(env, p', k) == ContinuesAt(env, p, k + 1);
    forall i | 0 <= i <= k
      ensures InWindow(env, p', end, i) == InWindow(env, p, end, i + 1)
    {
      WindowGoesOn(env, p, end, i);
    }
    hide InWindow;
    if Continues(env, p', end, k) {
      forall i | 0 <= i <= k + 1 ensures InWindow(env, p, end, i) {
        if i > 0 { assert InWindow(env, p', end, i - 1); }
      }
    }
  }

  /** graceDrain rescinds exactly when a retry or a compaction starts within the window. */
  lemma {:induction false} GraceRescindsIff(env: Env, p: Proc, w: Waiter, end: int)
    requires p.now <= end
    ensures GraceDrain(env, p, w, end).0 <==> exists k: nat :: Continues(env, p, end, k)
    decreases |env.stream| - p.pos
  {
    if !InWindow(env, p, end, 0) {
      assert !GraceDrain(env, p, w, end).0;
    } else if ContinuesAt(env, p, 0) {
      assert Continues(env, p, end, 0);
    } else {
      var p' := Taken(env, p).1;
      GraceRescindsIff(env, p', w, end);
      hide InWindow;
      if k: nat :| Continues(env, p', end, k) {
        ContinuesNext(env, p, end, k);
        assert Continues(env, p, end, k + 1);
      }
      if k: nat :| Continues(env, p, end, k) {
        assert k != 0;
        ContinuesNext(env, p, end, k - 1);
        assert Continues(env, p', end, k - 1);
      }
    }
  }

  lemma GraceEndsLater(env: Env, now: int)
    ensures now <= GraceEnd(env, now) <= now + 200
  {
  }

  /** A committed error is returned, at the latest 200 ms after it, unless the turn is continued
      in time; as a message of its own when no text came with it. */
  lemma CommittedErrorStandsIff(env: Env, p: Proc, w: Waiter)
    requires w.finalErr != ""
    ensures var end := GraceEnd(env, p.now);
      if exists k: nat :: Continues(env, p, end, k)
      then Conclude(env, p, w) == WaitFrom(env, GraceDrain(env, p, w, end).1, w.(finalErr := ""), false)
      else
        && (w.reply != "" ==> Conclude(env, p, w).0 == Reply(w.reply))
        && (w.reply == "" ==> Conclude(env, p, w).0 == Reply("Request failed: " + w.finalErr +
              "\n\nTry `!compact` to shrink the context, or `!restart` for a clean session."))
        && p.now <= Conclude(env, p, w).1.now <= p.now + 200
  {
    GraceEndsLater(env, p.now);
    GraceRescindsIff(env, p, w, GraceEnd(env, p.now));
    GraceClock(env, p, w, GraceEnd(env, p.now));
  }

  lemma {:induction false} GraceClock(env: Env, p: Proc, w: Waiter, end: int)
    requires p.now <= end
    ensures p.now <= GraceDrain(env, p, w, end).1.now <= end
    decreases |env.stream| - p.pos
  {
    if ArrivesFirst(env, p, end) {
      var (next, p') := Taken(env, p);
      if next.Got? && !ContinuesTurn(next.event) { GraceClock(env, p', w, end); }
    }
  }

  // ----- text deltas -----

  function TextDeltas(s: seq<Arrival>): seq<string> {
    if s == [] then []
    else
      (if s[0].Event? && s[0].event.MessageUpdate? && s[0].event.kind == "text_delta" && s[0].event.delta != ""
       then [s[0].event.delta] else []) + TextDeltas(s[1..])
  }

  /** From `p` to `p'` the text deltas of exactly the consumed events are passed on. */
  ghost predicate PassesOn(env: Env, p: Proc, w: Waiter, p': Proc, w': Waiter) {
    && p.pos <= p'.pos <= |env.stream|
    && w'.deltas == w.deltas + TextDeltas(env.stream[p.pos..p'.pos])
  }

  /** However it ends, an event loop passes on the text deltas of exactly the events it has
      consumed, in order; a grace window passes on none. */
  lemma {:induction false} DrainPassesDeltasOn(env: Env, p: Proc, w: Waiter, aborted: bool)
    requires p.pos <= |env.stream|
    ensures var (_, p', w') := DrainEvents(env, p, w, aborted); PassesOn(env, p, w, p', w')
    decreases |env.stream| - p.pos
  {
    var (next, p1) := NextEvent(env, p);
    NextPassesDeltasOn(env, p, w);
    if next.Got? {
      var aborts := !aborted && Cancelled(env, p1.now);
      var p2 := SideEffects(if aborts then p1.(sent := p1.sent + [AbortCommand]) else p1, next.event);
      var w2 := Handled(w, next.event);
      SideEffectsStay(p1, aborts, next.event);
      assert PassesOn(env, p, w, p2, w2);
      hide NextEvent, Handled, TextDeltas, SideEffects, PassesOn;
      if !IsRejection(next.event) && !IsTerminal(next.event) {
        DrainPassesDeltasOn(env, p2, w2, aborted || aborts);
        var (_, p', w') := DrainEvents(env, p2, w2, aborted || aborts);
        PassesFurtherOn(env, p, w, p2, w2, p', w');
      }
    }
  }

  lemma PassesFurtherOn(env: Env, p: Proc, w: Waiter, p1: Proc, w1: Waiter, p2: Proc, w2: Waiter)
    requires p.pos < |env.stream| && p1.pos == p.pos + 1
    requires PassesOn(env, p, w, p1, w1) && PassesOn(env, p1, w1, p2, w2)
    ensures PassesOn(env, p, w, p2, w2)
  {
    var a := env.stream[p.pos];
    assert env.stream[p.pos..p1.pos] == [a];
    assert env.stream[p.pos..p2.pos] == [a] + env.stream[p1.pos..p2.pos];
    DeltasCons(a, env.stream[p1.pos..p2.pos]);
  }

  lemma SideEffectsStay(p: Proc, aborts: bool, e: Event)
    ensures SideEffects(if aborts then p.(sent := p.sent + [AbortCommand]) else p, e).pos == p.pos
  {
  }

  lemma DeltasCons(a: Arrival, s: seq<Arrival>)
    ensures TextDeltas([a] + s) == TextDeltas([a]) + TextDeltas(s)
  {
    assert ([a] + s)[1..] == s;
  }

  lemma NextPassesDeltasOn(env: Env, p: Proc, w: Waiter)
    requires p.pos <= |env.stream|
    ensures var (next, p') := NextEvent(env, p);
      && p.pos <= p'.pos <= |env.stream|
      && (next.Got? ==>
            && env.stream[p.pos].Event? && next.event == env.stream[p.pos].event
            && Handled(w, next.event).deltas == w.deltas + TextDeltas([env.stream[p.pos]]))
      && (next.Got? ==> env.stream[p.pos..p'.pos] == [env.stream[p.pos]])
      && (!next.Got? || IsRejection(next.event) ==> TextDeltas(env.stream[p.pos..p'.pos]) == [])
  {
  }

  // ----- aborts -----

  function Aborts(sent: seq<Command>): nat {
    if sent == [] then 0 else Aborts(sent[..|sent| - 1]) + if sent[|sent| - 1].AbortCommand? then 1 else 0
  }

  lemma AbortsAppend(sent: seq<Command>, c: Command)
    ensures Aborts(sent + [c]) == Aborts(sent) + if c.AbortCommand? then 1 else 0
  {
    assert (sent + [c])[..|sent|] == sent;
  }

  /** One drainEvents sends at most one abort, and it sends one when it sees a terminal event
      after the cancellation. */
  lemma {:induction false} DrainAbortsOnce(env: Env, p: Proc, w: Waiter, aborted: bool)
    ensures var (r, p', _) := DrainEvents(env, p, w, aborted);
      && Aborts(p.sent) <= Aborts(p'.sent) <= Aborts(p.sent) + (if aborted then 0 else 1)
      && (r.Done? && env.cancel.Some? && env.cancel.value <= p'.now && !aborted ==>
            Aborts(p'.sent) == Aborts(p.sent) + 1)
    decreases |env.stream| - p.pos
  {
    var (next, p1) := NextEvent(env, p);
    NextSendsNothing(env, p);
    if next.Got? {
      var e := next.event;
      var aborts := !aborted && Cancelled(env, p1.now);
      var p2 := if aborts then p1.(sent := p1.sent + [AbortCommand]) else p1;
      AbortsAppend(p1.sent, AbortCommand);
      SideEffectsAbortNothing(p2, e);
      hide NextEvent, SideEffects, Handled, Aborts, IsTerminal;
      if !IsRejection(e) && !IsTerminal(e) {
        DrainAbortsOnce(env, SideEffects(p2, e), Handled(w, e), aborted || aborts);
      }
    }
  }

  lemma NextSendsNothing(env: Env, p: Proc)
    ensures NextEvent(env, p).1.sent == p.sent
  {
  }

  lemma SideEffectsAbortNothing(p: Proc, e: Event)
    ensures Aborts(SideEffects(p, e).sent) == Aborts(p.sent) && SideEffects(p, e).now == p.now
  {
    if e.UiRequest? { AbortsAppend(p.sent, UiCancelled(e.id)); }
  }
}
