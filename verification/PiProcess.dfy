/** The process and the result waiter as objects; each loop is proved against its function. */
module PiProcesses {
  import opened Common
  import opened PiRpc

  class ResultWaiter {
    var reply: string
    var finalErr: string
    var deltas: seq<string>

    ghost function View(): Waiter
      reads this
    {
      Waiter(reply, finalErr, deltas)
    }

    constructor ()
      ensures View() == Waiter("", "", [])
    {
      reply, finalErr, deltas := "", "", [];
    }

    method Handle(e: PiRpc.Event) returns (done: bool)
      modifies this
      ensures View() == Handled(old(View()), e)
      ensures done == IsTerminal(e)
    {
      done := false;
      match e
      case AutoRetryEnd(success, finalError) =>
        if success == None || !success.value {
          finalErr := finalError;
          done := true;
        }
      case MessageUpdate(kind, delta) =>
        if kind == "text_delta" && delta != "" {
          deltas := deltas + [delta];
        }
      case AgentEnd(messages) =>
        HandleAgentEnd(messages);
        done := true;
      case _ =>
    }

    method HandleAgentEnd(messages: Messages)
      modifies `reply, `finalErr
      ensures View() == Handled(old(View()), AgentEnd(messages))
    {
      var last := ExtractLastAssistant(messages);
      reply := last.text;
      if last.stopReason == "error" {
        finalErr := last.errorMessage;
      }
    }
  }

  class PiProcess {
    const env: Env
    var pos: nat
    var now: int
    var sent: seq<Command>
    var tools: seq<string>

    ghost function View(): Proc
      reads this
    {
      Proc(pos, now, sent, tools)
    }

    constructor (env: Env, now: int)
      ensures this.env == env && View() == Proc(0, now, [], [])
    {
      this.env, pos, this.now, sent, tools := env, 0, now, [], [];
    }

    /** The select of the reader's channel and the process's end. */
    method NextEvent() returns (r: Next)
      modifies `pos, `now
      ensures (r, View()) == PiRpc.NextEvent(env, old(View()))
    {
      var a := if pos < |env.stream| then Some(Max(now, env.stream[pos].at))
               else if env.close.Some? then Some(Max(now, env.close.value))
               else None;
      if env.exit.Some? {
        var exit := Max(now, env.exit.value);
        if a.None? || exit < a.value || (exit == a.value && !env.takesTie(pos)) {
          now := exit;
          return Failed(ProcessExited);
        }
      }
      if a.None? { return Never; }
      now := a.value;
      if pos >= |env.stream| { return Failed(EndOfFile); }
      var arrival := env.stream[pos];
      pos := pos + 1;
      r := if arrival.Event? then Got(arrival.event) else Failed(StreamFault);
    }

    method HandleSideEffects(e: PiRpc.Event) returns (rejection: Option<Fault>)
      modifies `sent, `tools
      ensures View() == SideEffects(old(View()), e)
      ensures rejection == if IsRejection(e) then Some(Rejected(e.command, e.error)) else None
    {
      rejection := None;
      match e
      case UiRequest(id, verb) =>
        if IsDialog(verb) {
          sent := sent + [UiCancelled(id)];
        }
      case ToolStart(tool) => tools := tools + [tool];
      case Response(command, success, error) =>
        if success == Some(false) {
          rejection := Some(Rejected(command, error));
        }
      case _ =>
    }

    method DrainEvents(w: ResultWaiter) returns (r: Drained)
      modifies this, w
      ensures (r, View(), w.View()) == PiRpc.DrainEvents(env, old(View()), old(w.View()), false)
    {
      var aborted := false;
      ghost var all := PiRpc.DrainEvents(env, View(), w.View(), false);
      while true
        invariant all == PiRpc.DrainEvents(env, View(), w.View(), aborted)
        decreases |env.stream| - pos
      {
        var next := NextEvent();
        match next
        case Never => return Hangs;
        case Failed(fault) => return DrainFailed(fault);
        case Got(e) =>
          if !aborted && Cancelled(env, now) {
            sent := sent + [AbortCommand];
            aborted := true;
          }
          var rejection := HandleSideEffects(e);
          if rejection.Some? { return DrainFailed(rejection.value); }
          var done := w.Handle(e);
          if done { return Done; }
      }
    }

    /** The window closes at `end`: the timer, the cancellation or the exit, whichever is first. */
    method GraceDrain(w: ResultWaiter) returns (rescinded: bool)
      modifies `pos, `now, w`finalErr
      ensures (rescinded, View(), w.View()) ==
        PiRpc.GraceDrain(env, old(View()), old(w.View()), GraceEnd(env, old(now)))
    {
      var end := GraceEnd(env, now);
      ghost var all := PiRpc.GraceDrain(env, View(), w.View(), end);
      ghost var was := w.View();
      while true
        invariant w.View() == was && sent == old(sent) && tools == old(tools)
        invariant all == PiRpc.GraceDrain(env, View(), was, end)
        decreases |env.stream| - pos
      {
        var a := if pos < |env.stream| then Some(Max(now, env.stream[pos].at))
                 else if env.close.Some? then Some(Max(now, env.close.value))
                 else None;
        if a.None? || end < a.value || (end == a.value && !env.takesTie(pos)) {
          now := Max(now, end);
          return false;
        }
        now := a.value;
        if pos >= |env.stream| { return false; }
        var arrival := env.stream[pos];
        pos := pos + 1;
        if arrival.ReadError? { return false; }
        if ContinuesTurn(arrival.event) {
          w.finalErr := "";
          return true;
        }
      }
    }

    method WaitForResult() returns (outcome: Outcome)
      modifies this
      ensures var (o, p, _) := PiRpc.WaitForResult(env, old(View())); outcome == o && View() == p
    {
      var w := new ResultWaiter();
      ghost var all := PiRpc.WaitForResult(env, View());
      while true
        invariant fresh(w)
        invariant all == WaitFrom(env, View(), w.View(), false)
        decreases |env.stream| - pos
      {
        var r := DrainEvents(w);
        match r
        case Hangs => return WaitsForever;
        case DrainFailed(fault) => return Error(if Cancelled(env, now) then ContextCancelled else fault);
        case Done =>
          if w.finalErr == "" { break; }
          var rescinded := GraceDrain(w);
          if !rescinded { break; }
      }
      if w.reply == "" && w.finalErr != "" {
        return Reply(FailureText(w.finalErr));
      }
      outcome := Reply(w.reply);
    }

    method SendAndWait(call: Call) returns (outcome: Outcome)
      modifies this
      ensures var (o, p, _) := PiRpc.SendAndWait(env, old(View()), call); outcome == o && View() == p
    {
      now := Max(now, call.start);
      sent := sent + [Prompt(call.message)];
      outcome := WaitForResult();
    }
  }
}
