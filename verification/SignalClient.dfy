/** The client object behind the multiplexer: its critical sections update the fields in place
    and are the steps of the machine; its reader is proved against `ReadAll`. */
module SignalClients {
  import opened SignalRpc

  class JsonRpcClient {
    var nextID: nat
    var pending: map<string, nat>
    var calls: seq<Call>
    var lines: seq<Line>
    var notes: seq<nat>
    ghost var taken: seq<nat>   // what the consumer of the notifications has had
    var reader: Reader

    ghost function View(): Client
      reads this
    {
      Client(nextID, pending, calls, lines, notes, taken, reader)
    }

    constructor ()
      ensures View() == Fresh() && Inv(View())
    {
      nextID, pending, calls, lines, notes, taken, reader := 0, map[], [], [], [], [], Scanning;
      new;
      FreshIsSound();
    }

    /** The first two statements of Call. */
    method StartCall() returns (call: nat)
      requires Inv(View())
      modifies this
      ensures Inv(View())
      ensures call == old(|calls|)
      ensures View() == Apply(old(View()), TakeNumber)
    {
      StepKeepsInv(View(), TakeNumber);
      call := |calls|;
      nextID := if nextID + 1 == WRAP then 0 else nextID + 1;
      calls := calls + [Call(Decimal(nextID), Numbered, [], 0)];
    }

    method RegisterCall(call: nat)
      requires Inv(View()) && Enabled(View(), Register(call))
      modifies this
      ensures Inv(View())
      ensures View() == Apply(old(View()), Register(call))
    {
      StepKeepsInv(View(), Register(call));
      pending := pending[calls[call].id := call];
      calls := calls[call := calls[call].(phase := Registered)];
    }

    /** removePending, and the return that follows it. */
    method RemovePending(call: nat)
      requires Inv(View()) && Enabled(View(), Leave(call))
      modifies this
      ensures Inv(View())
      ensures View() == Apply(old(View()), Leave(call))
    {
      StepKeepsInv(View(), Leave(call));
      pending := pending - {calls[call].id};
      calls := calls[call := calls[call].(phase := Returned(GaveUp(calls[call].phase.why)))];
    }

    /** The capacity of the channel is a duty of the sender: it never blocks here. */
    method Send(call: nat, message: Message)
      requires call < |calls| && calls[call].channel == []
      modifies `calls
      ensures View() == Sent(old(View()), call, message)
    {
      var c := calls[call];
      calls := calls[call := c.(channel := c.channel + [message], sent := c.sent + 1)];
    }

    method FailEntry(id: string)
      requires Enabled(View(), FailOne(id))
      modifies `pending, `calls
      ensures View() == Apply(old(View()), FailOne(id))
    {
      Send(pending[id], ReadsEnded);
      pending := pending - {id};
    }

    method FailPending()
      requires Inv(View()) && reader == Failing
      modifies `pending, `calls
      ensures pending == map[]
      ensures View().(reader := Ended) == AfterReads(old(View()))
    {
      hide Inv, AfterReads, Apply, Enabled;
      while pending != map[]
        invariant Inv(View()) && reader == Failing
        invariant AfterReads(View()) == AfterReads(old(View()))
        decreases |pending|
      {
        ghost var was := View();
        var id :| id in pending;
        OneFail(was, id);
        StepKeepsInv(was, FailOne(id));
        FailEntry(id);
      }
      NothingToFail(View());
    }

    /** The lines the connection yields before it ends; `finished` is false when the reader is
        left waiting for room in the notification channel. */
    method ReadLoop(input: seq<Line>) returns (finished: bool)
      requires Inv(View()) && reader == Scanning
      modifies this
      ensures View() == ReadAll(old(View()), input)
      ensures finished == reader.Ended?
    {
      for k := 0 to |input|
        invariant Inv(View()) && reader == Scanning
        invariant ReadAll(View(), input[k..]) == ReadAll(old(View()), input)
      {
        LineKeepsInv(View(), input[k]);
        assert input[k..][1..] == input[k + 1..];
        HandleLine(input[k]);
        if reader != Scanning { return false; }
      }
      assert input[|input|..] == [];
      StepKeepsInv(View(), ReadsEnd);
      reader := Failing;
      FailPending();
      reader := Ended;
      finished := true;
    }

    method HandleLine(line: Line)
      requires Inv(View()) && reader == Scanning
      modifies this
      ensures View() == AfterLine(old(View()), line)
    {
      PendingChannelsAreEmpty(View());
      hide Inv;
      lines := lines + [line];
      if line.Blank? || line.Malformed? { return; }
      if line.verb != "" && line.id.Absent? {
        if |notes| < NOTES {
          notes := notes + [|lines| - 1];
        } else {
          reader := Notifying;
        }
        return;
      }
      var id := Normalize(line.id);
      if id == "" { return; }
      if id in pending {
        var call := pending[id];
        pending := pending - {id};
        Send(call, Response(|lines| - 1));
      }
    }
  }
}
