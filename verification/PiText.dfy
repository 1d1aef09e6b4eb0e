/** Which text an agent_end is answered with, said of the content blocks alone. */
module PiText {
  import opened Common
  import opened PiRpc

  // ----- text blocks -----

  predicate IsTextBlock(b: Block) {
    b.kind == "text" && b.text != ""
  }

  predicate HasText(blocks: seq<Block>) {
    exists b :: b in blocks && IsTextBlock(b)
  }

  lemma {:induction false} PartsJoin(a: seq<Block>, b: seq<Block>)
    ensures TextParts(a + b) == TextParts(a) + TextParts(b)
  {
    if a == [] {
      assert a + b == b;
    } else {
      assert (a + b)[1..] == a[1..] + b;
      PartsJoin(a[1..], b);
    }
  }

  lemma {:induction false} SomePart(blocks: seq<Block>)
    ensures TextParts(blocks) != [] <==> HasText(blocks)
  {
    if blocks != [] {
      SomePart(blocks[1..]);
      assert blocks[0] in blocks && forall b :: b in blocks <==> b == blocks[0] || b in blocks[1..];
      assert HasText(blocks) <==> IsTextBlock(blocks[0]) || HasText(blocks[1..]);
    }
  }

  lemma {:induction false} LinesJoin(a: seq<string>, b: seq<string>)
    requires a != [] && b != []
    ensures JoinLines(a + b) == JoinLines(a) + "\n" + JoinLines(b)
  {
    assert (a + b)[1..] == a[1..] + b;
    if |a| > 1 { LinesJoin(a[1..], b); }
  }

  /** Thinking, tool calls and empty texts leave no trace, wherever they stand. */
  lemma OtherBlocksDoNotCount(a: seq<Block>, b: Block, c: seq<Block>)
    requires b.kind != "text" || b.text == ""
    ensures ParseContent(Blocks(a + [b] + c)) == ParseContent(Blocks(a + c))
  {
    PartsJoin(a + [b], c);
    PartsJoin(a, [b]);
    PartsJoin(a, c);
    assert TextParts([b]) == [];
    assert a + [b] + c == (a + [b]) + c && TextParts(a) + [] == TextParts(a);
  }

  /** The texts of two parts stand on lines of their own. */
  lemma TextsAreJoined(a: seq<Block>, b: seq<Block>)
    requires HasText(a) && HasText(b)
    ensures ParseContent(Blocks(a + b)) == ParseContent(Blocks(a)) + "\n" + ParseContent(Blocks(b))
  {
    PartsJoin(a, b);
    SomePart(a);
    SomePart(b);
    LinesJoin(TextParts(a), TextParts(b));
  }

  /** A text, as a string or as one block, is itself; without a text there is none. */
  lemma TextIsItself(text: string, blocks: seq<Block>)
    ensures ParseContent(Plain(text)) == text
    ensures ParseContent(Blocks([Block("text", text)])) == text
    ensures !HasText(blocks) ==> ParseContent(Blocks(blocks)) == ""
    ensures ParseContent(BadContent) == ""
  {
    SomePart(blocks);
    assert TextParts([Block("text", text)]) == if text != "" then [text] else [];
  }

  lemma OneAmongOthers(a: seq<Block>, text: string, b: seq<Block>)
    requires text != "" && !HasText(a) && !HasText(b)
    ensures ParseContent(Blocks(a + [Block("text", text)] + b)) == text
    ensures HasText(a + [Block("text", text)] + b)
  {
    var one := [Block("text", text)];
    PartsJoin(a + one, b);
    PartsJoin(a, one);
    SomePart(a);
    SomePart(b);
    assert TextParts(one) == [text];
    assert IsTextBlock(one[0]) && one[0] in a + one + b;
  }

  // ----- answers -----

  /** An agent_end with this message of the assistant last. */
  function EndOf(before: seq<AgentMessage>, content: Content, after: seq<AgentMessage>): Event {
    AgentEnd(Messages(before + [AgentMessage("assistant", content, "stop", "")] + after))
  }

  /** A turn that ends in two texts, with anything else around them, is answered with the two, on
      lines of their own. */
  lemma BlocksAreAnswered(env: Env, p: Proc, at: int, before: seq<AgentMessage>, after: seq<AgentMessage>,
                          a: seq<Block>, first: string, b: seq<Block>, second: string, c: seq<Block>)
    requires first != "" && second != "" && !HasText(a) && !HasText(b) && !HasText(c)
    requires forall m :: m in after ==> m.role != "assistant"
    requires p.pos < |env.stream| && ExitsLater(env, Max(p.now, at))
    requires env.stream[p.pos] == Arrival.Event(at,
      EndOf(before, Blocks(a + [Block("text", first)] + b + [Block("text", second)] + c), after))
    ensures WaitForResult(env, p).0 == Reply(first + "\n" + second)
    ensures WaitForResult(env, p).1.pos == p.pos + 1
  {
    var left, right := a + [Block("text", first)] + b, [] + [Block("text", second)] + c;
    var blocks := a + [Block("text", first)] + b + [Block("text", second)] + c;
    OneAmongOthers(a, first, b);
    OneAmongOthers([], second, c);
    TextsAreJoined(left, right);
    assert blocks == left + right;
    var m := AgentMessage("assistant", Blocks(blocks), "stop", "");
    LastAssistantDecides(before, m, after);
    EndIsAnswered(env, p);
  }

  lemma EndIsAnswered(env: Env, p: Proc)
    requires p.pos < |env.stream| && env.stream[p.pos].Event? && env.stream[p.pos].event.AgentEnd?
    requires ExitsLater(env, Max(p.now, env.stream[p.pos].at))
    requires ExtractLastAssistant(env.stream[p.pos].event.messages).stopReason != "error"
    ensures WaitForResult(env, p).0 == Reply(ExtractLastAssistant(env.stream[p.pos].event.messages).text)
    ensures WaitForResult(env, p).1.pos == p.pos + 1
  {
    EventIsTaken(env, p, Waiter("", "", []), false);
    hide ExtractLastAssistant, AfterEvent;
  }

  lemma {:induction false} NoAssistant(messages: seq<AgentMessage>)
    requires forall m :: m in messages ==> m.role != "assistant"
    ensures LastAssistant(messages) == AssistantResult("", "", "")
  {
    if messages != [] {
      assert messages[|messages| - 1] in messages;
      NoAssistant(messages[..|messages| - 1]);
    }
  }

  /** Without a message of the assistant, or without readable messages, the answer is empty. */
  lemma SilenceIsAnswered(env: Env, p: Proc)
    requires p.pos < |env.stream| && env.stream[p.pos].Event? && env.stream[p.pos].event.AgentEnd?
    requires ExitsLater(env, Max(p.now, env.stream[p.pos].at))
    requires var ms := env.stream[p.pos].event.messages;
      ms.Messages? ==> forall m :: m in ms.messages ==> m.role != "assistant"
    ensures WaitForResult(env, p).0 == Reply("") && WaitForResult(env, p).1.pos == p.pos + 1
  {
    var ms := env.stream[p.pos].event.messages;
    if ms.Messages? { NoAssistant(ms.messages); }
    EndIsAnswered(env, p);
  }
}
