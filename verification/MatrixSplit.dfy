/** The Matrix backend cuts a long message into chunks of at most 30000 bytes, at the last
    newline that fits where there is one. */
module MatrixSplit {

  const MAX_MESSAGE_LEN: nat := 30000

  type Byte = b: int | 0 <= b < 256
  const NEWLINE: Byte := 10

  /** strings.LastIndexByte */
  function LastIndexByte(s: seq<Byte>, c: Byte): (i: int)
    ensures -1 <= i < |s|
    ensures 0 <= i ==> s[i] == c
    ensures forall j :: i < j < |s| ==> s[j] != c
  {
    if s == [] then -1
    else if s[|s| - 1] == c then |s| - 1
    else LastIndexByte(s[..|s| - 1], c)
  }

  /** How much of the remaining text the next chunk takes. */
  function Cutoff(text: seq<Byte>): (n: nat)
    requires text != []
    ensures 1 <= n <= |text| && n <= MAX_MESSAGE_LEN
  {
    if |text| <= MAX_MESSAGE_LEN then |text|
    else
      var idx := LastIndexByte(text[..MAX_MESSAGE_LEN], NEWLINE);
      if idx > 0 then idx + 1 else MAX_MESSAGE_LEN
  }

  function Chunks(text: seq<Byte>): seq<seq<Byte>>
    decreases |text|
  {
    if text == [] then [] else [text[..Cutoff(text)]] + Chunks(text[Cutoff(text)..])
  }

  // ----- sending -----

  datatype Reply = NoReply | ReplyTo(eventID: string)

  /** One SendMessageEvent call. */
  datatype Sent = Sent(chunk: seq<Byte>, relatesTo: Reply)

  datatype Answer = Failed | Accepted(eventID: string)

  /** What is on the wire after n calls: the first n chunks, the first of them as a reply. */
  function FirstCalls(text: seq<Byte>, replyTo: Reply, n: nat): seq<Sent>
    requires n <= |Chunks(text)|
  {
    seq(n, i requires 0 <= i < n => Sent(Chunks(text)[i], if i == 0 then replyTo else NoReply))
  }

  /** SendMessage; the server's answer to the n-th call is server(n).  The calls made are the
      chunks in order, up to and including the first one that fails; the result is the id of
      the last chunk that was accepted, or "". */
  method SendMessage(text: seq<Byte>, replyTo: Reply, server: nat -> Answer)
    returns (lastEventID: string, sent: seq<Sent>)
    ensures |sent| <= |Chunks(text)| && sent == FirstCalls(text, replyTo, |sent|)
    ensures forall i: nat :: i + 1 < |sent| ==> server(i).Accepted?
    ensures |sent| < |Chunks(text)| ==> sent != [] && server(|sent| - 1).Failed?
    ensures var accepted := if sent != [] && server(|sent| - 1).Failed? then |sent| - 1 else |sent|;
            lastEventID == if accepted > 0 && server(accepted - 1).Accepted? then server(accepted - 1).eventID else ""
  {
    hide Cutoff, Chunks, FirstCalls, ChunksOf;
    NoCallYet(text, replyTo);
    var rest, firstChunk := text, true;
    lastEventID, sent := "", [];
    while |rest| > 0
      invariant Chunks(text) == ChunksOf(sent) + Chunks(rest)
      invariant sent == FirstCalls(text, replyTo, |sent|)
      invariant firstChunk <==> sent == []
      invariant forall i: nat :: i < |sent| ==> server(i).Accepted?
      invariant lastEventID == if |sent| > 0 then server(|sent| - 1).eventID else ""
      decreases |rest|
    {
      ghost var was := rest;
      var chunk := rest;
      if |chunk| > MAX_MESSAGE_LEN {
        var cutoff := MAX_MESSAGE_LEN;
        var idx := LastIndexByte(chunk[..cutoff], NEWLINE);
        if idx > 0 {
          cutoff := idx + 1;
        }
        chunk := rest[..cutoff];
        rest := rest[cutoff..];
      } else {
        rest := [];
      }
      CutoffIs(was);
      assert chunk == was[..Cutoff(was)] && rest == was[Cutoff(was)..];
      var relatesTo := NoReply;
      if firstChunk {
        relatesTo := replyTo;
      }
      firstChunk := false;
      OneMoreCall(text, replyTo, sent, was);
      sent := sent + [Sent(chunk, relatesTo)];
      var resp := server(|sent| - 1);
      if resp.Failed? {
        return;
      }
      lastEventID := resp.eventID;
    }
    AllCalled(text, sent);
  }

  lemma CutoffIs(text: seq<Byte>)
    requires text != []
    ensures var idx := LastIndexByte(text[..if |text| < MAX_MESSAGE_LEN then |text| else MAX_MESSAGE_LEN], NEWLINE);
            Cutoff(text) == if |text| <= MAX_MESSAGE_LEN then |text| else if idx > 0 then idx + 1 else MAX_MESSAGE_LEN
  {
  }

  lemma NoCallYet(text: seq<Byte>, replyTo: Reply)
    ensures Chunks(text) == ChunksOf([]) + Chunks(text) && [] == FirstCalls(text, replyTo, 0)
  {
  }

  lemma AllCalled(text: seq<Byte>, sent: seq<Sent>)
    requires Chunks(text) == ChunksOf(sent) + Chunks([])
    ensures |sent| == |Chunks(text)|
  {
  }

  /** After the calls `sent`, with `rest` still to go, comes the next chunk of the text. */
  lemma OneMoreCall(text: seq<Byte>, replyTo: Reply, sent: seq<Sent>, rest: seq<Byte>)
    requires Chunks(text) == ChunksOf(sent) + Chunks(rest) && rest != []
    requires sent == FirstCalls(text, replyTo, |sent|)
    ensures var chunk := rest[..Cutoff(rest)];
            var after := sent + [Sent(chunk, if sent == [] then replyTo else NoReply)];
            && Chunks(text) == ChunksOf(after) + Chunks(rest[Cutoff(rest)..])
            && after == FirstCalls(text, replyTo, |after|)
  {
    hide Cutoff, FirstCalls;
    var chunk, tail := rest[..Cutoff(rest)], Chunks(rest[Cutoff(rest)..]);
    assert Chunks(rest) == [chunk] + tail;
    hide Chunks;
    AddChunk(Chunks(text), sent, Sent(chunk, if sent == [] then replyTo else NoReply), tail);
    NextCall(text, replyTo, sent, chunk);
  }

  lemma AddChunk(all: seq<seq<Byte>>, sent: seq<Sent>, next: Sent, tail: seq<seq<Byte>>)
    requires all == ChunksOf(sent) + ([next.chunk] + tail)
    ensures all == ChunksOf(sent + [next]) + tail
    ensures |sent| < |all| && all[|sent|] == next.chunk
  {
    assert ChunksOf(sent + [next]) == ChunksOf(sent) + [next.chunk];
  }

  lemma NextCall(text: seq<Byte>, replyTo: Reply, sent: seq<Sent>, chunk: seq<Byte>)
    requires |sent| < |Chunks(text)| && Chunks(text)[|sent|] == chunk
    requires sent == FirstCalls(text, replyTo, |sent|)
    ensures sent + [Sent(chunk, if sent == [] then replyTo else NoReply)] == FirstCalls(text, replyTo, |sent| + 1)
  {
    hide Chunks;
  }

  function ChunksOf(sent: seq<Sent>): (chunks: seq<seq<Byte>>)
    ensures |chunks| == |sent|
    ensures forall i :: 0 <= i < |sent| ==> chunks[i] == sent[i].chunk
  {
    seq(|sent|, i requires 0 <= i < |sent| => sent[i].chunk)
  }

  // ----- lossless -----

  function Flatten(parts: seq<seq<Byte>>): seq<Byte> {
    if parts == [] then [] else parts[0] + Flatten(parts[1..])
  }

  /** A split into non-empty pieces that the server's size limit allows. */
  ghost predicate FitsLimit(parts: seq<seq<Byte>>) {
    forall i :: 0 <= i < |parts| ==> 1 <= |parts[i]| <= MAX_MESSAGE_LEN
  }

  /** Every cut comes right after a newline. */
  ghost predicate CutsAtNewlines(parts: seq<seq<Byte>>) {
    forall i :: 0 <= i < |parts| - 1 ==> parts[i] != [] && parts[i][|parts[i]| - 1] == NEWLINE
  }

  /** Nothing is lost, added or reordered, and every chunk may be sent. */
  lemma {:induction false} ChunksAreLossless(text: seq<Byte>)
    ensures Flatten(Chunks(text)) == text
    ensures FitsLimit(Chunks(text))
    decreases |text|
  {
    hide Cutoff;
    if text != [] {
      var rest := text[Cutoff(text)..];
      ChunksAreLossless(rest);
      assert text == text[..Cutoff(text)] + rest;
      assert Chunks(text)[1..] == Chunks(rest);
      forall i | 0 <= i < |Chunks(text)| ensures 1 <= |Chunks(text)[i]| <= MAX_MESSAGE_LEN {
        if i > 0 { assert Chunks(text)[i] == Chunks(rest)[i - 1]; }
      }
    }
  }

  /** Where there is no newline to cut at, a message is filled up: each but the last has exactly 30000
      bytes or ends in a newline, and in the first case none of its bytes after the first is one. */
  lemma {:induction false} TornChunksAreFull(text: seq<Byte>, i: nat)
    requires i + 1 < |Chunks(text)|
    ensures var chunk := Chunks(text)[i];
      && 1 <= |chunk| <= 30000
      && (chunk[|chunk| - 1] != 10 ==> |chunk| == 30000 && forall j :: 1 <= j < |chunk| ==> chunk[j] != 10)
    decreases |text|
  {
    var n := Cutoff(text);
    assert Chunks(text) == [text[..n]] + Chunks(text[n..]);
    if i > 0 {
      TornChunksAreFull(text[n..], i - 1);
    } else {
      assert |text| > MAX_MESSAGE_LEN;
      var window := text[..MAX_MESSAGE_LEN];
      assert text[..n] == window[..n];
    }
  }

  // ----- optimal -----

  /** Greedy cutting stays ahead: a piece that ends in a newline and starts no later than the
      greedy chunk does not reach beyond it. */
  lemma GreedyReaches(text: seq<Byte>, start: nat, end: nat)
    requires start < end <= |text| && end <= start + MAX_MESSAGE_LEN
    requires end == |text| || text[end - 1] == NEWLINE
    ensures start + Cutoff(text[start..]) >= end
  {
    var rest := text[start..];
    if |rest| > MAX_MESSAGE_LEN {
      var window := rest[..MAX_MESSAGE_LEN];
      assert end == |text| || window[end - 1 - start] == NEWLINE;
    }
  }

  lemma {:induction false} GreedyStaysAhead(text: seq<Byte>, greedy: nat, other: nat, parts: seq<seq<Byte>>)
    requires other <= greedy <= |text| && Flatten(parts) == text[other..]
    requires FitsLimit(parts) && CutsAtNewlines(parts)
    ensures |Chunks(text[greedy..])| <= |parts|
    decreases |parts|
  {
    if greedy < |text| {
      var end := other + |parts[0]|;
      assert text[other..] == parts[0] + Flatten(parts[1..]);
      assert Flatten(parts[1..]) == text[end..];
      assert forall i :: 0 <= i < |parts[1..]| ==> parts[1..][i] == parts[i + 1];
      if end <= greedy {
        GreedyStaysAhead(text, greedy, end, parts[1..]);
      } else {
        if |parts| == 1 {
          assert end == |text|;
        } else {
          assert text[end - 1] == parts[0][|parts[0]| - 1];
        }
        GreedyReaches(text, greedy, end);
        var next := greedy + Cutoff(text[greedy..]);
        GreedyStaysAhead(text, next, end, parts[1..]);
        assert text[greedy..][Cutoff(text[greedy..])..] == text[next..];
      }
    }
  }

  /** No way of cutting only at newlines, within the size limit, needs fewer messages. */
  lemma {:induction false} GreedyIsOptimal(text: seq<Byte>, parts: seq<seq<Byte>>)
    requires Flatten(parts) == text && FitsLimit(parts) && CutsAtNewlines(parts)
    ensures |Chunks(text)| <= |parts|
  {
    assert text[0..] == text;
    GreedyStaysAhead(text, 0, 0, parts);
  }

  // ----- where the cuts are -----

  /** The lines of a text, each with its terminator. */
  function Lines(text: seq<Byte>): seq<seq<Byte>> {
    if text == [] then []
    else
      var rest := Lines(text[1..]);
      if text[0] == NEWLINE || rest == [] then [[text[0]]] + rest
      else [[text[0]] + rest[0]] + rest[1..]
  }

  ghost predicate LinesAtMost(text: seq<Byte>, n: nat) {
    forall i :: 0 <= i < |Lines(text)| ==> |Lines(text)[i]| <= n
  }

  lemma {:induction false} LinesCover(text: seq<Byte>)
    ensures Flatten(Lines(text)) == text
    ensures forall i :: 0 <= i < |Lines(text)| ==> Lines(text)[i] != []
    ensures CutsAtNewlines(Lines(text))
  {
    if text != [] {
      LinesCover(text[1..]);
      var rest, lines := Lines(text[1..]), Lines(text);
      assert text == [text[0]] + text[1..];
      if text[0] == NEWLINE || rest == [] {
        assert lines[1..] == rest;
        CutsAtNewlinesCons([text[0]], rest);
      } else {
        assert lines[1..] == rest[1..];
        assert Flatten(rest) == rest[0] + Flatten(rest[1..]);
        assert rest == [rest[0]] + rest[1..];
        assert rest[1..] != [] ==> rest[0] != [] && rest[0][|rest[0]| - 1] == NEWLINE;
        CutsAtNewlinesCons(rest[0], rest[1..]);
        CutsAtNewlinesCons([text[0]] + rest[0], rest[1..]);
      }
      hide CutsAtNewlines;
    }
  }

  function PutFirst(c: Byte, lines: seq<seq<Byte>>): seq<seq<Byte>> {
    if c == NEWLINE || lines == [] then [[c]] + lines else [[c] + lines[0]] + lines[1..]
  }

  lemma LinesOf(text: seq<Byte>)
    ensures text == [] ==> Lines(text) == []
    ensures text != [] ==> Lines(text) == PutFirst(text[0], Lines(text[1..]))
  {
  }

  lemma PutFirstSplit(c: Byte, a: seq<seq<Byte>>, b: seq<seq<Byte>>)
    requires c == NEWLINE || a != []
    ensures PutFirst(c, a + b) == PutFirst(c, a) + b
  {
    if c != NEWLINE {
      assert (a + b)[1..] == a[1..] + b;
    }
  }

  lemma {:induction false} LinesSplit(a: seq<Byte>, b: seq<Byte>)
    requires a != [] && a[|a| - 1] == NEWLINE
    ensures Lines(a + b) == Lines(a) + Lines(b)
  {
    hide Lines, PutFirst;
    LinesOf(a + b);
    LinesOf(a);
    assert (a + b)[1..] == a[1..] + b;
    if |a| > 1 {
      LinesSplit(a[1..], b);
      LinesNotEmpty(a[1..]);
    } else {
      assert a[1..] == [] && a[1..] + b == b;
      LinesOf(a[1..]);
      assert [] + Lines(b) == Lines(b);
    }
    PutFirstSplit(a[0], Lines(a[1..]), Lines(b));
  }

  lemma LinesNotEmpty(text: seq<Byte>)
    requires text != []
    ensures Lines(text) != []
  {
  }

  /** Each line fits into a chunk, and so does each empty line together with the one after it. */
  ghost predicate LinesFit(text: seq<Byte>) {
    && LinesAtMost(text, MAX_MESSAGE_LEN)
    && forall i :: 0 <= i < |Lines(text)| - 1 && |Lines(text)[i]| == 1 ==> |Lines(text)[i + 1]| < MAX_MESSAGE_LEN
  }

  /** A text longer than the limit, with lines that fit, has a newline to cut at. */
  lemma FittingLinesGiveACut(text: seq<Byte>)
    requires |text| > MAX_MESSAGE_LEN && LinesFit(text)
    ensures text[Cutoff(text) - 1] == NEWLINE
  {
    LinesCover(text);
    var lines := Lines(text);
    assert lines != [] && text == lines[0] + Flatten(lines[1..]);
    assert |lines| > 1;
    var first := |lines[0]|;
    assert text[first - 1] == lines[0][first - 1] == NEWLINE;
    assert Flatten(lines[1..]) == lines[1] + Flatten(lines[2..]) by {
      assert lines[1..][1..] == lines[2..];
    }
    var second := first + |lines[1]|;
    var window := text[..MAX_MESSAGE_LEN];
    if first > 1 {
      assert window[first - 1] == NEWLINE;
    } else {
      assert Flatten(lines[2..]) != [];
      assert |lines| > 2;
      assert text[second - 1] == lines[1][|lines[1]| - 1] == NEWLINE;
      assert window[second - 1] == NEWLINE;
    }
  }

  lemma RestFits(head: seq<Byte>, rest: seq<Byte>)
    requires head != [] && head[|head| - 1] == NEWLINE && LinesFit(head + rest)
    ensures LinesFit(rest)
  {
    var all, lines, n := Lines(head + rest), Lines(rest), |Lines(head)|;
    LinesSplit(head, rest);
    hide Lines;
    assert forall i :: 0 <= i < |lines| ==> lines[i] == all[n + i];
    forall i | 0 <= i < |lines| - 1 && |lines[i]| == 1 ensures |lines[i + 1]| < MAX_MESSAGE_LEN {
      assert lines[i] == all[n + i] && lines[i + 1] == all[(n + i) + 1];
    }
  }

  lemma CutsAtNewlinesCons(first: seq<Byte>, rest: seq<seq<Byte>>)
    requires rest != [] ==> first != [] && first[|first| - 1] == NEWLINE
    ensures CutsAtNewlines([first] + rest) <==> CutsAtNewlines(rest)
  {
    var all := [first] + rest;
    assert forall i :: 0 <= i < |rest| ==> all[i + 1] == rest[i];
    if CutsAtNewlines(rest) {
      forall i | 0 <= i < |all| - 1 ensures all[i] != [] && all[i][|all[i]| - 1] == NEWLINE {
        if i > 0 { assert all[i] == rest[i - 1]; }
      }
    }
    if CutsAtNewlines(all) {
      forall i | 0 <= i < |rest| - 1 ensures rest[i] != [] && rest[i][|rest[i]| - 1] == NEWLINE {
        assert all[i + 1] == rest[i];
      }
    }
  }

  /** When every line, with its terminator, has at most 30000 bytes, and no empty line stands
      directly before one of exactly 30000, every cut is at a newline; so with the lemma above
      no other such split is shorter. */
  lemma {:induction false} FittingLinesStayWhole(text: seq<Byte>)
    requires LinesFit(text)
    ensures CutsAtNewlines(Chunks(text))
    decreases |text|
  {
    if |text| > MAX_MESSAGE_LEN {
      FittingLinesGiveACut(text);
      var head, rest := text[..Cutoff(text)], text[Cutoff(text)..];
      assert text == head + rest;
      RestFits(head, rest);
      FittingLinesStayWhole(rest);
      CutsAtNewlinesCons(head, Chunks(rest));
    } else if text != [] {
      assert text[Cutoff(text)..] == [];
    }
  }

  /** In particular when no line is longer than 29999 bytes. */
  lemma ShortLinesStayWhole(text: seq<Byte>)
    requires LinesAtMost(text, MAX_MESSAGE_LEN - 1)
    ensures CutsAtNewlines(Chunks(text))
  {
    FittingLinesStayWhole(text);
  }

  // ----- exactly which texts have their lines kept whole -----

  function Size(lines: seq<seq<Byte>>): (n: nat)
    ensures n == |Flatten(lines)|
  {
    if lines == [] then 0 else |lines[0]| + Size(lines[1..])
  }

  /** Whole lines can be put into messages one after the other, `used` bytes being in the
      current one: a line that does not fit starts the next message, and then the one it does
      not fit into must hold more than one byte, that is, more than an empty line. */
  predicate LinesPack(lines: seq<seq<Byte>>, used: nat)
    decreases |lines|, used
  {
    lines == [] ||
    if used + |lines[0]| <= MAX_MESSAGE_LEN then LinesPack(lines[1..], used + |lines[0]|)
    else used > 1 && LinesPack(lines, 0)
  }

  lemma {:induction false} FittingLinesGoIn(a: seq<seq<Byte>>, b: seq<seq<Byte>>, used: nat)
    requires used + Size(a) <= MAX_MESSAGE_LEN
    ensures LinesPack(a + b, used) == LinesPack(b, used + Size(a))
    decreases |a|
  {
    if a == [] {
      assert a + b == b;
    } else {
      assert (a + b)[1..] == a[1..] + b;
      FittingLinesGoIn(a[1..], b, used + |a[0]|);
    }
  }

  /** A line ends with the first newline, or with the text. */
  lemma FirstLine(text: seq<Byte>)
    requires text != []
    ensures Lines(text) != []
    ensures var n := |Lines(text)[0]|;
            && 1 <= n <= |text|
            && (n == |text| || text[n - 1] == NEWLINE)
            && (text[0] == NEWLINE ==> n == 1 && Lines(text)[1..] == Lines(text[1..]))
  {
    LinesCover(text);
    var lines := Lines(text);
    assert text == lines[0] + Flatten(lines[1..]);
    if |lines| > 1 {
      assert text[|lines[0]| - 1] == lines[0][|lines[0]| - 1];
    } else {
      assert lines[1..] == [];
    }
  }

  lemma NoNewlineAfterCut(text: seq<Byte>)
    requires |text| > MAX_MESSAGE_LEN && text[Cutoff(text) - 1] == NEWLINE
    ensures Cutoff(text) > 1
    ensures forall j :: Cutoff(text) <= j < MAX_MESSAGE_LEN ==> text[j] != NEWLINE
  {
    var window := text[..MAX_MESSAGE_LEN];
    assert forall j :: 0 <= j < MAX_MESSAGE_LEN ==> window[j] == text[j];
  }

  /** The line after a cut at a newline would not have fitted in before it. */
  lemma NextLineIsTooLong(text: seq<Byte>)
    requires |text| > MAX_MESSAGE_LEN && text[Cutoff(text) - 1] == NEWLINE
    ensures var next := Lines(text[Cutoff(text)..]);
            next != [] && Cutoff(text) + |next[0]| > MAX_MESSAGE_LEN
  {
    var n := Cutoff(text);
    var rest := text[n..];
    NoNewlineAfterCut(text);
    FirstLine(rest);
    hide Cutoff, Lines;
    var length := |Lines(rest)[0]|;
    assert rest[length - 1] == text[n + (length - 1)];
  }

  /** A message cut off at a newline is filled with whole lines. */
  lemma CutIsFull(text: seq<Byte>)
    requires |text| > MAX_MESSAGE_LEN && text[Cutoff(text) - 1] == NEWLINE
    ensures LinesPack(Lines(text), 0) == LinesPack(Lines(text[Cutoff(text)..]), 0)
  {
    var n := Cutoff(text);
    var head, rest := text[..n], text[n..];
    assert text == head + rest;
    NoNewlineAfterCut(text);
    NextLineIsTooLong(text);
    LinesSplit(head, rest);
    LinesCover(head);
    hide Cutoff, Lines;
    FittingLinesGoIn(Lines(head), Lines(rest), 0);
  }

  /** A message cut off elsewhere has no room for its first line, or for the one that follows an
      empty line. */
  lemma TornDoesNotPack(text: seq<Byte>)
    requires |text| > MAX_MESSAGE_LEN && text[Cutoff(text) - 1] != NEWLINE
    ensures !LinesPack(Lines(text), 0)
  {
    var window := text[..MAX_MESSAGE_LEN];
    assert forall j :: 0 < j < MAX_MESSAGE_LEN ==> window[j] == text[j] && text[j] != NEWLINE;
    FirstLine(text);
    if text[0] == NEWLINE {
      FirstLine(text[1..]);
    }
  }

  /** Every cut is at a newline if and only if the lines can be packed as above. */
  lemma {:induction false} WholeIffLinesPack(text: seq<Byte>)
    ensures CutsAtNewlines(Chunks(text)) <==> LinesPack(Lines(text), 0)
    decreases |text|
  {
    if |text| > MAX_MESSAGE_LEN {
      var head, rest := text[..Cutoff(text)], text[Cutoff(text)..];
      var chunks := Chunks(text);
      assert chunks == [head] + Chunks(rest) && Chunks(rest) != [];
      if head[|head| - 1] == NEWLINE {
        CutIsFull(text);
        WholeIffLinesPack(rest);
        CutsAtNewlinesCons(head, Chunks(rest));
      } else {
        TornDoesNotPack(text);
        assert chunks[0] == head;
      }
    } else {
      LinesCover(text);
      FittingLinesGoIn(Lines(text), [], 0);
      assert Lines(text) + [] == Lines(text);
    }
  }

  lemma {:induction false} PackedLinesFit(lines: seq<seq<Byte>>, used: nat, i: nat)
    requires LinesPack(lines, used) && i < |lines|
    ensures |lines[i]| <= MAX_MESSAGE_LEN
    decreases |lines|, used
  {
    if used + |lines[0]| > MAX_MESSAGE_LEN {
      PackedLinesFit(lines, 0, i);
    } else if i > 0 {
      PackedLinesFit(lines[1..], used + |lines[0]|, i - 1);
    }
  }

  /** In particular, a line of more than 30000 bytes is always torn. */
  lemma WholeLinesFit(text: seq<Byte>)
    requires CutsAtNewlines(Chunks(text))
    ensures LinesAtMost(text, MAX_MESSAGE_LEN)
  {
    WholeIffLinesPack(text);
    forall i | 0 <= i < |Lines(text)| ensures |Lines(text)[i]| <= MAX_MESSAGE_LEN {
      PackedLinesFit(Lines(text), 0, i);
    }
  }

  /** The condition on empty lines is needed: one before a line of exactly 30000 bytes could be
      sent in two messages cut at the newline, but the line is torn apart. */
  lemma OneByteMoreIsTorn() returns (text: seq<Byte>, parts: seq<seq<Byte>>)
    ensures Flatten(parts) == text && FitsLimit(parts) && CutsAtNewlines(parts)
    ensures !CutsAtNewlines(Chunks(text))
  {
    var long := seq(MAX_MESSAGE_LEN - 1, i => 120 as Byte) + [NEWLINE];
    parts := [[NEWLINE], long];
    text := [NEWLINE] + long;
    assert parts[1..] == [long] && Flatten([long]) == long + Flatten([]);
    var window := text[..MAX_MESSAGE_LEN];
    assert forall j :: 0 < j < |window| ==> window[j] == 120;
    assert LastIndexByte(window, NEWLINE) <= 0;
    assert Cutoff(text) == MAX_MESSAGE_LEN;
    var chunks := Chunks(text);
    assert chunks[0] == window && text[MAX_MESSAGE_LEN..] != [];
    assert Chunks(text[MAX_MESSAGE_LEN..]) != [];
    assert |chunks| > 1;
    assert chunks[0][|chunks[0]| - 1] == 120;
  }
}
