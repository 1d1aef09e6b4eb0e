/** How a queue row stores its relay set: names joined by newlines on insert, split, trimmed
    and stripped of empty names on load. */
module RelayNames {

  type Relay = string

  /** Go's unicode.IsSpace. */
  predicate IsSpace(c: char) {
    var n := c as int;
    || 0x09 <= n <= 0x0D || n == 0x20 || n == 0x85 || n == 0xA0 || n == 0x1680
    || 0x2000 <= n <= 0x200A || n == 0x2028 || n == 0x2029 || n == 0x202F || n == 0x205F || n == 0x3000
  }

  /** strings.Join(relays, "\n") */
  function Join(relays: seq<string>): string {
    if |relays| == 0 then ""
    else if |relays| == 1 then relays[0]
    else relays[0] + "\n" + Join(relays[1..])
  }

  /** strings.Split(s, "\n") */
  function Split(s: string): (lines: seq<string>)
    ensures |lines| > 0
  {
    if s == "" then [""]
    else
      var rest := Split(s[1..]);
      if s[0] == '\n' then [""] + rest
      else [[s[0]] + rest[0]] + rest[1..]
  }

  function TrimLeft(s: string): (t: string)
    ensures t != "" ==> !IsSpace(t[0])
  {
    if s != "" && IsSpace(s[0]) then TrimLeft(s[1..]) else s
  }

  function TrimRight(s: string): (t: string)
    ensures t <= s
    ensures t != "" ==> !IsSpace(t[|t| - 1])
  {
    if s != "" && IsSpace(s[|s| - 1]) then TrimRight(s[..|s| - 1]) else s
  }

  /** strings.TrimSpace(s) */
  function TrimSpace(s: string): string {
    TrimRight(TrimLeft(s))
  }

  /** The relay set that load rebuilds from the stored text. */
  function ParseRelays(stored: string): set<Relay> {
    set line | line in Split(stored) && TrimSpace(line) != "" :: TrimSpace(line)
  }

  /** A name that survives storage: non-empty, no newline, no leading or trailing space. */
  predicate Clean(r: Relay) {
    r != "" && '\n' !in r && !IsSpace(r[0]) && !IsSpace(r[|r| - 1])
  }

  function Names(relays: seq<string>): set<Relay> {
    set r | r in relays
  }

  lemma {:induction false} SplitLinesHaveNoNewline(s: string)
    ensures forall line :: line in Split(s) ==> '\n' !in line
  {
    if s != "" {
      SplitLinesHaveNoNewline(s[1..]);
      var rest := Split(s[1..]);
      assert rest[0] in rest;
      assert forall line :: line in rest[1..] ==> line in rest;
    }
  }

  lemma {:induction false} SplitWithoutNewline(s: string)
    requires '\n' !in s
    ensures Split(s) == [s]
  {
    if s != "" {
      SplitWithoutNewline(s[1..]);
      assert s == [s[0]] + s[1..];
    }
  }

  lemma {:induction false} SplitAtNewline(a: string, b: string)
    requires '\n' !in a
    ensures Split(a + "\n" + b) == [a] + Split(b)
  {
    var s := a + "\n" + b;
    if a == "" {
      assert s[1..] == b;
    } else {
      SplitAtNewline(a[1..], b);
      assert s[1..] == a[1..] + "\n" + b;
      assert a == [a[0]] + a[1..];
    }
  }

  lemma {:induction false} SplitUndoesJoin(relays: seq<string>)
    requires |relays| > 0
    requires forall r :: r in relays ==> '\n' !in r
    ensures Split(Join(relays)) == relays
  {
    if |relays| == 1 {
      SplitWithoutNewline(relays[0]);
    } else {
      assert forall r :: r in relays[1..] ==> r in relays;
      SplitUndoesJoin(relays[1..]);
      SplitAtNewline(relays[0], Join(relays[1..]));
    }
  }

  lemma TrimKeepsClean(r: Relay)
    requires Clean(r)
    ensures TrimSpace(r) == r
  {
    assert TrimLeft(r) == r;
  }

  lemma {:induction false} TrimLeftIsSuffix(s: string)
    ensures |TrimLeft(s)| <= |s| && TrimLeft(s) == s[|s| - |TrimLeft(s)|..]
  {
    if s != "" && IsSpace(s[0]) { TrimLeftIsSuffix(s[1..]); }
  }

  lemma TrimmedLineIsClean(line: string)
    requires '\n' !in line && TrimSpace(line) != ""
    ensures Clean(TrimSpace(line))
  {
    var left := TrimLeft(line);
    TrimLeftIsSuffix(line);
    assert forall c :: c in left ==> c in line;
    var t := TrimRight(left);
    assert t <= left;
    assert forall i :: 0 <= i < |t| ==> t[i] == left[i];
  }

  /** Every name that load produces is clean, whatever text the row holds. */
  lemma ParsedNamesAreClean(stored: string)
    ensures forall r :: r in ParseRelays(stored) ==> Clean(r)
  {
    SplitLinesHaveNoNewline(stored);
    forall r | r in ParseRelays(stored) ensures Clean(r) {
      var line :| line in Split(stored) && TrimSpace(line) != "" && r == TrimSpace(line);
      TrimmedLineIsClean(line);
    }
  }

  /** A relay list comes back from its row unchanged exactly when every name in it is clean:
      one unclean name is always lost or altered by the round trip. */
  lemma RelaysRoundTrip(relays: seq<string>)
    requires |relays| > 0
    ensures ParseRelays(Join(relays)) == Names(relays) <==> forall r :: r in relays ==> Clean(r)
  {
    ParsedNamesAreClean(Join(relays));
    if forall r :: r in relays ==> Clean(r) {
      SplitUndoesJoin(relays);
      forall r | r in relays ensures TrimSpace(r) == r { TrimKeepsClean(r); }
    } else {
      var r :| r in relays && !Clean(r);
      assert r in Names(relays);
    }
  }

  // ----- blank names -----

  /** The 25 characters with the Unicode property White_Space. */
  const WHITE_SPACE := "\t\n\U{B}\U{C}\r \U{85}\U{A0}\U{1680}\U{2000}\U{2001}\U{2002}\U{2003}\U{2004}\U{2005}" +
    "\U{2006}\U{2007}\U{2008}\U{2009}\U{200A}\U{2028}\U{2029}\U{202F}\U{205F}\U{3000}"

  lemma SpacesAreWhiteSpace(c: char)
    ensures IsSpace(c) <==> c in WHITE_SPACE
  {
  }

  /** Nothing but white space. */
  predicate IsBlank(s: string) {
    forall i :: 0 <= i < |s| ==> IsSpace(s[i])
  }

  lemma {:induction false} TrimLeftIsBlank(s: string)
    ensures TrimLeft(s) == "" <==> IsBlank(s)
  {
    if s != "" && IsSpace(s[0]) {
      TrimLeftIsBlank(s[1..]);
      BlankParts([s[0]], s[1..]);
      assert s == [s[0]] + s[1..];
    }
  }

  lemma {:induction false} TrimRightIsBlank(s: string)
    ensures TrimRight(s) == "" <==> IsBlank(s)
  {
    if s != "" && IsSpace(s[|s| - 1]) {
      TrimRightIsBlank(s[..|s| - 1]);
      BlankParts(s[..|s| - 1], [s[|s| - 1]]);
      assert s == s[..|s| - 1] + [s[|s| - 1]];
    }
  }

  lemma TrimsToNothing(s: string)
    ensures TrimSpace(s) == "" <==> IsBlank(s)
  {
    TrimLeftIsBlank(s);
    TrimRightIsBlank(TrimLeft(s));
    assert TrimLeft(s) != "" ==> !IsSpace(TrimLeft(s)[0]);
  }

  lemma BlankParts(a: string, b: string)
    ensures IsBlank(a + b) <==> IsBlank(a) && IsBlank(b)
  {
    assert forall i :: 0 <= i < |a| ==> (a + b)[i] == a[i];
    assert forall i :: 0 <= i < |b| ==> (a + b)[|a| + i] == b[i];
  }

  predicate AllBlank(lines: seq<string>) {
    forall line :: line in lines ==> IsBlank(line)
  }

  lemma AllBlankCons(line: string, lines: seq<string>)
    ensures AllBlank([line] + lines) <==> IsBlank(line) && AllBlank(lines)
  {
    assert line in [line] + lines;
    assert forall x :: x in lines ==> x in [line] + lines;
  }

  /** A newline is white space, so splitting does not change what is blank. */
  lemma {:induction false} SplitIsBlank(s: string)
    ensures AllBlank(Split(s)) <==> IsBlank(s)
  {
    if s != "" {
      var c, rest := s[0], Split(s[1..]);
      SplitIsBlank(s[1..]);
      assert s == [c] + s[1..] && rest == [rest[0]] + rest[1..];
      BlankParts([c], s[1..]);
      AllBlankCons(rest[0], rest[1..]);
      if c == '\n' {
        AllBlankCons("", rest);
      } else {
        BlankParts([c], rest[0]);
        AllBlankCons([c] + rest[0], rest[1..]);
      }
    }
  }

  lemma {:induction false} JoinIsBlank(relays: seq<string>)
    ensures IsBlank(Join(relays)) <==> AllBlank(relays)
  {
    if relays != [] {
      assert relays == [relays[0]] + relays[1..];
      AllBlankCons(relays[0], relays[1..]);
      JoinIsBlank(relays[1..]);
      if |relays| > 1 {
        BlankParts(relays[0] + "\n", Join(relays[1..]));
        BlankParts(relays[0], "\n");
      }
    }
  }

  /** A stored list comes back empty exactly when each of its names is nothing but white space. */
  lemma OnlyBlankNamesVanish(relays: seq<string>)
    ensures ParseRelays(Join(relays)) == {} <==> AllBlank(relays)
  {
    var stored := Join(relays);
    JoinIsBlank(relays);
    SplitIsBlank(stored);
    forall line | line in Split(stored) ensures TrimSpace(line) == "" <==> IsBlank(line) {
      TrimsToNothing(line);
    }
    if !AllBlank(Split(stored)) {
      var line :| line in Split(stored) && !IsBlank(line);
      assert TrimSpace(line) in ParseRelays(stored);
    }
  }
}
