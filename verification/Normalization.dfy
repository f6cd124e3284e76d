/** Structure-preserving text normalisation: one fragment, and a document of ordered sections. */
module Normalization {
  import opened CodePoints
  import opened Sequences

  // ---------------------------------------------------------------- one fragment

  function RemoveMark(text: Text): Text {
    if text != [] && text[0] == BYTE_ORDER_MARK then text[1..] else text
  }

  /** Carriage returns, alone or before a line feed, become line feeds. */
  function UnifyNewlines(text: Text): Text {
    if text == [] then []
    else if text[0] != CARRIAGE_RETURN then [text[0]] + UnifyNewlines(text[1..])
    else if |text| > 1 && text[1] == NEWLINE then [NEWLINE] + UnifyNewlines(text[2..])
    else [NEWLINE] + UnifyNewlines(text[1..])
  }

  function SanitizeCharacter(c: int): int {
    if c == NEWLINE || c == TAB then c
    else if IsControl(c) then SPACE
    else if IsSurrogate(c) then REPLACEMENT
    else c
  }

  function Sanitize(text: Text): Text {
    seq(|text|, i requires 0 <= i < |text| => SanitizeCharacter(text[i]))
  }

  /** `text.split("\n")`. */
  function Split(text: Text): (lines: seq<Text>)
    ensures lines != []
  {
    if text == [] then [[]]
    else
      var rest := Split(text[1..]);
      if text[0] == NEWLINE then [[]] + rest else [[text[0]] + rest[0]] + rest[1..]
  }

  /** `"\n".join(lines)`. */
  function Join(lines: seq<Text>): Text {
    if lines == [] then []
    else if |lines| == 1 then lines[0]
    else lines[0] + [NEWLINE] + Join(lines[1..])
  }

  function TrimRight(line: Text): (r: Text)
    ensures r == [] || !IsBlank(r[|r| - 1])
    ensures r <= line
    ensures line == [] || !IsBlank(line[|line| - 1]) ==> r == line
  {
    if line != [] && IsBlank(line[|line| - 1]) then TrimRight(line[..|line| - 1]) else line
  }

  function TrimLeft(line: Text): (r: Text)
    ensures r == [] || !IsBlank(r[0])
    ensures line == [] || !IsBlank(line[0]) ==> r == line
  {
    if line != [] && IsBlank(line[0]) then TrimLeft(line[1..]) else line
  }

  /** Output lines and the pending-blank flag after one more input line. */
  function AddLine(out: seq<Text>, pending: bool, raw: Text): (seq<Text>, bool) {
    var line := TrimRight(raw);
    if TrimLeft(line) == [] then (out, pending || out != [])
    else if pending then (out + [[], line], false)
    else (out + [line], false)
  }

  function Collapse(lines: seq<Text>): (seq<Text>, bool) {
    if lines == [] then ([], false)
    else
      var last := |lines| - 1;
      var (out, pending) := Collapse(lines[..last]);
      AddLine(out, pending, lines[last])
  }

  function Prepared(text: Text): Text {
    Sanitize(UnifyNewlines(RemoveMark(text)))
  }

  function NormalizeFragment(text: Text): Text {
    TrimRight(TrimLeft(Join(Collapse(Split(Prepared(text))).0)))
  }

  method Normalized(text: Text) returns (normalized: Text)
    ensures normalized == NormalizeFragment(text)
  {
    var lines := Split(Prepared(text));
    var outputLines: seq<Text> := [];
    var blankPending := false;
    for i := 0 to |lines|
      invariant (outputLines, blankPending) == Collapse(lines[..i])
    {
      assert lines[..i + 1][..i] == lines[..i];
      assert Collapse(lines[..i + 1]) == AddLine(outputLines, blankPending, lines[i]);
      var line := TrimRight(lines[i]);
      if TrimLeft(line) == [] {
        if outputLines != [] {
          blankPending := true;
        }
        continue;
      }
      assert outputLines + [[], line] == outputLines + [[]] + [line];
      if blankPending {
        outputLines := outputLines + [[]];
        blankPending := false;
      }
      outputLines := outputLines + [line];
    }
    assert lines[..|lines|] == lines;
    normalized := TrimRight(TrimLeft(Join(outputLines)));
  }

  // ---------------------------------------------------------------- normal form

  predicate CleanCharacter(c: int) {
    c == NEWLINE || c == TAB || (!IsControl(c) && !IsSurrogate(c))
  }

  /** A line ends at `i` with a space or tab before it. */
  predicate BlankLineEnd(text: Text, i: nat)
    requires 0 < i < |text|
  {
    text[i] == NEWLINE && IsBlank(text[i - 1])
  }

  predicate TripleNewline(text: Text, i: nat)
    requires 1 < i < |text|
  {
    text[i - 2] == NEWLINE && text[i - 1] == NEWLINE && text[i] == NEWLINE
  }

  predicate EmptyPair(lines: seq<Text>, i: nat)
    requires 0 < i < |lines|
  {
    lines[i - 1] == [] && lines[i] == []
  }

  /** What callers may rely on, said about characters only. */
  ghost predicate NormalForm(text: Text) {
    && (forall c <- text :: CleanCharacter(c))
    && (forall i {:trigger BlankLineEnd(text, i)} :: 0 < i < |text| ==> !BlankLineEnd(text, i))
    && (forall i {:trigger TripleNewline(text, i)} :: 1 < i < |text| ==> !TripleNewline(text, i))
    && (text != [] ==> IsInk(text[0]) && IsInk(text[|text| - 1]))
  }

  predicate IsInk(c: int) {
    c != NEWLINE && !IsBlank(c)
  }

  /** The same thing said about lines. */
  ghost predicate CleanLine(line: Text) {
    && (forall c <- line :: CleanCharacter(c) && c != NEWLINE)
    && (line != [] ==> !IsBlank(line[|line| - 1]))
  }

  ghost predicate CleanLines(lines: seq<Text>) {
    && (forall line <- lines :: CleanLine(line))
    && (forall i {:trigger EmptyPair(lines, i)} :: 0 < i < |lines| ==> !EmptyPair(lines, i))
    && (lines != [] ==> lines[0] != [] && lines[|lines| - 1] != [])
  }

  // ---------------------------------------------------------------- every result is in normal form

  lemma {:induction false} SplitCharacters(text: Text)
    ensures forall line <- Split(text), c <- line :: c in text && c != NEWLINE
  {
    if text != [] {
      SplitCharacters(text[1..]);
    }
  }

  lemma {:induction false} PreparedIsClean(text: Text)
    ensures forall c <- Prepared(text) :: CleanCharacter(c)
  {
  }

  lemma {:induction false} TrimmedLine(raw: Text)
    requires forall c <- raw :: CleanCharacter(c) && c != NEWLINE
    ensures CleanLine(TrimRight(raw))
    ensures TrimLeft(TrimRight(raw)) == [] <==> TrimRight(raw) == []
  {
    TrimLeftKeepsLast(TrimRight(raw));
  }

  lemma {:induction false} TrimLeftKeepsLast(line: Text)
    requires line != [] ==> !IsBlank(line[|line| - 1])
    ensures line != [] ==> TrimLeft(line) != [] && TrimLeft(line)[|TrimLeft(line)| - 1] == line[|line| - 1]
    ensures forall c <- TrimLeft(line) :: c in line
  {
    if line != [] && IsBlank(line[0]) {
      TrimLeftKeepsLast(line[1..]);
    }
  }

  lemma {:induction false} CollapseIsClean(lines: seq<Text>)
    requires forall line <- lines, c <- line :: CleanCharacter(c) && c != NEWLINE
    ensures CleanLines(Collapse(lines).0)
    ensures Collapse(lines).1 ==> Collapse(lines).0 != []
  {
    if lines != [] {
      var last := |lines| - 1;
      CollapseIsClean(lines[..last]);
      assert lines[last] in lines;
      TrimmedLine(lines[last]);
      var before, after := Collapse(lines[..last]).0, Collapse(lines).0;
      forall i | 0 < i < |after|
        ensures !EmptyPair(after, i)
      {
        assert i < |before| ==> !EmptyPair(before, i);
      }
    }
  }

  /** What the join of a non-empty suffix of clean lines looks like. */
  ghost predicate CleanJoin(lines: seq<Text>, text: Text)
    requires lines != []
  {
    && text != [] && IsInk(text[|text| - 1])
    && (forall c <- text :: CleanCharacter(c))
    && (forall i {:trigger BlankLineEnd(text, i)} :: 0 < i < |text| ==> !BlankLineEnd(text, i))
    && (forall i {:trigger TripleNewline(text, i)} :: 1 < i < |text| ==> !TripleNewline(text, i))
    && (if lines[0] == [] then text[0] == NEWLINE && |text| > 1 && text[1] != NEWLINE else text[0] == lines[0][0])
  }

  lemma {:induction false} JoinIsClean(lines: seq<Text>)
    requires lines != [] && lines[|lines| - 1] != []
    requires forall line <- lines :: CleanLine(line)
    requires forall i {:trigger EmptyPair(lines, i)} :: 0 < i < |lines| ==> !EmptyPair(lines, i)
    ensures CleanJoin(lines, Join(lines))
  {
    assert CleanLine(lines[0]);
    if |lines| == 1 {
      assert forall i :: 0 <= i < |lines[0]| ==> lines[0][i] in lines[0];
    } else {
      var head, rest := lines[0], lines[1..];
      forall i | 0 < i < |rest|
        ensures !EmptyPair(rest, i)
      {
        assert !EmptyPair(lines, i + 1);
      }
      assert !EmptyPair(lines, 1);
      JoinIsClean(rest);
      ConsJoin(head, rest, Join(rest));
    }
  }

  lemma {:induction false} ConsJoin(head: Text, rest: seq<Text>, tail: Text)
    requires CleanLine(head) && rest != [] && !(head == [] && rest[0] == []) && CleanLine(rest[0])
      && CleanJoin(rest, tail)
    ensures CleanJoin([head] + rest, head + [NEWLINE] + tail)
  {
    var text, n := head + [NEWLINE] + tail, |head|;
    assert forall i :: 0 <= i < n ==> text[i] == head[i] && head[i] in head;
    assert text[n] == NEWLINE;
    assert forall i :: n < i < |text| ==> text[i] == tail[i - n - 1];
    assert rest[0] != [] ==> rest[0][0] in rest[0];
    forall c | c in text
      ensures CleanCharacter(c)
    {
      assert c in head || c == NEWLINE || c in tail;
    }
    forall i | 1 < i < |text|
      ensures !TripleNewline(text, i)
    {
      assert i > n + 2 ==> !TripleNewline(tail, i - n - 1);
    }
    forall i | 0 < i < |text|
      ensures !BlankLineEnd(text, i)
    {
      assert i > n + 1 ==> !BlankLineEnd(tail, i - n - 1);
    }
  }

  lemma {:induction false} TrimLeftJoin(lines: seq<Text>)
    requires lines != [] && TrimLeft(lines[0]) != []
    ensures TrimLeft(Join(lines)) == Join([TrimLeft(lines[0])] + lines[1..])
    decreases |lines[0]|
  {
    if IsBlank(lines[0][0]) {
      var shorter := [lines[0][1..]] + lines[1..];
      TrimLeftJoin(shorter);
      assert Join(lines)[1..] == Join(shorter);
      assert [TrimLeft(shorter[0])] + shorter[1..] == [TrimLeft(lines[0])] + lines[1..];
    } else {
      assert [TrimLeft(lines[0])] + lines[1..] == lines;
    }
  }

  /** Every normalised fragment is in normal form. */
  lemma {:induction false} ResultIsNormal(text: Text)
    ensures NormalForm(NormalizeFragment(text))
  {
    var lines := Split(Prepared(text));
    SplitCharacters(Prepared(text));
    PreparedIsClean(text);
    CollapseIsClean(lines);
    var out := Collapse(lines).0;
    if out != [] {
      TrimmedIsNormal(out);
    }
  }

  lemma {:induction false} TrimmedIsNormal(out: seq<Text>)
    requires CleanLines(out) && out != []
    ensures NormalForm(TrimRight(TrimLeft(Join(out))))
  {
    assert CleanLine(out[0]);
    TrimLeftKeepsLast(out[0]);
    var trimmed := [TrimLeft(out[0])] + out[1..];
    TrimLeftJoin(out);
    assert CleanLine(trimmed[0]);
    forall i | 0 < i < |trimmed|
      ensures !EmptyPair(trimmed, i) && CleanLine(trimmed[i])
    {
      assert !EmptyPair(out, i) && CleanLine(out[i]);
    }
    JoinIsClean(trimmed);
    assert trimmed[0][0] in trimmed[0];
  }

  // ---------------------------------------------------------------- the fixed points

  lemma {:induction false} UnifyIsIdentity(text: Text)
    requires CARRIAGE_RETURN !in text
    ensures UnifyNewlines(text) == text
  {
    if text != [] {
      UnifyIsIdentity(text[1..]);
    }
  }

  lemma {:induction false} JoinSplit(text: Text)
    ensures Join(Split(text)) == text
  {
    if text != [] {
      var rest := Split(text[1..]);
      JoinSplit(text[1..]);
      if text[0] == NEWLINE {
        assert ([[]] + rest)[1..] == rest;
      } else {
        assert ([[text[0]] + rest[0]] + rest[1..])[1..] == rest[1..];
      }
    }
  }

  /** The conditions of the normal form that a suffix inherits. */
  ghost predicate NormalSuffix(text: Text) {
    && (forall c <- text :: CleanCharacter(c))
    && (forall i {:trigger BlankLineEnd(text, i)} :: 0 < i < |text| ==> !BlankLineEnd(text, i))
    && (forall i {:trigger TripleNewline(text, i)} :: 1 < i < |text| ==> !TripleNewline(text, i))
    && (text != [] ==> IsInk(text[|text| - 1]))
  }

  lemma {:induction false} TailIsNormal(text: Text)
    requires NormalSuffix(text) && text != []
    ensures NormalSuffix(text[1..])
  {
    var tail := text[1..];
    forall i | 1 < i < |tail|
      ensures !TripleNewline(tail, i)
    {
      assert !TripleNewline(text, i + 1);
    }
    forall i | 0 < i < |tail|
      ensures !BlankLineEnd(tail, i)
    {
      assert !BlankLineEnd(text, i + 1);
    }
  }

  /** What splitting a normal suffix gives. */
  ghost predicate CleanSplit(text: Text, lines: seq<Text>) {
    && lines != [] && (forall line <- lines :: CleanLine(line))
    && (lines[0] == [] <==> text == [] || text[0] == NEWLINE)
    && (|lines| > 1 && lines[0] == [] && lines[1] == [] ==> |text| > 1 && text[0] == NEWLINE && text[1] == NEWLINE)
    && (forall i {:trigger EmptyPair(lines, i)} :: 1 < i < |lines| ==> !EmptyPair(lines, i))
    && (if text == [] then lines == [[]] else lines[|lines| - 1] != [])
  }

  lemma {:induction false} NewlineIsClean(text: Text, rest: seq<Text>)
    requires text != [] && text[0] == NEWLINE && NormalSuffix(text) && CleanSplit(text[1..], rest)
    ensures CleanSplit(text, [[]] + rest)
  {
    var lines := [[]] + rest;
    assert |text| > 2 ==> !TripleNewline(text, 2);
    forall i | 1 < i < |lines|
      ensures !EmptyPair(lines, i)
    {
      assert i > 2 ==> !EmptyPair(rest, i - 1);
    }
  }

  lemma {:induction false} CharacterIsClean(text: Text, rest: seq<Text>)
    requires text != [] && text[0] != NEWLINE && NormalSuffix(text) && CleanSplit(text[1..], rest)
    ensures CleanSplit(text, [[text[0]] + rest[0]] + rest[1..])
  {
    var first := [text[0]] + rest[0];
    var lines := [first] + rest[1..];
    assert text[0] in text;
    assert |text| > 1 ==> !BlankLineEnd(text, 1);
    assert CleanLine(rest[0]);
    assert CleanLine(first);
    assert forall line <- lines :: line == first || line in rest;
    forall i | 1 < i < |lines|
      ensures !EmptyPair(lines, i)
    {
      assert !EmptyPair(rest, i);
    }
  }

  lemma {:induction false} SplitIsClean(text: Text)
    requires NormalSuffix(text)
    ensures CleanSplit(text, Split(text))
  {
    if text != [] {
      TailIsNormal(text);
      SplitIsClean(text[1..]);
      if text[0] == NEWLINE {
        NewlineIsClean(text, Split(text[1..]));
      } else {
        CharacterIsClean(text, Split(text[1..]));
      }
    }
  }

  lemma {:induction false} AddCleanLine(out: seq<Text>, pending: bool, line: Text)
    requires CleanLine(line)
    ensures AddLine(out, pending, line) ==
      if line == [] then (out, pending || out != [])
      else if pending then (out + [[], line], false)
      else (out + [line], false)
  {
    TrimLeftKeepsLast(line);
  }

  lemma {:induction false} SnocTwo(lines: seq<Text>, n: nat)
    requires 1 < n <= |lines| && lines[n - 2] == []
    ensures lines[..n] == lines[..n - 2] + [[], lines[n - 1]]
  {
  }

  lemma {:induction false} CollapseKeeps(lines: seq<Text>, n: nat)
    requires CleanLines(lines) && n <= |lines|
    ensures Collapse(lines[..n]) == if n > 0 && lines[n - 1] == [] then (lines[..n - 1], true) else (lines[..n], false)
  {
    if n > 0 {
      CollapseKeeps(lines, n - 1);
      Snoc(lines, n);
      assert CleanLine(lines[n - 1]);
      assert n > 1 ==> !EmptyPair(lines, n - 1);
      var (out, pending) := Collapse(lines[..n - 1]);
      AddCleanLine(out, pending, lines[n - 1]);
      if n > 1 && lines[n - 2] == [] {
        SnocTwo(lines, n);
      }
    }
  }

  lemma {:induction false} NormalIsPrepared(text: Text)
    requires NormalForm(text) && RemoveMark(text) == text
    ensures Prepared(text) == text
  {
    assert CARRIAGE_RETURN !in text;
    UnifyIsIdentity(text);
    forall i | 0 <= i < |text|
      ensures SanitizeCharacter(text[i]) == text[i]
    {
      assert CleanCharacter(text[i]);
    }
    assert Sanitize(text) == text;
  }

  lemma {:induction false} NormalLines(text: Text)
    requires NormalForm(text) && text != []
    ensures CleanLines(Split(text))
  {
    var lines := Split(text);
    SplitIsClean(text);
    forall i | 0 < i < |lines|
      ensures !EmptyPair(lines, i)
    {
      assert i > 1 ==> !EmptyPair(lines, i);
    }
  }

  lemma {:induction false} NormalCollapse(text: Text)
    requires NormalForm(text)
    ensures Join(Collapse(Split(text)).0) == text
  {
    var lines := Split(text);
    if text == [] {
      assert lines == [[]] && lines[..0] == [];
    } else {
      NormalLines(text);
      CollapseKeeps(lines, |lines|);
      assert lines[..|lines|] == lines;
      JoinSplit(text);
    }
  }

  lemma {:induction false} NormalIsFixed(text: Text)
    requires NormalForm(text) && RemoveMark(text) == text
    ensures NormalizeFragment(text) == text
  {
    NormalIsPrepared(text);
    NormalCollapse(text);
  }

  // Normalisation never lengthens a text: weigh each line with its terminator.

  function Weight(lines: seq<Text>): nat {
    if lines == [] then 0 else Weight(lines[..|lines| - 1]) + |lines[|lines| - 1]| + 1
  }

  lemma {:induction false} WeightCons(line: Text, rest: seq<Text>)
    ensures Weight([line] + rest) == |line| + 1 + Weight(rest)
  {
    var lines := [line] + rest;
    if rest == [] {
      assert lines[..0] == [];
    } else {
      assert lines[..|lines| - 1] == [line] + rest[..|rest| - 1];
      WeightCons(line, rest[..|rest| - 1]);
    }
  }

  lemma {:induction false} JoinWeight(lines: seq<Text>)
    ensures lines != [] ==> |Join(lines)| + 1 == Weight(lines)
  {
    if lines != [] {
      JoinWeight(lines[1..]);
      WeightCons(lines[0], lines[1..]);
      assert lines == [lines[0]] + lines[1..];
    }
  }

  lemma {:induction false} WeightSnoc(lines: seq<Text>, line: Text)
    ensures Weight(lines + [line]) == Weight(lines) + |line| + 1
  {
    assert (lines + [line])[..|lines|] == lines;
  }

  lemma {:induction false} CollapseWeight(lines: seq<Text>)
    ensures Weight(Collapse(lines).0) + (if Collapse(lines).1 then 1 else 0) <= Weight(lines)
  {
    if lines != [] {
      var last := |lines| - 1;
      CollapseWeight(lines[..last]);
      var out, line := Collapse(lines[..last]).0, TrimRight(lines[last]);
      WeightSnoc(out, line);
      WeightSnoc(out, []);
      WeightSnoc(out + [[]], line);
      assert out + [[], line] == out + [[]] + [line];
    }
  }

  lemma {:induction false} UnifyLength(text: Text)
    ensures |UnifyNewlines(text)| <= |text|
    decreases |text|
  {
    if text != [] {
      UnifyLength(text[1..]);
      if |text| > 1 {
        UnifyLength(text[2..]);
      }
    }
  }

  lemma {:induction false} TrimLeftLength(line: Text)
    ensures |TrimLeft(line)| <= |line|
  {
    if line != [] {
      TrimLeftLength(line[1..]);
    }
  }

  lemma {:induction false} NeverLonger(text: Text)
    ensures |NormalizeFragment(text)| <= |RemoveMark(text)|
  {
    var prepared := Prepared(text);
    var out := Collapse(Split(prepared)).0;
    UnifyLength(RemoveMark(text));
    JoinSplit(prepared);
    JoinWeight(Split(prepared));
    CollapseWeight(Split(prepared));
    JoinWeight(out);
    TrimLeftLength(Join(out));
  }

  /** The fixed points of normalisation are exactly the normal forms that do not begin with a byte-order mark. */
  lemma {:induction false} FixedPoints(text: Text)
    ensures NormalizeFragment(text) == text <==> NormalForm(text) && !(text != [] && text[0] == BYTE_ORDER_MARK)
  {
    ResultIsNormal(text);
    NeverLonger(text);
    if NormalForm(text) && RemoveMark(text) == text {
      NormalIsFixed(text);
    }
  }

  // ---------------------------------------------------------------- what is never lost

  /** The characters that are neither blank nor newline, in order. */
  function Ink(text: Text): Text {
    if text == [] then [] else (if IsInk(text[0]) then [text[0]] else []) + Ink(text[1..])
  }

  /** The characters that are neither control characters nor spaces, in order. */
  function Visible(text: Text): Text {
    if text == [] then []
    else (if IsControl(text[0]) || text[0] == SPACE then [] else [text[0]]) + Visible(text[1..])
  }

  function InkOfLines(lines: seq<Text>): Text {
    if lines == [] then [] else InkOfLines(lines[..|lines| - 1]) + Ink(lines[|lines| - 1])
  }

  lemma {:induction false} InkConcat(a: Text, b: Text)
    ensures Ink(a + b) == Ink(a) + Ink(b)
  {
    if a == [] {
      assert a + b == b;
    } else {
      assert (a + b)[1..] == a[1..] + b;
      InkConcat(a[1..], b);
      Regroup(if IsInk(a[0]) then [a[0]] else [], Ink(a[1..]), Ink(b));
    }
  }

  lemma {:induction false} InkOfOne(c: int)
    ensures Ink([c]) == if IsInk(c) then [c] else []
  {
    assert [c][1..] == [];
  }

  lemma {:induction false} InkTrimRight(line: Text)
    ensures Ink(TrimRight(line)) == Ink(line)
  {
    if line != [] && IsBlank(line[|line| - 1]) {
      var front := line[..|line| - 1];
      InkTrimRight(front);
      InkConcat(front, [line[|line| - 1]]);
      InkOfOne(line[|line| - 1]);
      assert line == front + [line[|line| - 1]];
    }
  }

  lemma {:induction false} InkTrimLeft(line: Text)
    ensures Ink(TrimLeft(line)) == Ink(line)
  {
    if line != [] && IsBlank(line[0]) {
      InkTrimLeft(line[1..]);
    }
  }

  lemma {:induction false} InkOfLinesCons(line: Text, rest: seq<Text>)
    ensures InkOfLines([line] + rest) == Ink(line) + InkOfLines(rest)
  {
    var lines := [line] + rest;
    if rest == [] {
      assert lines[..0] == [];
    } else {
      assert lines[..|lines| - 1] == [line] + rest[..|rest| - 1];
      InkOfLinesCons(line, rest[..|rest| - 1]);
      Regroup(Ink(line), InkOfLines(rest[..|rest| - 1]), Ink(rest[|rest| - 1]));
    }
  }

  lemma {:induction false} InkOfLinesSnoc(lines: seq<Text>, line: Text)
    ensures InkOfLines(lines + [line]) == InkOfLines(lines) + Ink(line)
  {
    assert (lines + [line])[..|lines|] == lines;
  }

  lemma {:induction false} InkOfJoin(lines: seq<Text>)
    ensures Ink(Join(lines)) == InkOfLines(lines)
  {
    if lines != [] {
      var rest := lines[1..];
      InkOfJoin(rest);
      InkOfLinesCons(lines[0], rest);
      assert lines == [lines[0]] + rest;
      if rest != [] {
        InkConcat(lines[0] + [NEWLINE], Join(rest));
        InkConcat(lines[0], [NEWLINE]);
        InkOfOne(NEWLINE);
      }
    }
  }

  lemma {:induction false} InkOfLinesTwo(lines: seq<Text>, line: Text)
    ensures InkOfLines(lines + [[], line]) == InkOfLines(lines) + Ink(line)
  {
    InkOfLinesSnoc(lines, []);
    InkOfLinesSnoc(lines + [[]], line);
    assert lines + [[], line] == lines + [[]] + [line];
    assert InkOfLines(lines) + Ink([]) == InkOfLines(lines);
  }

  lemma {:induction false} BlankHasNoInk(raw: Text)
    requires TrimLeft(TrimRight(raw)) == []
    ensures Ink(raw) == []
  {
    InkTrimRight(raw);
    InkTrimLeft(TrimRight(raw));
  }

  lemma {:induction false} AddLineInk(out: seq<Text>, pending: bool, raw: Text)
    ensures InkOfLines(AddLine(out, pending, raw).0) == InkOfLines(out) + Ink(raw)
  {
    var line := TrimRight(raw);
    if TrimLeft(line) == [] {
      BlankHasNoInk(raw);
      assert InkOfLines(out) + [] == InkOfLines(out);
    } else {
      InkTrimRight(raw);
      InkOfLinesTwo(out, line);
      InkOfLinesSnoc(out, line);
    }
  }

  lemma {:induction false} CollapseKeepsInk(lines: seq<Text>)
    ensures InkOfLines(Collapse(lines).0) == InkOfLines(lines)
  {
    if lines != [] {
      var last := |lines| - 1;
      CollapseKeepsInk(lines[..last]);
      AddLineInk(Collapse(lines[..last]).0, Collapse(lines[..last]).1, lines[last]);
    }
  }

  lemma {:induction false} SanitizeCons(c: int, rest: Text)
    ensures Sanitize([c] + rest) == [SanitizeCharacter(c)] + Sanitize(rest)
  {
  }

  lemma {:induction false} PreparedInk(text: Text)
    ensures Ink(Sanitize(UnifyNewlines(text))) == Sanitize(Visible(text))
    decreases |text|
  {
    if text != [] {
      var c := text[0];
      var merged := c == CARRIAGE_RETURN && |text| > 1 && text[1] == NEWLINE;
      var rest := if merged then text[2..] else text[1..];
      var first := if c == CARRIAGE_RETURN then NEWLINE else c;
      PreparedInk(rest);
      assert UnifyNewlines(text) == [first] + UnifyNewlines(rest);
      SanitizeCons(first, UnifyNewlines(rest));
      InkConcat([SanitizeCharacter(first)], Sanitize(UnifyNewlines(rest)));
      InkOfOne(SanitizeCharacter(first));
      SanitizeCons(c, Visible(rest));
      if merged {
        assert text[1..][1..] == rest;
        assert Visible(text[1..]) == [] + Visible(rest);
      }
      assert Visible(text) == (if IsControl(c) || c == SPACE then [] else [c]) + Visible(rest);
    }
  }

  /** Apart from one leading byte-order mark, normalisation keeps every character that is neither a control
      character nor a space, in order; surrogates are replaced, and nothing else visible is added. */
  lemma {:induction false} VisibleTextIsKept(text: Text)
    ensures Ink(NormalizeFragment(text)) == Sanitize(Visible(RemoveMark(text)))
  {
    var prepared := Prepared(text);
    var out := Collapse(Split(prepared)).0;
    InkTrimRight(TrimLeft(Join(out)));
    InkTrimLeft(Join(out));
    InkOfJoin(out);
    CollapseKeepsInk(Split(prepared));
    InkOfJoin(Split(prepared));
    JoinSplit(prepared);
    PreparedInk(RemoveMark(text));
  }

  // ---------------------------------------------------------------- the second pass

  /** Behind at most one leading byte-order mark, the first visible character is another one. */
  predicate MarkBehindMark(text: Text) {
    var visible := Visible(RemoveMark(text));
    visible != [] && visible[0] == BYTE_ORDER_MARK
  }

  lemma {:induction false} VisibleIsNoControl(text: Text)
    ensures forall c <- Visible(text) :: !IsControl(c)
  {
    if text != [] {
      VisibleIsNoControl(text[1..]);
    }
  }

  /** Normalising twice is normalising once exactly when the text does not hide a second byte-order mark behind
      the first: each pass strips one. */
  lemma {:induction false} NormalizeTwice(text: Text)
    ensures NormalizeFragment(NormalizeFragment(text)) == NormalizeFragment(text) <==> !MarkBehindMark(text)
  {
    var once := NormalizeFragment(text);
    ResultIsNormal(text);
    FixedPoints(once);
    VisibleTextIsKept(text);
    var visible := Visible(RemoveMark(text));
    assert once != [] ==> Ink(once)[0] == once[0];
    assert visible != [] ==> Sanitize(visible)[0] == SanitizeCharacter(visible[0]);
    VisibleIsNoControl(RemoveMark(text));
  }

  /** Two marks and a letter: the first pass leaves a mark, the second does not. */
  lemma {:induction false} TwoMarksNeedTwoPasses()
    ensures var text := [BYTE_ORDER_MARK, BYTE_ORDER_MARK, 0x41];
            MarkBehindMark(text) && NormalizeFragment(NormalizeFragment(text)) != NormalizeFragment(text)
  {
    var text := [BYTE_ORDER_MARK, BYTE_ORDER_MARK, 0x41];
    assert RemoveMark(text) == [BYTE_ORDER_MARK, 0x41];
    NormalizeTwice(text);
  }
}
