/** What normalisation does to the lines of a text. */
module Lines {
  import opened CodePoints
  import opened Normalization
  import opened Sequences
  import Orders

  // ---------------------------------------------------------------- raw lines

  /** Line by line with their ends: a carriage return and a line feed, either alone, or the end of the text. */
  datatype RawLine = RawLine(content: Text, end: Text)

  ghost predicate EndsLine(end: Text) {
    end == [0x0D, 0x0A] || end == [0x0D] || end == [0x0A]
  }

  /** The text is these lines with their ends; a carriage return just before a line feed is not an end of its own. */
  ghost predicate IsCutInto(text: Text, lines: seq<RawLine>) {
    && lines != []
    && 0x0D !in lines[0].content && 0x0A !in lines[0].content
    && (if |lines| == 1 then lines[0].end == [] && text == lines[0].content
        else
          && EndsLine(lines[0].end) && lines[0].content + lines[0].end <= text
          && var rest := text[|lines[0].content| + |lines[0].end|..];
             && !(lines[0].end == [0x0D] && rest != [] && rest[0] == 0x0A)
             && IsCutInto(rest, lines[1..]))
  }

  lemma {:induction false} CutAtEnd(end: Text, rest: Text, lines: seq<RawLine>)
    requires EndsLine(end) && !(end == [0x0D] && rest != [] && rest[0] == 0x0A) && IsCutInto(rest, lines)
    ensures IsCutInto(end + rest, [RawLine([], end)] + lines)
  {
    var all := [RawLine([], end)] + lines;
    assert all[1..] == lines && (end + rest)[|end|..] == rest && [] + end == end;
  }

  lemma {:induction false} CutAtCharacter(c: int, rest: Text, lines: seq<RawLine>)
    requires c != 0x0D && c != 0x0A && IsCutInto(rest, lines)
    ensures IsCutInto([c] + rest, [RawLine([c] + lines[0].content, lines[0].end)] + lines[1..])
  {
    var first := lines[0];
    var all := [RawLine([c] + first.content, first.end)] + lines[1..];
    assert all[1..] == lines[1..];
    if |lines| > 1 {
      var n := |first.content| + |first.end|;
      assert ([c] + rest)[n + 1..] == rest[n..];
      assert [c] + first.content + first.end == [c] + (first.content + first.end);
    }
  }

  /** Every text can be cut into lines. */
  lemma {:induction false} CutExists(text: Text) returns (lines: seq<RawLine>)
    ensures IsCutInto(text, lines)
    decreases |text|
  {
    if text == [] {
      lines := [RawLine([], [])];
    } else if text[0] == 0x0D || text[0] == 0x0A {
      var n := if text[0] == 0x0D && |text| > 1 && text[1] == 0x0A then 2 else 1;
      var rest := CutExists(text[n..]);
      CutAtEnd(text[..n], text[n..], rest);
      assert text == text[..n] + text[n..];
      lines := [RawLine([], text[..n])] + rest;
    } else {
      var rest := CutExists(text[1..]);
      CutAtCharacter(text[0], text[1..], rest);
      assert text == [text[0]] + text[1..];
      lines := [RawLine([text[0]] + rest[0].content, rest[0].end)] + rest[1..];
    }
  }

  function Contents(lines: seq<RawLine>): seq<Text> {
    seq(|lines|, i requires 0 <= i < |lines| => Sanitize(lines[i].content))
  }

  lemma {:induction false} UnifyPlain(plain: Text, rest: Text)
    requires 0x0D !in plain
    ensures UnifyNewlines(plain + rest) == plain + UnifyNewlines(rest)
  {
    if plain == [] {
      assert plain + rest == rest;
    } else {
      assert plain[0] in plain;
      assert (plain + rest)[1..] == plain[1..] + rest;
      UnifyPlain(plain[1..], rest);
    }
  }

  lemma {:induction false} UnifyEnd(end: Text, rest: Text)
    requires EndsLine(end) && !(end == [0x0D] && rest != [] && rest[0] == 0x0A)
    ensures UnifyNewlines(end + rest) == [NEWLINE] + UnifyNewlines(rest)
  {
    assert (end + rest)[|end|..] == rest;
  }

  lemma {:induction false} SanitizeConcat(a: Text, b: Text)
    ensures Sanitize(a + b) == Sanitize(a) + Sanitize(b)
  {
  }

  lemma {:induction false} SplitPlain(plain: Text, rest: Text)
    requires NEWLINE !in plain
    ensures Split(plain + [NEWLINE] + rest) == [plain] + Split(rest)
    ensures Split(plain) == [plain]
  {
    if plain == [] {
      assert (plain + [NEWLINE] + rest)[1..] == rest;
    } else {
      assert plain[0] in plain;
      var text := plain + [NEWLINE] + rest;
      assert text[0] == plain[0] && text[1..] == plain[1..] + [NEWLINE] + rest;
      SplitPlain(plain[1..], rest);
      assert ([plain[1..]] + Split(rest))[1..] == Split(rest);
      assert [plain[0]] + plain[1..] == plain;
    }
  }

  lemma {:induction false} SanitizedHasNoNewline(text: Text)
    requires NEWLINE !in text
    ensures NEWLINE !in Sanitize(text)
  {
  }

  lemma {:induction false} FirstLine(content: Text, end: Text, rest: Text)
    requires 0x0D !in content && 0x0A !in content
    requires EndsLine(end) && !(end == [0x0D] && rest != [] && rest[0] == 0x0A)
    ensures Split(Sanitize(UnifyNewlines(content + (end + rest)))) ==
      [Sanitize(content)] + Split(Sanitize(UnifyNewlines(rest)))
  {
    var unified := UnifyNewlines(rest);
    UnifyPlain(content, end + rest);
    UnifyEnd(end, rest);
    SanitizeConcat(content, [NEWLINE] + unified);
    SanitizeConcat([NEWLINE], unified);
    assert Sanitize([NEWLINE]) == [NEWLINE];
    Regroup(Sanitize(content), [NEWLINE], Sanitize(unified));
    SanitizedHasNoNewline(content);
    SplitPlain(Sanitize(content), Sanitize(unified));
  }

  lemma {:induction false} OnlyLine(content: Text)
    requires 0x0D !in content && 0x0A !in content
    ensures Split(Sanitize(UnifyNewlines(content))) == [Sanitize(content)]
  {
    UnifyIsIdentity(content);
    SanitizedHasNoNewline(content);
    SplitPlain(Sanitize(content), []);
  }

  lemma {:induction false} ContentsCons(lines: seq<RawLine>)
    requires lines != []
    ensures Contents(lines) == [Sanitize(lines[0].content)] + Contents(lines[1..])
  {
  }

  lemma {:induction false} PreparedLines(text: Text, lines: seq<RawLine>)
    requires IsCutInto(text, lines)
    ensures Split(Sanitize(UnifyNewlines(text))) == Contents(lines)
    decreases |lines|
  {
    var first := lines[0];
    if |lines| == 1 {
      OnlyLine(first.content);
    } else {
      var rest := text[|first.content| + |first.end|..];
      PreparedLines(rest, lines[1..]);
      assert text == first.content + (first.end + rest);
      FirstLine(first.content, first.end, rest);
      ContentsCons(lines);
    }
  }

  // ---------------------------------------------------------------- clean lines

  /** A space, a tab, or a control character, which becomes a space. */
  predicate IsGap(c: int) {
    c == 0x20 || 0 <= c < 0x20 || 0x7F <= c < 0xA0
  }

  /** What is shown for a character of a line: a tab is kept, another control character becomes a space, half a
      surrogate pair the replacement character. */
  function Shown(c: int): int {
    if c == 0x09 then c
    else if 0 <= c < 0x20 || 0x7F <= c < 0xA0 then 0x20
    else if 0xD800 <= c <= 0xDFFF then 0xFFFD
    else c
  }

  predicate IsBlankLine(raw: Text) {
    forall c <- raw :: IsGap(c)
  }

  /** `shown` is the raw line from `from` on, up to its last character that is no gap. */
  ghost predicate ShowsFrom(raw: Text, from: nat, shown: Text) {
    && shown != [] && from + |shown| <= |raw|
    && (forall i :: 0 <= i < |shown| ==> shown[i] == Shown(raw[from + i]))
    && !IsGap(raw[from + |shown| - 1])
    && forall k :: from + |shown| <= k < |raw| ==> IsGap(raw[k])
  }

  lemma {:induction false} TrimRightDrops(line: Text)
    ensures forall k :: |TrimRight(line)| <= k < |line| ==> IsBlank(line[k])
  {
    if line != [] && IsBlank(line[|line| - 1]) {
      TrimRightDrops(line[..|line| - 1]);
    }
  }

  lemma {:induction false} TrimLeftDrops(line: Text) returns (n: nat)
    ensures n <= |line| && TrimLeft(line) == line[n..] && forall k :: 0 <= k < n ==> IsBlank(line[k])
  {
    n := 0;
    if line != [] && IsBlank(line[0]) {
      n := TrimLeftDrops(line[1..]);
      n := n + 1;
    }
  }

  /** The blank lines are those that trimming empties. */
  lemma {:induction false} BlankLines(raw: Text)
    requires NEWLINE !in raw
    ensures IsBlankLine(raw) <==> TrimLeft(TrimRight(Sanitize(raw))) == []
    ensures IsBlankLine(raw) <==> TrimRight(Sanitize(raw)) == []
  {
    var line := Sanitize(raw);
    assert forall k :: 0 <= k < |raw| ==> raw[k] in raw && (IsGap(raw[k]) <==> IsBlank(line[k]));
    TrimRightDrops(line);
    TrimLeftKeepsLast(TrimRight(line));
  }

  lemma {:induction false} TrimRightTo(line: Text, n: nat)
    requires 0 < n <= |line| && !IsBlank(line[n - 1]) && forall k :: n <= k < |line| ==> IsBlank(line[k])
    ensures TrimRight(line) == line[..n]
  {
    if n < |line| {
      TrimRightTo(line[..|line| - 1], n);
    }
  }

  /** A line that is not blank has one clean form. */
  lemma {:induction false} ShownIsTrimmed(raw: Text, shown: Text)
    requires NEWLINE !in raw && ShowsFrom(raw, 0, shown)
    ensures TrimRight(Sanitize(raw)) == shown
  {
    var line := Sanitize(raw);
    forall k | 0 <= k < |raw|
      ensures (IsGap(raw[k]) <==> IsBlank(line[k])) && line[k] == Shown(raw[k])
    {
      assert raw[k] in raw;
    }
    TrimRightTo(line, |shown|);
    forall k | 0 <= k < |shown|
      ensures line[k] == shown[k]
    {
      assert shown[k] == Shown(raw[0 + k]);
    }
    assert line[..|shown|] == shown;
  }

  // ---------------------------------------------------------------- the layout

  /** The kept lines, one line feed between neighbours of the text and two where blank lines stood between. */
  function LaidOut(shown: seq<Text>, kept: seq<nat>): Text
    requires |shown| == |kept|
  {
    if shown == [] then []
    else if |shown| == 1 then shown[0]
    else
      var last := |shown| - 1;
      LaidOut(shown[..last], kept[..last])
        + (if kept[last] == kept[last - 1] + 1 then [0x0A] else [0x0A, 0x0A]) + shown[last]
  }

  /** The positions of the lines that are not blank, in order. */
  ghost predicate AreKept(lines: seq<RawLine>, kept: seq<nat>) {
    && Increasing(kept)
    && forall n: nat :: n in kept <==> n < |lines| && !IsBlankLine(lines[n].content)
  }

  predicate HasInk(line: Text) {
    TrimLeft(TrimRight(line)) != []
  }

  function Inked(contents: seq<Text>): nat -> bool {
    (k: nat) => k < |contents| && HasInk(contents[k])
  }

  /** The positions of the first `n` lines that trimming does not empty. */
  function KeptOf(contents: seq<Text>, n: nat): seq<nat>
    requires n <= |contents|
  {
    Positions(Inked(contents), n)
  }

  lemma {:induction false} KeptOfIs(contents: seq<Text>, n: nat)
    requires n <= |contents|
    ensures Increasing(KeptOf(contents, n)) && Below(KeptOf(contents, n), n)
    ensures forall k: nat :: k in KeptOf(contents, n) <==> k < n && HasInk(contents[k])
  {
    PositionsAre(Inked(contents), n);
  }

  function ShownOf(contents: seq<Text>, kept: seq<nat>): seq<Text>
    requires Below(kept, |contents|)
  {
    seq(|kept|, i requires 0 <= i < |kept| => TrimRight(contents[kept[i]]))
  }

  lemma {:induction false} JoinSnoc(lines: seq<Text>, line: Text)
    requires lines != []
    ensures Join(lines + [line]) == Join(lines) + [NEWLINE] + line
  {
    if |lines| == 1 {
      assert (lines + [line])[1..] == [line];
    } else {
      assert (lines + [line])[1..] == lines[1..] + [line];
      JoinSnoc(lines[1..], line);
      assert lines[0] + [NEWLINE] + (Join(lines[1..]) + [NEWLINE] + line) ==
        lines[0] + [NEWLINE] + Join(lines[1..]) + [NEWLINE] + line;
    }
  }

  /** What the loop has laid out after `n` lines. */
  ghost predicate HasLaidOut(contents: seq<Text>, n: nat, out: seq<Text>, pending: bool)
    requires n <= |contents|
  {
    var kept := KeptOf(contents, n);
    && Below(kept, n)
    && (out == [] <==> kept == []) && Join(out) == LaidOut(ShownOf(contents, kept), kept)
    && (pending <==> kept != [] && kept[|kept| - 1] < n - 1)
  }

  lemma {:induction false} LaidOutSnoc(contents: seq<Text>, kept: seq<nat>, n: nat)
    requires n < |contents| && kept != [] && Below(kept, n)
    ensures LaidOut(ShownOf(contents, kept + [n]), kept + [n]) ==
      LaidOut(ShownOf(contents, kept), kept)
        + (if n == kept[|kept| - 1] + 1 then [NEWLINE] else [NEWLINE, NEWLINE]) + TrimRight(contents[n])
  {
    var more := kept + [n];
    assert ShownOf(contents, more)[..|kept|] == ShownOf(contents, kept);
    assert more[..|kept|] == kept;
  }

  lemma {:induction false} JoinTwo(out: seq<Text>, line: Text)
    requires out != []
    ensures Join(out + [[], line]) == Join(out) + [NEWLINE, NEWLINE] + line
  {
    JoinSnoc(out, []);
    JoinSnoc(out + [[]], line);
    assert out + [[], line] == out + [[]] + [line];
    assert Join(out) + [NEWLINE] + [] + [NEWLINE] + line == Join(out) + [NEWLINE, NEWLINE] + line;
  }

  lemma {:induction false} KeptNext(contents: seq<Text>, n: nat)
    requires n < |contents| && Below(KeptOf(contents, n), n)
    ensures Below(KeptOf(contents, n + 1), n + 1)
    ensures KeptOf(contents, n + 1) ==
      if TrimLeft(TrimRight(contents[n])) == [] then KeptOf(contents, n) else KeptOf(contents, n) + [n]
  {
  }

  lemma {:induction false} LayOutFirst(contents: seq<Text>, n: nat, out: seq<Text>, pending: bool)
    requires n < |contents| && HasLaidOut(contents, n, out, pending)
    requires TrimLeft(TrimRight(contents[n])) != [] && KeptOf(contents, n) == []
    ensures HasLaidOut(contents, n + 1, [TrimRight(contents[n])], false)
  {
    KeptNext(contents, n);
    assert KeptOf(contents, n + 1) == [n];
    assert ShownOf(contents, [n]) == [TrimRight(contents[n])];
  }

  lemma {:induction false} LayOutMore(contents: seq<Text>, n: nat, out: seq<Text>, pending: bool)
    requires n < |contents| && HasLaidOut(contents, n, out, pending)
    requires TrimLeft(TrimRight(contents[n])) != [] && KeptOf(contents, n) != []
    ensures HasLaidOut(contents, n + 1,
      if pending then out + [[], TrimRight(contents[n])] else out + [TrimRight(contents[n])], false)
  {
    var kept, line := KeptOf(contents, n), TrimRight(contents[n]);
    KeptNext(contents, n);
    LaidOutSnoc(contents, kept, n);
    if pending {
      JoinTwo(out, line);
    } else {
      JoinSnoc(out, line);
    }
  }

  lemma {:induction false} LayOutNext(contents: seq<Text>, n: nat, out: seq<Text>, pending: bool)
    requires n < |contents| && HasLaidOut(contents, n, out, pending)
    ensures HasLaidOut(contents, n + 1, AddLine(out, pending, contents[n]).0, AddLine(out, pending, contents[n]).1)
  {
    KeptNext(contents, n);
    if TrimLeft(TrimRight(contents[n])) != [] {
      if KeptOf(contents, n) == [] {
        LayOutFirst(contents, n, out, pending);
        assert [] + [TrimRight(contents[n])] == [TrimRight(contents[n])];
      } else {
        LayOutMore(contents, n, out, pending);
      }
    }
  }

  lemma {:induction false} CollapseNext(contents: seq<Text>, n: nat)
    requires 0 < n <= |contents|
    ensures Collapse(contents[..n]) ==
      AddLine(Collapse(contents[..n - 1]).0, Collapse(contents[..n - 1]).1, contents[n - 1])
  {
    Snoc(contents, n);
  }

  lemma {:induction false} NothingLaidOut(contents: seq<Text>)
    ensures HasLaidOut(contents, 0, [], false)
  {
  }

  lemma {:induction false} LoopLaysOut(contents: seq<Text>, n: nat)
    requires n <= |contents|
    ensures HasLaidOut(contents, n, Collapse(contents[..n]).0, Collapse(contents[..n]).1)
  {
    if n == 0 {
      NothingLaidOut(contents);
    } else {
      LoopLaysOut(contents, n - 1);
      CollapseNext(contents, n);
      LayOutNext(contents, n - 1, Collapse(contents[..n - 1]).0, Collapse(contents[..n - 1]).1);
    }
  }

  // ---------------------------------------------------------------- the first line

  /** Where a shown first line begins in the raw one. */
  ghost predicate BeginsAt(raw: Text, from: nat, shown: Text) {
    && ShowsFrom(raw, from, shown) && shown[0] != 0x20 && shown[0] != 0x09
    && forall k :: 0 <= k < from ==> IsGap(raw[k])
  }

  /** `shown` is the raw line without the gaps at either end. */
  ghost predicate ShowsFirst(raw: Text, shown: Text) {
    exists from: nat :: BeginsAt(raw, from, shown)
  }

  lemma {:induction false} TrimmedShows(raw: Text)
    requires NEWLINE !in raw && !IsBlankLine(raw)
    ensures ShowsFrom(raw, 0, TrimRight(Sanitize(raw)))
    ensures
      var full := TrimRight(Sanitize(raw));
      && |full| <= |raw| && TrimLeft(full) != []
      && forall k :: 0 <= k < |full| ==> full[k] == Shown(raw[k]) && (IsBlank(full[k]) <==> IsGap(raw[k]))
  {
    var line := Sanitize(raw);
    assert forall k :: 0 <= k < |raw| ==> raw[k] in raw && (IsGap(raw[k]) <==> IsBlank(line[k]));
    assert forall k :: 0 <= k < |raw| ==> line[k] == Shown(raw[k]);
    BlankLines(raw);
    TrimRightDrops(line);
  }

  lemma {:induction false} BeginsAtInk(raw: Text, from: nat, shown: Text)
    requires BeginsAt(raw, from, shown)
    ensures from < |raw| && !IsGap(raw[from])
  {
    assert shown[0] == Shown(raw[from + 0]);
  }

  lemma {:induction false} SameBeginning(raw: Text, from: nat, shown: Text, full: Text, n: nat)
    requires BeginsAt(raw, from, shown) && ShowsFrom(raw, 0, full) && n < |full| && !IsGap(raw[n])
    requires forall k :: 0 <= k < n ==> IsGap(raw[k])
    ensures full[n..] == shown
  {
    BeginsAtInk(raw, from, shown);
    assert n == from;
    assert from + |shown| == |full|;
    forall k | 0 <= k < |shown|
      ensures full[n..][k] == shown[k]
    {
      assert full[n + k] == Shown(raw[0 + (n + k)]);
    }
  }

  lemma {:induction false} FirstIsTrimmed(raw: Text, shown: Text)
    requires NEWLINE !in raw && !IsBlankLine(raw) && ShowsFirst(raw, shown)
    ensures TrimLeft(TrimRight(Sanitize(raw))) == shown
  {
    var full := TrimRight(Sanitize(raw));
    TrimmedShows(raw);
    var n := TrimLeftDrops(full);
    assert full[n..][0] == full[n];
    var from: nat :| BeginsAt(raw, from, shown);
    SameBeginning(raw, from, shown, full, n);
  }

  lemma {:induction false} TrimLeftConcat(a: Text, b: Text)
    requires TrimLeft(a) != []
    ensures TrimLeft(a + b) == TrimLeft(a) + b
  {
    if IsBlank(a[0]) {
      assert (a + b)[1..] == a[1..] + b;
      TrimLeftConcat(a[1..], b);
    }
  }

  lemma {:induction false} TrimLeftLaidOut(shown: seq<Text>, kept: seq<nat>)
    requires |shown| == |kept| > 0 && TrimLeft(shown[0]) != []
    ensures TrimLeft(LaidOut(shown, kept)) == LaidOut([TrimLeft(shown[0])] + shown[1..], kept)
    ensures LaidOut(shown, kept) != [] && TrimLeft(LaidOut(shown, kept)) != []
    decreases |shown|
  {
    if |shown| > 1 {
      var last := |shown| - 1;
      var trimmed := [TrimLeft(shown[0])] + shown[1..];
      TrimLeftLaidOut(shown[..last], kept[..last]);
      assert trimmed[..last] == [TrimLeft(shown[..last][0])] + shown[..last][1..];
      var gap := if kept[last] == kept[last - 1] + 1 then [0x0A] else [0x0A, 0x0A];
      TrimLeftConcat(LaidOut(shown[..last], kept[..last]), gap + shown[last]);
      Regroup(LaidOut(shown[..last], kept[..last]), gap, shown[last]);
      Regroup(LaidOut(trimmed[..last], kept[..last]), gap, shown[last]);
    }
  }

  lemma {:induction false} LaidOutEnds(shown: seq<Text>, kept: seq<nat>)
    requires |shown| == |kept| > 0 && shown[|shown| - 1] != []
    ensures
      var text, line := LaidOut(shown, kept), shown[|shown| - 1];
      text != [] && text[|text| - 1] == line[|line| - 1]
  {
  }

  // ---------------------------------------------------------------- the line law

  /** These are the lines of the text that are not blank, as they are shown. */
  ghost predicate AreShown(lines: seq<RawLine>, kept: seq<nat>, shown: seq<Text>) {
    && AreKept(lines, kept) && |shown| == |kept| && Below(kept, |lines|)
    && (kept != [] ==> ShowsFirst(lines[kept[0]].content, shown[0]))
    && forall i :: 1 <= i < |kept| ==> ShowsFrom(lines[kept[i]].content, 0, shown[i])
  }

  lemma {:induction false} NoNewlineInLines(text: Text, lines: seq<RawLine>)
    requires IsCutInto(text, lines)
    ensures forall i :: 0 <= i < |lines| ==> NEWLINE !in lines[i].content
    decreases |lines|
  {
    if |lines| > 1 {
      NoNewlineInLines(text[|lines[0].content| + |lines[0].end|..], lines[1..]);
      assert lines == [lines[0]] + lines[1..];
    }
  }

  lemma {:induction false} KeptIsKeptOf(text: Text, lines: seq<RawLine>, kept: seq<nat>)
    requires IsCutInto(text, lines) && AreKept(lines, kept)
    ensures kept == KeptOf(Contents(lines), |lines|)
  {
    var contents := Contents(lines);
    KeptOfIs(contents, |lines|);
    NoNewlineInLines(text, lines);
    forall n: nat
      ensures n in kept <==> n in KeptOf(contents, |lines|)
    {
      if n < |lines| {
        BlankLines(lines[n].content);
      }
    }
    Orders.OrderedIsUnique((i: nat, j: nat) => i < j, kept, KeptOf(contents, |lines|));
  }

  /** The joined lines, before the trimming of the whole. */
  lemma {:induction false} LoopOutput(text: Text, lines: seq<RawLine>, kept: seq<nat>)
    requires IsCutInto(text, lines) && AreKept(lines, kept)
    ensures Below(kept, |lines|)
    ensures Join(Collapse(Split(Sanitize(UnifyNewlines(text)))).0) == LaidOut(ShownOf(Contents(lines), kept), kept)
  {
    var contents := Contents(lines);
    PreparedLines(text, lines);
    KeptIsKeptOf(text, lines, kept);
    LoopLaysOut(contents, |lines|);
    assert contents[..|lines|] == contents;
  }

  lemma {:induction false} ShownLine(lines: seq<RawLine>, kept: seq<nat>, shown: seq<Text>, i: nat)
    requires AreShown(lines, kept, shown) && i < |kept| && NEWLINE !in lines[kept[i]].content
    ensures
      var full := TrimRight(Sanitize(lines[kept[i]].content));
      shown[i] == if i == 0 then TrimLeft(full) else full
  {
    assert kept[i] in kept;
    if i == 0 {
      FirstIsTrimmed(lines[kept[i]].content, shown[i]);
    } else {
      ShownIsTrimmed(lines[kept[i]].content, shown[i]);
    }
  }

  lemma {:induction false} FirstTrimmed(full: seq<Text>, shown: seq<Text>)
    requires |full| == |shown| > 0
    requires forall i :: 0 <= i < |shown| ==> shown[i] == if i == 0 then TrimLeft(full[i]) else full[i]
    ensures [TrimLeft(full[0])] + full[1..] == shown
  {
  }

  lemma {:induction false} ShownLines(text: Text, lines: seq<RawLine>, kept: seq<nat>, shown: seq<Text>)
    requires IsCutInto(text, lines) && AreShown(lines, kept, shown) && kept != []
    ensures
      var full := ShownOf(Contents(lines), kept);
      TrimLeft(full[0]) == shown[0] && [TrimLeft(full[0])] + full[1..] == shown
  {
    var full := ShownOf(Contents(lines), kept);
    NoNewlineInLines(text, lines);
    forall i | 0 <= i < |kept|
      ensures shown[i] == if i == 0 then TrimLeft(full[i]) else full[i]
    {
      ShownLine(lines, kept, shown, i);
      assert full[i] == TrimRight(Sanitize(lines[kept[i]].content));
    }
    FirstTrimmed(full, shown);
  }

  lemma {:induction false} UnmarkedLines(text: Text, lines: seq<RawLine>, kept: seq<nat>, shown: seq<Text>)
    requires IsCutInto(text, lines) && AreShown(lines, kept, shown)
    ensures TrimRight(TrimLeft(Join(Collapse(Split(Sanitize(UnifyNewlines(text)))).0))) == LaidOut(shown, kept)
  {
    LoopOutput(text, lines, kept);
    if kept != [] {
      var full := ShownOf(Contents(lines), kept);
      ShownLines(text, lines, kept, shown);
      TrimLeftLaidOut(full, kept);
      LastShows(lines, kept, shown);
      LaidOutEnds(shown, kept);
    }
  }

  lemma {:induction false} LastShows(lines: seq<RawLine>, kept: seq<nat>, shown: seq<Text>)
    requires AreShown(lines, kept, shown) && kept != []
    ensures var line := shown[|shown| - 1]; line != [] && !IsBlank(line[|line| - 1])
  {
    var last := |shown| - 1;
    var raw, line := lines[kept[last]].content, shown[last];
    var from: nat :| ShowsFrom(raw, from, line);
    ShownEnds(raw, from, line);
  }

  lemma {:induction false} ShownEnds(raw: Text, from: nat, shown: Text)
    requires ShowsFrom(raw, from, shown)
    ensures !IsBlank(shown[|shown| - 1])
  {
    var last := |shown| - 1;
    assert shown[last] == Shown(raw[from + last]);
  }

  /** The lines of a text survive normalisation. Cut the text, without its leading mark, at carriage returns with a line
      feed and at either alone. The result is the lines that are not blank, in order, each with its inner blanks and
      without its trailing ones, the first without its leading ones too, with one line feed between lines that were
      neighbours and two where blank lines stood between. */
  lemma {:induction false} LinesAreKept(text: Text, lines: seq<RawLine>, kept: seq<nat>, shown: seq<Text>)
    requires IsCutInto(text, lines) && AreShown(lines, kept, shown)
    ensures NormalizeFragment([0xFEFF] + text) == LaidOut(shown, kept)
    ensures text == [] || text[0] != 0xFEFF ==> NormalizeFragment(text) == LaidOut(shown, kept)
  {
    UnmarkedLines(text, lines, kept, shown);
    assert ([0xFEFF] + text)[1..] == text;
  }

  lemma {:induction false} SuffixShows(raw: Text, full: Text, n: nat)
    requires ShowsFrom(raw, 0, full) && n < |full|
    ensures ShowsFrom(raw, n, full[n..])
  {
    var shown := full[n..];
    forall i | 0 <= i < |shown|
      ensures shown[i] == Shown(raw[n + i])
    {
      assert shown[i] == full[n + i] == Shown(raw[0 + (n + i)]);
    }
    assert n + |shown| - 1 == 0 + |full| - 1;
  }

  lemma {:induction false} FirstShows(raw: Text)
    requires NEWLINE !in raw && !IsBlankLine(raw)
    ensures ShowsFirst(raw, TrimLeft(TrimRight(Sanitize(raw))))
  {
    var full := TrimRight(Sanitize(raw));
    TrimmedShows(raw);
    var n := TrimLeftDrops(full);
    var shown := TrimLeft(full);
    SuffixShows(raw, full, n);
    assert BeginsAt(raw, n, shown);
  }

  lemma {:induction false} KeptAreKept(text: Text, lines: seq<RawLine>)
    requires IsCutInto(text, lines)
    ensures AreKept(lines, KeptOf(Contents(lines), |lines|)) && Below(KeptOf(Contents(lines), |lines|), |lines|)
  {
    var kept := KeptOf(Contents(lines), |lines|);
    NoNewlineInLines(text, lines);
    KeptOfIs(Contents(lines), |lines|);
    assert forall i :: 0 <= i < |kept| ==> kept[i] in kept;
    forall n: nat
      ensures n in kept <==> n < |lines| && !IsBlankLine(lines[n].content)
    {
      if n < |lines| {
        BlankLines(lines[n].content);
      }
    }
  }

  lemma {:induction false} ShowsAll(lines: seq<RawLine>, kept: seq<nat>, full: seq<Text>, first: Text)
    requires AreKept(lines, kept) && Below(kept, |lines|) && |full| == |kept| > 0
    requires forall i :: 0 <= i < |kept| ==> ShowsFrom(lines[kept[i]].content, 0, full[i])
    requires ShowsFirst(lines[kept[0]].content, first)
    ensures AreShown(lines, kept, [first] + full[1..])
  {
  }

  lemma {:induction false} FullLines(text: Text, lines: seq<RawLine>, kept: seq<nat>)
    requires IsCutInto(text, lines) && AreKept(lines, kept) && Below(kept, |lines|)
    ensures forall i :: 0 <= i < |kept| ==>
      ShowsFrom(lines[kept[i]].content, 0, TrimRight(Sanitize(lines[kept[i]].content)))
    ensures kept != [] ==> ShowsFirst(lines[kept[0]].content, TrimLeft(TrimRight(Sanitize(lines[kept[0]].content))))
  {
    NoNewlineInLines(text, lines);
    assert forall i :: 0 <= i < |kept| ==> kept[i] in kept;
    forall i | 0 <= i < |kept|
      ensures ShowsFrom(lines[kept[i]].content, 0, TrimRight(Sanitize(lines[kept[i]].content)))
    {
      TrimmedShows(lines[kept[i]].content);
    }
    if kept != [] {
      FirstShows(lines[kept[0]].content);
    }
  }

  /** Every text has such lines. */
  lemma {:induction false} LinesExist(text: Text) returns (lines: seq<RawLine>, kept: seq<nat>, shown: seq<Text>)
    ensures IsCutInto(text, lines) && AreShown(lines, kept, shown)
  {
    lines := CutExists(text);
    kept := KeptOf(Contents(lines), |lines|);
    KeptAreKept(text, lines);
    shown := ShownOf(Contents(lines), kept);
    if kept != [] {
      FullLines(text, lines, kept);
      ShowsAll(lines, kept, shown, TrimLeft(shown[0]));
      shown := [TrimLeft(shown[0])] + shown[1..];
    }
  }
}
