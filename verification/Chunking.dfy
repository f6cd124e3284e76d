/** The deterministic character-window chunker. */
module Chunking {
  import opened CodePoints
  import opened Identifiers
  import opened Options

  datatype ChunkingConfig = ChunkingConfig(chunkSize: int, overlap: int) {
    predicate Valid() {
      chunkSize > 0 && 0 <= overlap < chunkSize
    }
  }

  datatype SourceSpan = SourceSpan(startOffset: nat, endOffset: nat, sectionIndex: nat, pageNumber: Option<int>)

  datatype NormalizedDocument = NormalizedDocument(text: Text, spans: seq<SourceSpan>)

  datatype TextChunk = TextChunk(
    chunkIndex: nat,
    text: Text,
    tokenCount: nat,
    startOffset: nat,
    endOffset: nat,
    contentHash: Digest,
    pageNumbers: seq<int>)

  /** Half-open character range of one chunk. */
  datatype Window = Window(start: nat, end: nat)

  // ---------------------------------------------------------------- boundary search

  predicate OccursAt(text: Text, pattern: Text, k: int) {
    0 <= k && k + |pattern| <= |text| && text[k..k + |pattern|] == pattern
  }

  /** `text.rfind(pattern, lo, hi)`. */
  function RFind(text: Text, pattern: Text, lo: nat, hi: nat): (i: int)
    requires pattern != [] && hi <= |text|
    ensures i == -1 || (lo <= i && i + |pattern| <= hi && OccursAt(text, pattern, i))
    ensures forall k :: lo <= k && i < k && k + |pattern| <= hi ==> !OccursAt(text, pattern, k)
    decreases hi
  {
    if hi < lo + |pattern| then -1
    else if OccursAt(text, pattern, hi - |pattern|) then hi - |pattern|
    else RFind(text, pattern, lo, hi - 1)
  }

  function Max(a: int, b: int): int {
    if a < b then b else a
  }

  function Min(a: int, b: int): int {
    if a < b then a else b
  }

  /** One preference level: alternative patterns, and how many characters of the match stay in the chunk. */
  datatype Level = Level(patterns: seq<Text>, keep: nat)

  /** Paragraph, then line, then sentence, then word boundaries. */
  const LEVELS: seq<Level> := [
    Level([[NEWLINE, NEWLINE]], 0),
    Level([[NEWLINE]], 0),
    Level([[0x2E, SPACE], [0x21, SPACE], [0x3F, SPACE]], 1),
    Level([[SPACE], [TAB]], 0)]

  predicate ValidLevel(level: Level) {
    forall pattern <- level.patterns :: level.keep < |pattern| && IsSpace(pattern[|pattern| - 1])
  }

  /** The right-most match of any of the patterns, or -1. */
  function LastMatch(text: Text, patterns: seq<Text>, keep: nat, lo: nat, hi: nat): (i: int)
    requires hi <= |text| && forall pattern <- patterns :: keep < |pattern|
    ensures i == -1 || lo <= i < hi - keep
  {
    if patterns == [] then -1
    else Max(RFind(text, patterns[0], lo, hi), LastMatch(text, patterns[1..], keep, lo, hi))
  }

  /** The cut at the first preference level that has a match, else the hard end. */
  function PreferredCut(text: Text, levels: seq<Level>, lo: nat, hi: nat): (cut: nat)
    requires lo < hi <= |text| && forall level <- levels :: ValidLevel(level)
    ensures lo <= cut <= hi
  {
    if levels == [] then hi
    else
      assert ValidLevel(levels[0]);
      var i := LastMatch(text, levels[0].patterns, levels[0].keep, lo, hi);
      if i >= lo then i + levels[0].keep else PreferredCut(text, levels[1..], lo, hi)
  }

  /** Some pattern of the level occurs at `i` within [lo, hi). */
  ghost predicate MatchAt(text: Text, patterns: seq<Text>, lo: nat, hi: nat, i: int) {
    lo <= i && exists pattern <- patterns :: i + |pattern| <= hi && OccursAt(text, pattern, i)
  }

  lemma {:induction false} LastMatchIsLast(text: Text, patterns: seq<Text>, keep: nat, lo: nat, hi: nat)
    requires hi <= |text| && forall pattern <- patterns :: keep < |pattern|
    ensures var last := LastMatch(text, patterns, keep, lo, hi);
            && (last == -1 || MatchAt(text, patterns, lo, hi, last))
            && (forall i :: MatchAt(text, patterns, lo, hi, i) ==> i <= last)
  {
    if patterns != [] {
      var rest := patterns[1..];
      LastMatchIsLast(text, rest, keep, lo, hi);
      forall i | MatchAt(text, patterns, lo, hi, i)
        ensures i <= LastMatch(text, patterns, keep, lo, hi)
      {
        var pattern :| pattern in patterns && i + |pattern| <= hi && OccursAt(text, pattern, i);
        if pattern in rest {
          assert MatchAt(text, rest, lo, hi, i);
        }
      }
    }
  }

  ghost predicate Unmatched(text: Text, levels: seq<Level>, lo: nat, hi: nat, m: nat) {
    m < |levels| && forall i :: !MatchAt(text, levels[m].patterns, lo, hi, i)
  }

  /** The cut is the last match of the level, plus what the level keeps, if the level matches at all. */
  ghost predicate LastOf(text: Text, level: Level, lo: nat, hi: nat, cut: int) {
    forall i {:trigger MatchAt(text, level.patterns, lo, hi, i)} :: MatchAt(text, level.patterns, lo, hi, i) ==>
      i <= cut - level.keep && MatchAt(text, level.patterns, lo, hi, cut - level.keep)
  }

  lemma {:induction false} FirstLevelCut(text: Text, levels: seq<Level>, lo: nat, hi: nat)
    requires lo < hi <= |text| && levels != [] && forall level <- levels :: ValidLevel(level)
    ensures LastOf(text, levels[0], lo, hi, PreferredCut(text, levels, lo, hi))
    ensures Unmatched(text, levels, lo, hi, 0) ==>
      PreferredCut(text, levels, lo, hi) == PreferredCut(text, levels[1..], lo, hi)
  {
    assert ValidLevel(levels[0]);
    LastMatchIsLast(text, levels[0].patterns, levels[0].keep, lo, hi);
  }

  /** The cut is the last match of the first level that matches at all, plus what the level keeps;
      the hard end when no level matches. */
  lemma {:induction false} PreferredCutIsBest(text: Text, levels: seq<Level>, lo: nat, hi: nat, l: nat)
    requires lo < hi <= |text| && (forall level <- levels :: ValidLevel(level)) && l <= |levels|
    requires forall m {:trigger Unmatched(text, levels, lo, hi, m)} :: 0 <= m < l ==> Unmatched(text, levels, lo, hi, m)
    ensures l == |levels| ==> PreferredCut(text, levels, lo, hi) == hi
    ensures l < |levels| ==> LastOf(text, levels[l], lo, hi, PreferredCut(text, levels, lo, hi))
    decreases |levels|
  {
    if levels != [] {
      FirstLevelCut(text, levels, lo, hi);
      if l > 0 {
        var rest := levels[1..];
        assert Unmatched(text, levels, lo, hi, 0);
        forall m | 0 <= m < l - 1
          ensures Unmatched(text, rest, lo, hi, m)
        {
          assert Unmatched(text, levels, lo, hi, m + 1);
        }
        PreferredCutIsBest(text, rest, lo, hi, l - 1);
      }
    }
  }

  function MinimumBoundary(config: ChunkingConfig, start: nat): int {
    start + Max(config.overlap + 1, config.chunkSize / 2)
  }

  /** The cut of a chunk: a textual boundary beyond the minimum, else the hard end. */
  function SelectEnd(text: Text, config: ChunkingConfig, start: nat, hardEnd: nat): (cut: nat)
    requires config.Valid() && start < hardEnd <= |text|
    requires hardEnd == Min(start + config.chunkSize, |text|)
    ensures start < cut <= hardEnd
    ensures hardEnd < |text| ==> start + config.overlap < cut
  {
    var lo := MinimumBoundary(config, start);
    if hardEnd == |text| || lo >= hardEnd then hardEnd
    else PreferredCut(text, LEVELS, lo, hardEnd)
  }

  // ---------------------------------------------------------------- specification of one window

  function SkipSpaces(text: Text, from: nat): (i: nat)
    ensures from <= i && (from <= |text| ==> i <= |text|)
    ensures forall k :: from <= k < i ==> k < |text| && IsSpace(text[k])
    ensures i < |text| ==> !IsSpace(text[i])
    decreases |text| - from
  {
    if from < |text| && IsSpace(text[from]) then SkipSpaces(text, from + 1) else from
  }

  function TrimSpaces(text: Text, start: nat, end: nat): (i: nat)
    requires start <= end <= |text|
    ensures start <= i <= end
    ensures forall k :: i <= k < end ==> IsSpace(text[k])
    ensures start < i ==> !IsSpace(text[i - 1])
  {
    if start < end && IsSpace(text[end - 1]) then TrimSpaces(text, start, end - 1) else end
  }

  function Cut(text: Text, config: ChunkingConfig, start: nat): (cut: nat)
    requires config.Valid() && start < |text|
    ensures start < cut <= |text| && cut <= start + config.chunkSize
    ensures cut < |text| ==> start + config.overlap < cut
  {
    SelectEnd(text, config, start, Min(start + config.chunkSize, |text|))
  }

  function ChunkEnd(text: Text, config: ChunkingConfig, start: nat): nat
    requires config.Valid() && start < |text|
  {
    TrimSpaces(text, start, Cut(text, config, start))
  }

  /** Where the search for window `i` starts. */
  function Resume(config: ChunkingConfig, ws: seq<Window>, i: nat): (from: nat)
    requires i <= |ws|
    ensures 0 < i ==> ws[i - 1].start < from && ws[i - 1].end - config.overlap <= from
  {
    if i == 0 then 0 else Max(ws[i - 1].end - config.overlap, ws[i - 1].start + 1)
  }

  predicate IsWindow(text: Text, config: ChunkingConfig, from: nat, w: Window)
    requires config.Valid()
  {
    && w.start == SkipSpaces(text, from) < |text|
    && w.end == ChunkEnd(text, config, w.start)
  }

  predicate WindowAt(text: Text, config: ChunkingConfig, ws: seq<Window>, i: nat)
    requires config.Valid() && i < |ws|
  {
    IsWindow(text, config, Resume(config, ws, i), ws[i])
  }

  /** A prefix of the windows, none of which reaches the end of the text except possibly the last. */
  predicate IsPrefix(text: Text, config: ChunkingConfig, ws: seq<Window>)
    requires config.Valid()
  {
    && (forall i {:trigger WindowAt(text, config, ws, i)} :: 0 <= i < |ws| ==> WindowAt(text, config, ws, i))
    && (forall i :: 0 <= i < |ws| - 1 ==> ws[i].end < |text|)
  }

  predicate ReachesEnd(text: Text, ws: seq<Window>) {
    ws != [] && ws[|ws| - 1].end == |text|
  }

  /** The whole sequence of windows of a text. */
  predicate IsChunking(text: Text, config: ChunkingConfig, ws: seq<Window>)
    requires config.Valid()
  {
    && IsPrefix(text, config, ws)
    && (ReachesEnd(text, ws) || |text| <= SkipSpaces(text, Resume(config, ws, |ws|)))
  }

  /** The source's guard against an empty chunk can never fire. */
  lemma {:induction false} EmptyBranchUnreachable(text: Text, config: ChunkingConfig, start: nat)
    requires config.Valid() && start < |text| && !IsSpace(text[start])
    ensures start < ChunkEnd(text, config, start)
  {
  }

  // ---------------------------------------------------------------- the loops

  method SkipWhitespace(text: Text, from: nat) returns (i: nat)
    ensures i == SkipSpaces(text, from)
  {
    i := from;
    while i < |text| && IsSpace(text[i])
      invariant SkipSpaces(text, i) == SkipSpaces(text, from)
    {
      i := i + 1;
    }
  }

  method TrimTrailingWhitespace(text: Text, start: nat, end: nat) returns (i: nat)
    requires start <= end <= |text|
    ensures i == TrimSpaces(text, start, end)
  {
    i := end;
    while i > start && IsSpace(text[i - 1])
      invariant start <= i <= end
      invariant TrimSpaces(text, start, i) == TrimSpaces(text, start, end)
    {
      i := i - 1;
    }
  }

  predicate Overlaps(span: SourceSpan, start: nat, end: nat) {
    span.startOffset < end && start < span.endOffset
  }

  /** Distinct pages of the spans that overlap [start, end), in span order. */
  function PagesOf(spans: seq<SourceSpan>, start: nat, end: nat): seq<int> {
    if spans == [] then []
    else
      var before := PagesOf(spans[..|spans| - 1], start, end);
      var span := spans[|spans| - 1];
      if Overlaps(span, start, end) && span.pageNumber.Some? && span.pageNumber.value !in before
      then before + [span.pageNumber.value]
      else before
  }

  method PageNumbers(document: NormalizedDocument, start: nat, end: nat) returns (pages: seq<int>)
    ensures pages == PagesOf(document.spans, start, end)
  {
    pages := [];
    for i := 0 to |document.spans|
      invariant pages == PagesOf(document.spans[..i], start, end)
    {
      var span := document.spans[i];
      assert document.spans[..i + 1][..i] == document.spans[..i];
      if span.startOffset >= end || span.endOffset <= start {
        continue;
      }
      if span.pageNumber.Some? && span.pageNumber.value !in pages {
        pages := pages + [span.pageNumber.value];
      }
    }
    assert document.spans[..|document.spans|] == document.spans;
  }

  /** Number of maximal runs of non-whitespace characters. */
  function TokenCount(text: Text): nat {
    if text == [] then 0
    else
      var last := |text| - 1;
      TokenCount(text[..last]) + if !IsSpace(text[last]) && (last == 0 || IsSpace(text[last - 1])) then 1 else 0
  }

  function ChunkOf(document: NormalizedDocument, sha256: Text -> Digest, index: nat, w: Window): TextChunk
    requires w.start <= w.end <= |document.text|
  {
    var text := document.text[w.start..w.end];
    TextChunk(index, text, TokenCount(text), w.start, w.end, sha256(text), PagesOf(document.spans, w.start, w.end))
  }

  ghost predicate ChunkAt(document: NormalizedDocument, sha256: Text -> Digest, ws: seq<Window>,
                          chunks: seq<TextChunk>, i: nat)
    requires i < |ws| && i < |chunks|
  {
    && ws[i].start <= ws[i].end <= |document.text|
    && chunks[i] == ChunkOf(document, sha256, i, ws[i])
  }

  /** `chunks` are the windows of the document, numbered in order, each carrying its own slice and provenance. */
  ghost predicate ChunksOfWindows(document: NormalizedDocument, sha256: Text -> Digest, ws: seq<Window>,
                                  chunks: seq<TextChunk>) {
    && |chunks| == |ws|
    && (forall i {:trigger ChunkAt(document, sha256, ws, chunks, i)} :: 0 <= i < |ws| ==>
      ChunkAt(document, sha256, ws, chunks, i))
  }

  /** The bounds of the chunks. */
  function WindowsOf(chunks: seq<TextChunk>): seq<Window> {
    seq(|chunks|, i requires 0 <= i < |chunks| => Window(chunks[i].startOffset, chunks[i].endOffset))
  }

  lemma {:induction false} AppendWindow(chunks: seq<TextChunk>, c: TextChunk)
    ensures WindowsOf(chunks + [c]) == WindowsOf(chunks) + [Window(c.startOffset, c.endOffset)]
  {
  }

  lemma {:induction false} AppendChunk(document: NormalizedDocument, sha256: Text -> Digest, ws: seq<Window>,
                                       chunks: seq<TextChunk>, w: Window, c: TextChunk)
    requires ChunksOfWindows(document, sha256, ws, chunks) && w.start <= w.end <= |document.text|
    requires c == ChunkOf(document, sha256, |chunks|, w)
    ensures ChunksOfWindows(document, sha256, ws + [w], chunks + [c])
  {
    forall i | 0 <= i < |ws| + 1
      ensures ChunkAt(document, sha256, ws + [w], chunks + [c], i)
    {
      assert i < |ws| ==> ChunkAt(document, sha256, ws, chunks, i);
    }
  }

  method MakeChunk(document: NormalizedDocument, sha256: Text -> Digest, index: nat, start: nat,
                   end: nat) returns (c: TextChunk)
    requires start <= end <= |document.text|
    ensures c == ChunkOf(document, sha256, index, Window(start, end))
    ensures c.chunkIndex == index && c.startOffset == start && c.endOffset == end
    ensures c.text == document.text[start..end] && c.contentHash == sha256(c.text)
  {
    var text := document.text[start..end];
    var pages := PageNumbers(document, start, end);
    c := TextChunk(index, text, TokenCount(text), start, end, sha256(text), pages);
  }

  lemma {:induction false} ExtendPrefix(text: Text, config: ChunkingConfig, ws: seq<Window>, w: Window)
    requires config.Valid() && IsPrefix(text, config, ws) && !ReachesEnd(text, ws)
    requires IsWindow(text, config, Resume(config, ws, |ws|), w)
    ensures IsPrefix(text, config, ws + [w])
  {
    var vs := ws + [w];
    forall i | 0 <= i < |vs|
      ensures WindowAt(text, config, vs, i) && (i < |vs| - 1 ==> vs[i].end < |text|)
    {
      assert i < |ws| ==> WindowAt(text, config, ws, i);
      assert Resume(config, vs, i) == Resume(config, ws, i);
      assert i < |ws| ==> vs[i] == ws[i];
    }
  }

  /** The first half of the loop body: the bounds of the next chunk, if any text is left. */
  method NextWindow(text: Text, config: ChunkingConfig, nextStart: nat) returns (window: Option<Window>)
    requires config.Valid() && nextStart < |text|
    ensures window.None? <==> |text| <= SkipSpaces(text, nextStart)
    ensures window.Some? ==>
      IsWindow(text, config, nextStart, window.value) && window.value.start < window.value.end <= |text|
  {
    var startOffset := SkipWhitespace(text, nextStart);
    if startOffset >= |text| {
      return None;
    }
    var hardEnd := Min(startOffset + config.chunkSize, |text|);
    var selectedEnd := SelectEnd(text, config, startOffset, hardEnd);
    var endOffset := TrimTrailingWhitespace(text, startOffset, selectedEnd);
    assert selectedEnd == Cut(text, config, startOffset);
    EmptyBranchUnreachable(text, config, startOffset);
    window := Some(Window(startOffset, endOffset));
  }

  lemma {:induction false} NextChunk(document: NormalizedDocument, config: ChunkingConfig, sha256: Text -> Digest,
                                     ws: seq<Window>,
                                     chunks: seq<TextChunk>, w: Window, c: TextChunk)
    requires config.Valid() && IsPrefix(document.text, config, ws) && !ReachesEnd(document.text, ws)
    requires IsWindow(document.text, config, Resume(config, ws, |ws|), w) && w.start < w.end <= |document.text|
    requires ChunksOfWindows(document, sha256, ws, chunks) && c == ChunkOf(document, sha256, |chunks|, w)
    ensures IsPrefix(document.text, config, ws + [w]) && ChunksOfWindows(document, sha256, ws + [w], chunks + [c])
    ensures ReachesEnd(document.text, ws + [w]) <==> w.end == |document.text|
    ensures Resume(config, ws + [w], |ws + [w]|) == Max(w.end - config.overlap, w.start + 1)
  {
    ExtendPrefix(document.text, config, ws, w);
    AppendChunk(document, sha256, ws, chunks, w, c);
  }

  method Chunk(config: ChunkingConfig, document: NormalizedDocument, sha256: Text -> Digest)
    returns (chunks: seq<TextChunk>)
    requires config.Valid()
    ensures IsChunking(document.text, config, WindowsOf(chunks))
    ensures ChunksOfWindows(document, sha256, WindowsOf(chunks), chunks)
  {
    var text := document.text;
    chunks := [];
    ghost var ws: seq<Window> := [];
    assert WindowsOf(chunks) == ws;
    var nextStart := 0;
    while nextStart < |text|
      invariant IsPrefix(text, config, ws) && !ReachesEnd(text, ws) && nextStart == Resume(config, ws, |ws|)
      invariant ChunksOfWindows(document, sha256, ws, chunks) && ws == WindowsOf(chunks)
      decreases |text| - nextStart
    {
      var window := NextWindow(text, config, nextStart);
      if window.None? {
        return;
      }
      var Window(startOffset, endOffset) := window.value;
      var chunk := MakeChunk(document, sha256, |chunks|, startOffset, endOffset);
      NextChunk(document, config, sha256, ws, chunks, window.value, chunk);
      AppendWindow(chunks, chunk);
      chunks, ws := chunks + [chunk], ws + [window.value];
      if endOffset == |text| {
        return;
      }
      nextStart := Max(endOffset - config.overlap, startOffset + 1);
    }
  }

  lemma {:induction false} SameWindow(text: Text, config: ChunkingConfig, vs: seq<Window>, ws: seq<Window>, k: nat)
    requires config.Valid() && k < |vs| && k < |ws| && Resume(config, vs, k) == Resume(config, ws, k)
    requires IsPrefix(text, config, vs) && IsPrefix(text, config, ws)
    ensures vs[k] == ws[k] && Resume(config, vs, k + 1) == Resume(config, ws, k + 1)
  {
    assert WindowAt(text, config, vs, k) && WindowAt(text, config, ws, k);
  }

  lemma {:induction false} PrefixesAgree(text: Text, config: ChunkingConfig, vs: seq<Window>, ws: seq<Window>, k: nat)
    requires config.Valid() && IsPrefix(text, config, vs) && IsPrefix(text, config, ws) && k <= |vs| && k <= |ws|
    ensures forall i :: 0 <= i < k ==> vs[i] == ws[i]
    ensures Resume(config, vs, k) == Resume(config, ws, k)
  {
    if k > 0 {
      PrefixesAgree(text, config, vs, ws, k - 1);
      SameWindow(text, config, vs, ws, k - 1);
    }
  }

  lemma {:induction false} MustContinue(text: Text, config: ChunkingConfig, vs: seq<Window>, k: nat)
    requires config.Valid() && IsPrefix(text, config, vs) && k < |vs|
    ensures SkipSpaces(text, Resume(config, vs, k)) < |text|
    ensures 0 < k ==> vs[k - 1].end < |text|
  {
    assert WindowAt(text, config, vs, k);
  }

  lemma {:induction false} NotLonger(text: Text, config: ChunkingConfig, vs: seq<Window>, ws: seq<Window>)
    requires config.Valid() && IsChunking(text, config, vs) && IsChunking(text, config, ws)
    ensures |vs| <= |ws|
  {
    if |ws| < |vs| {
      PrefixesAgree(text, config, vs, ws, |ws|);
      MustContinue(text, config, vs, |ws|);
      assert false;
    }
  }

  /** The chunker is deterministic: a text has one windowing. */
  lemma {:induction false} ChunkingIsUnique(text: Text, config: ChunkingConfig, vs: seq<Window>, ws: seq<Window>)
    requires config.Valid() && IsChunking(text, config, vs) && IsChunking(text, config, ws)
    ensures vs == ws
  {
    NotLonger(text, config, vs, ws);
    NotLonger(text, config, ws, vs);
    PrefixesAgree(text, config, vs, ws, |vs|);
  }

  // ---------------------------------------------------------------- window and progress laws

  /** What every single window satisfies. */
  ghost predicate GoodWindow(text: Text, config: ChunkingConfig, w: Window)
    requires config.Valid()
  {
    && w.start < w.end <= |text|
    && w.end - w.start <= config.chunkSize
    && !IsSpace(text[w.start]) && !IsSpace(text[w.end - 1])
  }

  /** What every pair of neighbouring windows satisfies. */
  ghost predicate GoodStep(text: Text, config: ChunkingConfig, v: Window, w: Window)
    requires config.Valid() && GoodWindow(text, config, v) && GoodWindow(text, config, w)
  {
    && v.start < w.start
    && v.end - w.start <= config.overlap
    && v.end <= w.end
    && (w.end == v.end <==> forall k :: v.end <= k < Cut(text, config, w.start) ==> IsSpace(text[k]))
    && (forall k :: v.end <= k < w.start ==> IsSpace(text[k]))
  }

  lemma {:induction false} WindowIsGood(text: Text, config: ChunkingConfig, from: nat, w: Window)
    requires config.Valid() && IsWindow(text, config, from, w)
    ensures GoodWindow(text, config, w)
  {
    EmptyBranchUnreachable(text, config, w.start);
  }

  lemma {:induction false} StepIsGood(text: Text, config: ChunkingConfig, v: Window, w: Window)
    requires config.Valid() && GoodWindow(text, config, v) && v.end < |text|
    requires IsWindow(text, config, Resume(config, [v], 1), w)
    ensures GoodWindow(text, config, w) && GoodStep(text, config, v, w)
  {
    WindowIsGood(text, config, Resume(config, [v], 1), w);
    // The `overlap + 1` floor pushes the cut beyond the previous end.
    assert v.end < Cut(text, config, w.start);
    assert !IsSpace(text[v.end - 1]) && !IsSpace(text[w.end - 1]);
  }

  /** Every window and every pair of neighbours of a chunking is good: bounded length, whitespace only
      outside, starts strictly increasing, ends never going back, overlap bounded. */
  lemma {:induction false} ChunkingIsGood(text: Text, config: ChunkingConfig, ws: seq<Window>, i: nat)
    requires config.Valid() && IsPrefix(text, config, ws) && i < |ws|
    ensures GoodWindow(text, config, ws[i])
    ensures 0 < i ==> GoodWindow(text, config, ws[i - 1]) && GoodStep(text, config, ws[i - 1], ws[i])
  {
    assert WindowAt(text, config, ws, i);
    WindowIsGood(text, config, Resume(config, ws, i), ws[i]);
    if 0 < i {
      assert WindowAt(text, config, ws, i - 1);
      WindowIsGood(text, config, Resume(config, ws, i - 1), ws[i - 1]);
      assert Resume(config, [ws[i - 1]], 1) == Resume(config, ws, i);
      StepIsGood(text, config, ws[i - 1], ws[i]);
    }
  }

  lemma {:induction false} StartsIncrease(text: Text, config: ChunkingConfig, ws: seq<Window>, i: nat, j: nat)
    requires config.Valid() && IsPrefix(text, config, ws) && i < j < |ws|
    ensures ws[i].start < ws[j].start && ws[i].end <= ws[j].end
    decreases j
  {
    ChunkingIsGood(text, config, ws, j);
    if i < j - 1 {
      StartsIncrease(text, config, ws, i, j - 1);
    }
  }

  // ---------------------------------------------------------------- losslessness

  ghost predicate Covered(ws: seq<Window>, p: int) {
    exists i :: 0 <= i < |ws| && ws[i].start <= p < ws[i].end
  }

  /** A non-whitespace character that is not in a window before `i` lies in one from `i` on. */
  lemma {:induction false} CoveredFrom(text: Text, config: ChunkingConfig, ws: seq<Window>, i: nat, p: nat)
    requires config.Valid() && IsChunking(text, config, ws) && i <= |ws|
    requires p < |text| && !IsSpace(text[p]) && (0 < i ==> ws[i - 1].end <= p)
    ensures Covered(ws, p)
    decreases |ws| - i
  {
    if 0 < i {
      ChunkingIsGood(text, config, ws, i - 1);
    }
    var from := Resume(config, ws, i);
    assert SkipSpaces(text, from) <= p;
    if i < |ws| {
      assert WindowAt(text, config, ws, i);
      if ws[i].end <= p {
        CoveredFrom(text, config, ws, i + 1, p);
      } else {
        assert ws[i].start <= p < ws[i].end;
      }
    }
  }

  /** Rebuilds text from chunk texts and offsets alone, dropping what an earlier chunk already gave. */
  function Stitch(chunks: seq<TextChunk>, covered: nat): Text {
    if chunks == [] then []
    else
      var c := chunks[0];
      if c.endOffset <= covered then Stitch(chunks[1..], covered)
      else
        var seen := Max(0, covered - c.startOffset);
        (if seen <= |c.text| then c.text[seen..] else []) + Stitch(chunks[1..], c.endOffset)
  }

  /** The characters of [lo, hi) that lie in some window, in document order. */
  ghost function Kept(text: Text, ws: seq<Window>, lo: nat, hi: nat): Text
    requires hi <= |text|
    decreases hi - lo
  {
    if lo >= hi then []
    else (if Covered(ws, lo) then [text[lo]] else []) + Kept(text, ws, lo + 1, hi)
  }

  lemma {:induction false} KeptSplit(text: Text, ws: seq<Window>, lo: nat, mid: nat, hi: nat)
    requires lo <= mid <= hi <= |text|
    ensures Kept(text, ws, lo, hi) == Kept(text, ws, lo, mid) + Kept(text, ws, mid, hi)
    decreases mid - lo
  {
    if lo < mid {
      KeptSplit(text, ws, lo + 1, mid, hi);
    }
  }

  lemma {:induction false} KeptAll(text: Text, ws: seq<Window>, lo: nat, hi: nat)
    requires lo <= hi <= |text| && forall p :: lo <= p < hi ==> Covered(ws, p)
    ensures Kept(text, ws, lo, hi) == text[lo..hi]
    decreases hi - lo
  {
    if lo < hi {
      KeptAll(text, ws, lo + 1, hi);
      assert text[lo..hi] == [text[lo]] + text[lo + 1..hi];
    }
  }

  lemma {:induction false} KeptNone(text: Text, ws: seq<Window>, lo: nat, hi: nat)
    requires lo <= hi <= |text| && forall p :: lo <= p < hi ==> !Covered(ws, p)
    ensures Kept(text, ws, lo, hi) == []
    decreases hi - lo
  {
    if lo < hi {
      KeptNone(text, ws, lo + 1, hi);
    }
  }

  lemma {:induction false} KeptSame(text: Text, ws: seq<Window>, vs: seq<Window>, lo: nat, hi: nat)
    requires lo <= hi <= |text| && forall p :: lo <= p < hi ==> Covered(ws, p) == Covered(vs, p)
    ensures Kept(text, ws, lo, hi) == Kept(text, vs, lo, hi)
    decreases hi - lo
  {
    if lo < hi {
      KeptSame(text, ws, vs, lo + 1, hi);
    }
  }

  /** Chunks as they come out of the chunker, from some index on. */
  ghost predicate Slices(text: Text, ws: seq<Window>, chunks: seq<TextChunk>) {
    && |chunks| == |ws|
    && (forall i :: 0 <= i < |ws| ==>
      && ws[i].start < ws[i].end <= |text|
      && chunks[i].startOffset == ws[i].start && chunks[i].endOffset == ws[i].end
      && chunks[i].text == text[ws[i].start..ws[i].end])
    && (forall i, j :: 0 <= i < j < |ws| ==> ws[i].start < ws[j].start)
  }

  lemma {:induction false} CoveredTail(ws: seq<Window>, p: int)
    requires ws != [] && ws[0].end <= p
    ensures Covered(ws, p) == Covered(ws[1..], p)
  {
    var rest := ws[1..];
    if Covered(rest, p) {
      var i :| 0 <= i < |rest| && rest[i].start <= p < rest[i].end;
      assert ws[i + 1] == rest[i];
    }
    if Covered(ws, p) {
      var i :| 0 <= i < |ws| && ws[i].start <= p < ws[i].end;
      assert rest[i - 1] == ws[i];
    }
  }

  /** What the first window contributes to the kept text beyond `covered`. */
  lemma {:induction false} KeptHead(text: Text, ws: seq<Window>, covered: nat)
    requires ws != [] && covered < ws[0].end <= |text| && ws[0].start < ws[0].end
    requires forall j :: 0 < j < |ws| ==> ws[0].start < ws[j].start
    ensures Kept(text, ws, covered, ws[0].end) == text[Max(covered, ws[0].start)..ws[0].end]
  {
    var w, mid := ws[0], Max(covered, ws[0].start);
    if covered < mid {
      forall p | covered <= p < mid
        ensures !Covered(ws, p)
      {
        assert forall j :: 0 <= j < |ws| ==> w.start <= ws[j].start;
      }
      KeptNone(text, ws, covered, mid);
    }
    if mid < w.end {
      forall p | mid <= p < w.end
        ensures Covered(ws, p)
      {
        assert ws[0].start <= p < ws[0].end;
      }
      KeptAll(text, ws, mid, w.end);
      KeptSplit(text, ws, covered, mid, w.end);
    }
  }

  lemma {:induction false} StitchHead(text: Text, ws: seq<Window>, chunks: seq<TextChunk>, covered: nat)
    requires ws != [] && Slices(text, ws, chunks) && covered < ws[0].end
    ensures Stitch(chunks, covered) == Kept(text, ws, covered, ws[0].end) + Stitch(chunks[1..], ws[0].end)
    ensures Kept(text, ws, covered, |text|) == Kept(text, ws, covered, ws[0].end) + Kept(text, ws, ws[0].end, |text|)
  {
    var w := ws[0];
    KeptHead(text, ws, covered);
    KeptSplit(text, ws, covered, w.end, |text|);
    var mid := Max(covered, w.start);
    assert text[w.start..w.end][mid - w.start..] == text[mid..w.end];
  }

  lemma {:induction false} StitchIsKept(text: Text, ws: seq<Window>, chunks: seq<TextChunk>, covered: nat)
    requires Slices(text, ws, chunks) && covered <= |text|
    ensures Stitch(chunks, covered) == Kept(text, ws, covered, |text|)
    decreases |ws|
  {
    if ws == [] {
      KeptNone(text, ws, covered, |text|);
    } else {
      var w, lo := ws[0], Max(covered, ws[0].end);
      forall p | lo <= p < |text|
        ensures Covered(ws, p) == Covered(ws[1..], p)
      {
        CoveredTail(ws, p);
      }
      KeptSame(text, ws, ws[1..], lo, |text|);
      StitchIsKept(text, ws[1..], chunks[1..], lo);
      if w.end > covered {
        StitchHead(text, ws, chunks, covered);
      }
    }
  }

  lemma {:induction false} KeptLosesOnlySpace(text: Text, ws: seq<Window>, lo: nat)
    requires lo <= |text| && forall p :: lo <= p < |text| && !IsSpace(text[p]) ==> Covered(ws, p)
    ensures NonSpace(Kept(text, ws, lo, |text|)) == NonSpace(text[lo..])
    decreases |text| - lo
  {
    if lo < |text| {
      KeptLosesOnlySpace(text, ws, lo + 1);
      assert text[lo..][1..] == text[lo + 1..];
      NonSpaceConcat(if Covered(ws, lo) then [text[lo]] else [], Kept(text, ws, lo + 1, |text|));
    }
  }

  /** Chunking is lossless: stitching the chunks by offset gives exactly the covered part of the
      document, and what is missing is whitespace only. */
  lemma {:induction false} ChunkingIsLossless(config: ChunkingConfig, document: NormalizedDocument,
                                              sha256: Text -> Digest, ws: seq<Window>, chunks: seq<TextChunk>)
    requires config.Valid() && IsChunking(document.text, config, ws) && ChunksOfWindows(document, sha256, ws, chunks)
    ensures Stitch(chunks, 0) == Kept(document.text, ws, 0, |document.text|)
    ensures forall p :: 0 <= p < |document.text| && !Covered(ws, p) ==> IsSpace(document.text[p])
    ensures NonSpace(Stitch(chunks, 0)) == NonSpace(document.text)
  {
    var text := document.text;
    forall i | 0 <= i < |ws|
      ensures GoodWindow(text, config, ws[i])
      ensures chunks[i].startOffset == ws[i].start && chunks[i].endOffset == ws[i].end
      ensures chunks[i].text == text[ws[i].start..ws[i].end]
    {
      ChunkingIsGood(text, config, ws, i);
      assert ChunkAt(document, sha256, ws, chunks, i);
    }
    forall i, j | 0 <= i < j < |ws|
      ensures ws[i].start < ws[j].start
    {
      StartsIncrease(text, config, ws, i, j);
    }
    assert Slices(text, ws, chunks);
    StitchIsKept(text, ws, chunks, 0);
    forall p | 0 <= p < |text| && !IsSpace(text[p])
      ensures Covered(ws, p)
    {
      CoveredFrom(text, config, ws, 0, p);
    }
    KeptLosesOnlySpace(text, ws, 0);
    assert text[0..] == text;
  }

  // ---------------------------------------------------------------- what the durable rows rely on

  lemma {:induction false} SliceHasText(text: Text, lo: nat, hi: nat)
    requires lo < hi <= |text| && !IsSpace(text[lo])
    ensures !AllSpace(text[lo..hi]) && !AllSpace(text)
  {
    assert text[lo..hi][0] == text[lo];
    assert text[lo] in text[lo..hi] && text[lo] in text;
  }

  /** A text has no chunk exactly when it is blank, and every chunk is numbered in order, carries the digest of its
      own text, and has text that is not blank. */
  lemma {:induction false} ChunksAreDurable(config: ChunkingConfig, document: NormalizedDocument,
                                            sha256: Text -> Digest,
                                            ws: seq<Window>, chunks: seq<TextChunk>)
    requires config.Valid() && IsChunking(document.text, config, ws) && ChunksOfWindows(document, sha256, ws, chunks)
    ensures chunks == [] <==> AllSpace(document.text)
    ensures forall i :: 0 <= i < |chunks| ==>
      chunks[i].chunkIndex == i && chunks[i].contentHash == sha256(chunks[i].text) && !AllSpace(chunks[i].text)
  {
    var text := document.text;
    forall i | 0 <= i < |chunks|
      ensures chunks[i].chunkIndex == i && chunks[i].contentHash == sha256(chunks[i].text) && !AllSpace(chunks[i].text)
    {
      assert ChunkAt(document, sha256, ws, chunks, i);
      ChunkingIsGood(text, config, ws, i);
      SliceHasText(text, ws[i].start, ws[i].end);
    }
    if chunks != [] {
      ChunkingIsGood(text, config, ws, 0);
      SliceHasText(text, ws[0].start, ws[0].end);
    }
    if !AllSpace(text) {
      var c :| c in text && !IsSpace(c);
      var p :| 0 <= p < |text| && text[p] == c;
      CoveredFrom(text, config, ws, 0, p);
    }
  }

  // ---------------------------------------------------------------- exact count without whitespace

  lemma {:induction false} OccurrenceLast(text: Text, pattern: Text, k: nat)
    requires pattern != [] && OccursAt(text, pattern, k)
    ensures pattern[|pattern| - 1] in text
  {
    assert text[k..k + |pattern|][|pattern| - 1] == text[k + |pattern| - 1];
  }

  lemma {:induction false} NoMatch(text: Text, patterns: seq<Text>, keep: nat, lo: nat, hi: nat)
    requires SpaceFree(text) && hi <= |text|
    requires forall pattern <- patterns :: keep < |pattern| && IsSpace(pattern[|pattern| - 1])
    ensures LastMatch(text, patterns, keep, lo, hi) == -1
  {
    if patterns != [] {
      var i, pattern := RFind(text, patterns[0], lo, hi), patterns[0];
      NoMatch(text, patterns[1..], keep, lo, hi);
      assert IsSpace(pattern[|pattern| - 1]);
      if i >= 0 {
        OccurrenceLast(text, pattern, i);
      }
    }
  }

  lemma {:induction false} NoPreferredCut(text: Text, levels: seq<Level>, lo: nat, hi: nat)
    requires SpaceFree(text) && lo < hi <= |text| && forall level <- levels :: ValidLevel(level)
    ensures PreferredCut(text, levels, lo, hi) == hi
  {
    if levels != [] {
      assert ValidLevel(levels[0]);
      NoMatch(text, levels[0].patterns, levels[0].keep, lo, hi);
      NoPreferredCut(text, levels[1..], lo, hi);
    }
  }

  lemma {:induction false} CutWithoutSpace(text: Text, config: ChunkingConfig, start: nat)
    requires config.Valid() && SpaceFree(text) && start < |text|
    ensures Cut(text, config, start) == Min(start + config.chunkSize, |text|)
    ensures ChunkEnd(text, config, start) == Cut(text, config, start)
  {
    var hi := Min(start + config.chunkSize, |text|);
    var lo := MinimumBoundary(config, start);
    if lo < hi {
      NoPreferredCut(text, LEVELS, lo, hi);
    }
    assert forall k :: 0 <= k < |text| ==> text[k] in text;
  }

  /** Chunks needed for a text of the given length without whitespace. */
  function ExpectedCount(config: ChunkingConfig, length: nat): (count: int)
    requires config.Valid()
  {
    var step := config.chunkSize - config.overlap;
    if length == 0 then 0
    else if length <= config.overlap then 1
    else (length - config.overlap + step - 1) / step
  }

  /** On text without whitespace the k-th chunk starts at `k * (chunkSize - overlap)`. */
  lemma {:induction false} RegularWindows(text: Text, config: ChunkingConfig, ws: seq<Window>, step: nat, k: nat)
    requires config.Valid() && SpaceFree(text) && IsPrefix(text, config, ws) && k < |ws|
    requires step == config.chunkSize - config.overlap
    ensures ws[k].start == k * step && ws[k].end == Min(k * step + config.chunkSize, |text|)
  {
    var from := Resume(config, ws, k);
    assert WindowAt(text, config, ws, k);
    if k > 0 {
      RegularWindows(text, config, ws, step, k - 1);
      Distribute(k, 1, step);
      assert from == k * step;
    }
    assert text[ws[k].start] in text;
    assert from < |text|;
    assert text[from] in text;
    CutWithoutSpace(text, config, from);
  }

  /** ... and the number of chunks is `ceil((length - overlap) / (chunkSize - overlap))`. */
  lemma {:induction false} ExactChunkCount(text: Text, config: ChunkingConfig, ws: seq<Window>)
    requires config.Valid() && SpaceFree(text) && IsChunking(text, config, ws)
    ensures |ws| == ExpectedCount(config, |text|)
  {
    var step, n := config.chunkSize - config.overlap, |ws|;
    var resume := Resume(config, ws, n);
    assert resume < |text| ==> text[resume] in text;
    if n > 0 {
      ChunkingIsGood(text, config, ws, n - 1);
      RegularWindows(text, config, ws, step, n - 1);
      assert ReachesEnd(text, ws);
      Distribute(n, 1, step);
      if n > 1 {
        RegularWindows(text, config, ws, step, n - 2);
        Distribute(n - 1, 1, step);
      }
      if |text| > config.overlap {
        CeilingIs(|text| - config.overlap, step, n);
      }
    }
  }

  lemma {:induction false} CeilingIs(m: nat, step: nat, n: nat)
    requires 0 < step && 0 < n && n * step - step < m <= n * step
    ensures (m + step - 1) / step == n
  {
    DivUnique(m + step - 1, n, m + step - 1 - n * step, step);
  }

  lemma {:induction false} DivUnique(n: int, q: int, r: int, d: nat)
    requires 0 < d && n == q * d + r && 0 <= r < d
    ensures n / d == q
  {
    var p := n / d;
    Distribute(p, q, d);
    if p > q {
      AtLeast(p - q, d);
    } else if p < q {
      Distribute(q, p, d);
      AtLeast(q - p, d);
    }
  }

  lemma {:induction false} Distribute(p: int, q: int, d: int)
    ensures (p - q) * d == p * d - q * d
  {
  }

  lemma {:induction false} AtLeast(k: int, d: nat)
    requires k >= 1
    ensures k * d >= d
  {
  }
}
