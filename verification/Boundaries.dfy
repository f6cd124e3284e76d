/** Where chunks begin and end, in characters. */
module Boundaries {
  import opened Chunking
  import opened CodePoints
  import opened Identifiers
  import opened Options

  datatype Boundary = Paragraph | Line | Sentence | Word

  /** A boundary in [lo, hi): two line feeds; one; a sentence mark and a space; a space or a tab. */
  predicate BoundaryAt(text: Text, boundary: Boundary, lo: int, hi: int, i: int)
    requires 0 <= lo && hi <= |text|
  {
    match boundary
    case Paragraph => lo <= i && i + 2 <= hi && text[i] == 0x0A && text[i + 1] == 0x0A
    case Line => lo <= i < hi && text[i] == 0x0A
    case Sentence => lo <= i && i + 2 <= hi && text[i] in {0x2E, 0x21, 0x3F} && text[i + 1] == 0x20
    case Word => lo <= i < hi && text[i] in {0x20, 0x09}
  }

  ghost predicate HasBoundary(text: Text, boundary: Boundary, lo: int, hi: int)
    requires 0 <= lo && hi <= |text|
  {
    exists i :: BoundaryAt(text, boundary, lo, hi, i)
  }

  ghost predicate IsLastBoundary(text: Text, boundary: Boundary, lo: int, hi: int, i: int)
    requires 0 <= lo && hi <= |text|
  {
    BoundaryAt(text, boundary, lo, hi, i) && forall k :: BoundaryAt(text, boundary, lo, hi, k) ==> k <= i
  }

  lemma {:induction false} OneCharacter(text: Text, c: int, i: int)
    ensures OccursAt(text, [c], i) <==> 0 <= i < |text| && text[i] == c
  {
    if 0 <= i < |text| {
      assert text[i..i + 1] == [text[i]];
    }
  }

  lemma {:induction false} TwoCharacters(text: Text, c: int, d: int, i: int)
    ensures OccursAt(text, [c, d], i) <==> 0 <= i && i + 2 <= |text| && text[i] == c && text[i + 1] == d
  {
    if 0 <= i && i + 2 <= |text| {
      assert text[i..i + 2] == [text[i], text[i + 1]];
    }
  }

  ghost predicate Spells(text: Text, level: Level, boundary: Boundary, lo: nat, hi: nat)
    requires hi <= |text|
  {
    && level.keep == (if boundary == Sentence then 1 else 0)
    && forall i {:trigger MatchAt(text, level.patterns, lo, hi, i)} {:trigger BoundaryAt(text, boundary, lo, hi, i)} ::
         MatchAt(text, level.patterns, lo, hi, i) <==> BoundaryAt(text, boundary, lo, hi, i)
  }

  lemma {:induction false} LevelSpells(text: Text, level: Level, boundary: Boundary, lo: nat, hi: nat)
    requires hi <= |text|
    requires level == match boundary
                      case Paragraph => Level([[NEWLINE, NEWLINE]], 0)
                      case Line => Level([[NEWLINE]], 0)
                      case Sentence => Level([[0x2E, SPACE], [0x21, SPACE], [0x3F, SPACE]], 1)
                      case Word => Level([[SPACE], [TAB]], 0)
    ensures Spells(text, level, boundary, lo, hi)
  {
    forall i
      ensures MatchAt(text, level.patterns, lo, hi, i) <==> BoundaryAt(text, boundary, lo, hi, i)
    {
      var patterns := level.patterns;
      match boundary
      case Paragraph =>
        TwoCharacters(text, NEWLINE, NEWLINE, i);
        assert [NEWLINE, NEWLINE] in patterns;
      case Line =>
        OneCharacter(text, NEWLINE, i);
        assert [NEWLINE] in patterns;
      case Sentence =>
        TwoCharacters(text, 0x2E, SPACE, i);
        TwoCharacters(text, 0x21, SPACE, i);
        TwoCharacters(text, 0x3F, SPACE, i);
        assert [0x2E, SPACE] in patterns && [0x21, SPACE] in patterns && [0x3F, SPACE] in patterns;
      case Word =>
        OneCharacter(text, SPACE, i);
        OneCharacter(text, TAB, i);
        assert [SPACE] in patterns && [TAB] in patterns;
    }
  }

  lemma {:induction false} LastOfLevel(text: Text, boundary: Boundary, level: Level, lo: nat, hi: nat, cut: int)
    requires hi <= |text| && Spells(text, level, boundary, lo, hi) && LastOf(text, level, lo, hi, cut)
    requires HasBoundary(text, boundary, lo, hi)
    ensures IsLastBoundary(text, boundary, lo, hi, cut - if boundary == Sentence then 1 else 0)
  {
    var first :| BoundaryAt(text, boundary, lo, hi, first);
    assert MatchAt(text, level.patterns, lo, hi, first);
    assert MatchAt(text, level.patterns, lo, hi, cut - level.keep);
  }

  lemma {:induction false} NoneOfLevel(text: Text, boundary: Boundary, levels: seq<Level>, lo: nat, hi: nat)
    requires hi <= |text| && levels != [] && Spells(text, levels[0], boundary, lo, hi)
    requires !HasBoundary(text, boundary, lo, hi)
    ensures Unmatched(text, levels, lo, hi, 0)
  {
    forall i
      ensures !MatchAt(text, levels[0].patterns, lo, hi, i)
    {
      assert !BoundaryAt(text, boundary, lo, hi, i);
    }
  }

  lemma {:induction false} BoundaryDecides(text: Text, levels: seq<Level>, boundary: Boundary, lo: nat, hi: nat)
    requires lo < hi <= |text| && levels != [] && forall level <- levels :: ValidLevel(level)
    requires Spells(text, levels[0], boundary, lo, hi)
    ensures HasBoundary(text, boundary, lo, hi) ==>
      IsLastBoundary(text, boundary, lo, hi,
        PreferredCut(text, levels, lo, hi) - if boundary == Sentence then 1 else 0)
    ensures !HasBoundary(text, boundary, lo, hi) ==>
      PreferredCut(text, levels, lo, hi) == PreferredCut(text, levels[1..], lo, hi)
  {
    FirstLevelCut(text, levels, lo, hi);
    if HasBoundary(text, boundary, lo, hi) {
      LastOfLevel(text, boundary, levels[0], lo, hi, PreferredCut(text, levels, lo, hi));
    } else {
      NoneOfLevel(text, boundary, levels, lo, hi);
    }
  }

  /** The cut is at the last boundary of the first kind that occurs, behind its mark if it ends a sentence; the end
      when none occurs. */
  ghost predicate CutAtFirstOf(text: Text, boundaries: seq<Boundary>, lo: int, hi: int, cut: int)
    requires 0 <= lo && hi <= |text|
  {
    if boundaries == [] then cut == hi
    else if HasBoundary(text, boundaries[0], lo, hi) then
      IsLastBoundary(text, boundaries[0], lo, hi, cut - if boundaries[0] == Sentence then 1 else 0)
    else CutAtFirstOf(text, boundaries[1..], lo, hi, cut)
  }

  lemma {:induction false} LevelsAreBoundaries(text: Text, levels: seq<Level>, boundaries: seq<Boundary>, lo: nat,
                                               hi: nat)
    requires lo < hi <= |text| && |levels| == |boundaries| && forall level <- levels :: ValidLevel(level)
    requires forall l :: 0 <= l < |levels| ==> Spells(text, levels[l], boundaries[l], lo, hi)
    ensures CutAtFirstOf(text, boundaries, lo, hi, PreferredCut(text, levels, lo, hi))
  {
    if levels != [] {
      BoundaryDecides(text, levels, boundaries[0], lo, hi);
      LevelsAreBoundaries(text, levels[1..], boundaries[1..], lo, hi);
    }
  }

  lemma {:induction false} LevelsFollowThePreference(text: Text, levels: seq<Level>, boundaries: seq<Boundary>, lo: nat,
                                                     hi: nat)
    requires lo < hi <= |text| && levels == LEVELS && boundaries == [Paragraph, Line, Sentence, Word]
    ensures CutAtFirstOf(text, boundaries, lo, hi, PreferredCut(text, levels, lo, hi))
  {
    forall l | 0 <= l < 4
      ensures Spells(text, levels[l], boundaries[l], lo, hi)
    {
      LevelSpells(text, levels[l], boundaries[l], lo, hi);
    }
    LevelsAreBoundaries(text, levels, boundaries, lo, hi);
  }

  /** What a chunk ends with, in characters: unless the text ends first or leaves no room, the last paragraph break
      beyond half the chunk size and beyond the overlap; without one the last line break; without one the last sentence
      mark that a space follows; without one the last space or tab; without one the full size. */
  ghost predicate IsCut(text: Text, config: ChunkingConfig, start: nat, cut: int)
    requires config.Valid() && start < |text|
  {
    var half := config.chunkSize / 2;
    var lo := if half < config.overlap + 1 then start + config.overlap + 1 else start + half;
    if |text| <= start + config.chunkSize then cut == |text|
    else if start + config.chunkSize <= lo then cut == start + config.chunkSize
    else CutAtFirstOf(text, [Paragraph, Line, Sentence, Word], lo, start + config.chunkSize, cut)
  }

  lemma {:induction false} CutIsPreferred(text: Text, config: ChunkingConfig, start: nat, hardEnd: nat)
    requires config.Valid() && start < hardEnd <= |text| && hardEnd == Min(start + config.chunkSize, |text|)
    ensures IsCut(text, config, start, SelectEnd(text, config, start, hardEnd))
  {
    var lo := MinimumBoundary(config, start);
    if hardEnd < |text| && lo < hardEnd {
      LevelsFollowThePreference(text, LEVELS, [Paragraph, Line, Sentence, Word], lo, hardEnd);
    }
  }

  // ---------------------------------------------------------------- the windows

  /** The next chunk begins at the first character that is not whitespace, from the overlap before the last chunk's end
      on, and at least one character after its start; the first chunk at the text's first such character. */
  ghost predicate BeginsAfter(text: Text, config: ChunkingConfig, ws: seq<Window>, i: nat)
    requires i < |ws|
  {
    var from := if i == 0 then 0
                else if ws[i - 1].end - config.overlap > ws[i - 1].start then ws[i - 1].end - config.overlap
                else ws[i - 1].start + 1;
    from <= ws[i].start < |text| && !IsSpace(text[ws[i].start])
    && forall k :: from <= k < ws[i].start ==> IsSpace(text[k])
  }

  /** The chunk ends where its cut leaves it, the whitespace before the cut taken off. */
  ghost predicate EndsAt(text: Text, config: ChunkingConfig, w: Window)
    requires config.Valid()
  {
    && w.start < w.end <= |text| && !IsSpace(text[w.end - 1])
    && exists cut: nat ::
         && w.end <= cut <= |text| && (forall k :: w.end <= k < cut ==> IsSpace(text[k]))
         && IsCut(text, config, w.start, cut)
  }

  lemma {:induction false} TrimmedEnds(text: Text, config: ChunkingConfig, start: nat, cut: nat)
    requires config.Valid() && start < cut <= |text| && !IsSpace(text[start]) && IsCut(text, config, start, cut)
    ensures EndsAt(text, config, Window(start, TrimSpaces(text, start, cut)))
  {
    var end := TrimSpaces(text, start, cut);
    assert end > start;
  }

  lemma {:induction false} CutOf(text: Text, config: ChunkingConfig, start: nat)
    requires config.Valid() && start < |text|
    ensures IsCut(text, config, start, Cut(text, config, start))
  {
    var hardEnd := Min(start + config.chunkSize, |text|);
    CutIsPreferred(text, config, start, hardEnd);
    assert Cut(text, config, start) == SelectEnd(text, config, start, hardEnd);
  }

  lemma {:induction false} WindowEnds(text: Text, config: ChunkingConfig, start: nat)
    requires config.Valid() && start < |text| && !IsSpace(text[start])
    ensures EndsAt(text, config, Window(start, ChunkEnd(text, config, start)))
  {
    CutOf(text, config, start);
    TrimmedEnds(text, config, start, Cut(text, config, start));
  }

  lemma {:induction false} WindowsFollowTheText(text: Text, config: ChunkingConfig, ws: seq<Window>, i: nat)
    requires config.Valid() && IsChunking(text, config, ws) && i < |ws|
    ensures BeginsAfter(text, config, ws, i) && EndsAt(text, config, ws[i])
    ensures i > 0 ==> ws[i - 1].end < |text|
  {
    assert WindowAt(text, config, ws, i);
    WindowEnds(text, config, ws[i].start);
  }

  /** After the last chunk there is only whitespace to come, or its end is the text's. */
  lemma {:induction false} NothingIsLeft(text: Text, config: ChunkingConfig, ws: seq<Window>)
    requires config.Valid() && IsChunking(text, config, ws)
    ensures ws == [] ==> AllSpace(text)
    ensures ws != [] ==>
      forall k :: ws[|ws| - 1].end <= k < |text| ==> IsSpace(text[k])
  {
    if ws == [] {
      forall c <- text
        ensures IsSpace(c)
      {
        var k :| 0 <= k < |text| && text[k] == c;
      }
    } else {
      WindowsFollowTheText(text, config, ws, |ws| - 1);
    }
  }

  // ---------------------------------------------------------------- tokens

  /** A run of characters that are not whitespace begins here. */
  predicate RunBegins(text: Text, i: int) {
    0 <= i < |text| && !IsSpace(text[i]) && (i == 0 || IsSpace(text[i - 1]))
  }

  /** The places where runs begin. */
  ghost function RunStarts(text: Text): set<int> {
    set i | 0 <= i < |text| && RunBegins(text, i)
  }

  lemma {:induction false} RunStartsNext(text: Text)
    requires text != []
    ensures
      var last := |text| - 1;
      var before := RunStarts(text[..last]);
      last !in before && RunStarts(text) == if RunBegins(text, last) then before + {last} else before
  {
    var last := |text| - 1;
    assert forall i :: 0 <= i < last ==> (RunBegins(text[..last], i) <==> RunBegins(text, i));
  }

  /** The token count of a chunk is its number of runs of characters that are not whitespace. */
  lemma {:induction false} TokensAreRuns(text: Text)
    ensures TokenCount(text) == |RunStarts(text)|
  {
    if text == [] {
      assert RunStarts(text) == {};
    } else {
      TokensAreRuns(text[..|text| - 1]);
      RunStartsNext(text);
    }
  }

  // ---------------------------------------------------------------- what a chunk carries

  /** A chunk is numbered in order and carries its slice of the text with its place, its digest and its tokens. */
  lemma {:induction false} ChunkIsItsSlice(document: NormalizedDocument, sha256: Text -> Digest, ws: seq<Window>,
                                           chunks: seq<TextChunk>, i: nat)
    requires ChunksOfWindows(document, sha256, ws, chunks) && i < |chunks|
    ensures |chunks| == |ws| && ws[i].start <= ws[i].end <= |document.text|
    ensures
      var chunk := chunks[i];
      && chunk.chunkIndex == i && chunk.startOffset == ws[i].start && chunk.endOffset == ws[i].end
      && chunk.text == document.text[ws[i].start..ws[i].end] && chunk.contentHash == sha256(chunk.text)
      && chunk.tokenCount == |RunStarts(chunk.text)|
      && (forall page :: page in chunk.pageNumbers <==> IsPageOf(document.spans, ws[i], page))
  {
    assert ChunkAt(document, sha256, ws, chunks, i);
    TokensAreRuns(chunks[i].text);
    PagesAreOverlapping(document.spans, ws[i]);
  }

  /** The span is on the page and shares a character with the window. */
  predicate ShowsPage(span: SourceSpan, w: Window, page: int) {
    span.pageNumber == Some(page) && span.startOffset < w.end && w.start < span.endOffset
  }

  ghost predicate IsPageOf(spans: seq<SourceSpan>, w: Window, page: int) {
    exists span <- spans :: ShowsPage(span, w, page)
  }

  /** Some span shows the one page before any span shows the other. */
  ghost predicate ShownEarlier(spans: seq<SourceSpan>, w: Window, page: int, other: int) {
    exists a :: 0 <= a < |spans| && ShowsPage(spans[a], w, page)
      && forall b :: 0 <= b < |spans| && ShowsPage(spans[b], w, other) ==> a < b
  }

  lemma {:induction false} OneMoreSpan(front: seq<SourceSpan>, last: SourceSpan, w: Window, page: int)
    ensures IsPageOf(front + [last], w, page) <==> IsPageOf(front, w, page) || ShowsPage(last, w, page)
  {
    assert last in front + [last];
    assert forall span :: span in front ==> span in front + [last];
  }

  lemma {:induction false} PagesAreOverlapping(spans: seq<SourceSpan>, w: Window)
    ensures forall page :: page in PagesOf(spans, w.start, w.end) <==> IsPageOf(spans, w, page)
  {
    if spans != [] {
      var front, last := spans[..|spans| - 1], spans[|spans| - 1];
      PagesAreOverlapping(front, w);
      assert spans == front + [last];
      forall page
        ensures page in PagesOf(spans, w.start, w.end) <==> IsPageOf(spans, w, page)
      {
        OneMoreSpan(front, last, w, page);
      }
    }
  }

  lemma {:induction false} StaysEarlier(front: seq<SourceSpan>, last: SourceSpan, w: Window, page: int, other: int)
    requires ShownEarlier(front, w, page, other)
    ensures ShownEarlier(front + [last], w, page, other)
  {
    var a :| 0 <= a < |front| && ShowsPage(front[a], w, page)
      && forall b :: 0 <= b < |front| && ShowsPage(front[b], w, other) ==> a < b;
    assert ShowsPage((front + [last])[a], w, page);
  }

  lemma {:induction false} NewPageIsLast(front: seq<SourceSpan>, last: SourceSpan, w: Window, page: int, other: int)
    requires IsPageOf(front, w, page) && !IsPageOf(front, w, other)
    ensures ShownEarlier(front + [last], w, page, other)
  {
    var span :| span in front && ShowsPage(span, w, page);
    var a :| 0 <= a < |front| && front[a] == span;
    assert ShowsPage((front + [last])[a], w, page);
    assert forall b :: 0 <= b < |front| ==> !ShowsPage(front[b], w, other);
  }

  /** No page comes twice, and the pages follow the spans that show them first. */
  lemma {:induction false} PagesInOrder(spans: seq<SourceSpan>, w: Window, i: nat, j: nat)
    requires i < j < |PagesOf(spans, w.start, w.end)|
    ensures
      var pages := PagesOf(spans, w.start, w.end);
      pages[i] != pages[j] && ShownEarlier(spans, w, pages[i], pages[j])
  {
    var front, last := spans[..|spans| - 1], spans[|spans| - 1];
    var pages, before := PagesOf(spans, w.start, w.end), PagesOf(front, w.start, w.end);
    assert spans == front + [last];
    PagesAreOverlapping(front, w);
    if j < |before| {
      PagesInOrder(front, w, i, j);
      StaysEarlier(front, last, w, pages[i], pages[j]);
    } else {
      assert before[i] in before;
      NewPageIsLast(front, last, w, pages[i], pages[j]);
    }
  }
}
