/** Page provenance across the two stages: section spans from the normaliser, windows from the chunker. */
module Provenance {
  import opened CodePoints
  import opened Chunking
  import opened Options
  import opened Documents

  /** The PDF parser numbers its sections as pages, from one. */
  ghost predicate IsPdf(sections: seq<Section>) {
    forall i :: 0 <= i < |sections| ==> sections[i].pageNumber == Some(i + 1)
  }

  /** Spans in reading order, with strictly increasing pages. */
  ghost predicate Ordered(spans: seq<SourceSpan>) {
    && (forall k :: 0 <= k < |spans| ==> spans[k].pageNumber.Some? && spans[k].startOffset < spans[k].endOffset)
    && (forall j, k :: 0 <= j < k < |spans| ==>
      && spans[j].endOffset < spans[k].startOffset
      && spans[j].pageNumber.value < spans[k].pageNumber.value)
  }

  lemma {:induction false} SpansDoNotMeet(fragments: seq<Section>, kept: seq<nat>, document: NormalizedDocument,
                                          j: nat, k: nat)
    requires Tiled(fragments, kept, document) && j < k < |kept|
    ensures document.spans[j].endOffset < document.spans[k].startOffset
    decreases k
  {
    assert SpanAt(fragments, kept, document, k);
    if j < k - 1 {
      assert SpanAt(fragments, kept, document, k - 1);
      SpansDoNotMeet(fragments, kept, document, j, k - 1);
    }
  }

  lemma {:induction false} PdfSpansAreOrdered(sections: seq<Section>, document: NormalizedDocument)
    requires IsPdf(sections) && Tiled(Fragments(sections), KeptIndexes(Fragments(sections), |sections|), document)
    ensures Ordered(document.spans)
  {
    var fragments := Fragments(sections);
    var kept := KeptIndexes(fragments, |sections|);
    KeptAreTheNonBlank(fragments, |sections|);
    forall k | 0 <= k < |kept|
      ensures document.spans[k].pageNumber == Some(kept[k] + 1)
      ensures document.spans[k].startOffset < document.spans[k].endOffset
    {
      assert SpanAt(fragments, kept, document, k);
      PagesCarryOver(sections, kept[k]);
    }
    forall j, k | 0 <= j < k < |kept|
      ensures document.spans[j].endOffset < document.spans[k].startOffset
    {
      SpansDoNotMeet(fragments, kept, document, j, k);
    }
  }

  // ---------------------------------------------------------------- pages of one range

  /** Some character of [start, end) comes from a section with this page. */
  ghost predicate SharesCharacter(spans: seq<SourceSpan>, start: nat, end: nat, page: int) {
    exists k, p :: 0 <= k < |spans| && spans[k].pageNumber == Some(page) && InSpan(spans[k], p) && start <= p < end
  }

  predicate InSpan(span: SourceSpan, p: int) {
    span.startOffset <= p < span.endOffset
  }

  ghost predicate Increasing(pages: seq<int>) {
    forall i, j :: 0 <= i < j < |pages| ==> pages[i] < pages[j]
  }

  /** Span `k` overlaps the range and has this page. */
  ghost predicate Contributes(spans: seq<SourceSpan>, start: nat, end: nat, page: int, k: int) {
    0 <= k < |spans| && Overlaps(spans[k], start, end) && spans[k].pageNumber == Some(page)
  }

  lemma {:induction false} PagesComeFromSpans(spans: seq<SourceSpan>, start: nat, end: nat, page: int)
    ensures page in PagesOf(spans, start, end) <==> exists k :: Contributes(spans, start, end, page, k)
  {
    if spans != [] {
      var last := |spans| - 1;
      var before := spans[..last];
      PagesComeFromSpans(before, start, end, page);
      if page in PagesOf(before, start, end) {
        var k :| Contributes(before, start, end, page, k);
        assert Contributes(spans, start, end, page, k);
      } else if page in PagesOf(spans, start, end) {
        assert Contributes(spans, start, end, page, last);
      }
      if k :| Contributes(spans, start, end, page, k) {
        assert k < last ==> Contributes(before, start, end, page, k);
      }
    }
  }

  lemma {:induction false} PagesIncrease(spans: seq<SourceSpan>, start: nat, end: nat)
    requires Ordered(spans)
    ensures Increasing(PagesOf(spans, start, end))
  {
    if spans != [] {
      var last := |spans| - 1;
      var before := spans[..last];
      PagesIncrease(before, start, end);
      var pages := PagesOf(before, start, end);
      forall i | 0 <= i < |pages|
        ensures pages[i] < spans[last].pageNumber.value
      {
        PagesComeFromSpans(before, start, end, pages[i]);
        var k :| Contributes(before, start, end, pages[i], k);
        assert before[k] == spans[k];
      }
    }
  }

  lemma {:induction false} OverlapIsSharing(spans: seq<SourceSpan>, start: nat, end: nat, page: int)
    requires Ordered(spans) && start < end
    ensures SharesCharacter(spans, start, end, page) <==>
      exists k :: Contributes(spans, start, end, page, k)
  {
    if k :| Contributes(spans, start, end, page, k) {
      var p := Max(spans[k].startOffset, start);
      assert InSpan(spans[k], p);
    }
    if SharesCharacter(spans, start, end, page) {
      var k, p :| 0 <= k < |spans| && spans[k].pageNumber == Some(page) && InSpan(spans[k], p) && start <= p < end;
      assert Contributes(spans, start, end, page, k);
    }
  }

  // ---------------------------------------------------------------- every text character has a page

  lemma {:induction false} TextIsInSpan(fragments: seq<Section>, kept: seq<nat>, document: NormalizedDocument,
                                        n: nat, p: nat) returns (k: nat)
    requires Tiled(fragments, kept, document) && 0 < n <= |kept|
    requires p < document.spans[n - 1].endOffset <= |document.text| && !IsSpace(document.text[p])
    ensures k < n && InSpan(document.spans[k], p)
    decreases n
  {
    assert SpanAt(fragments, kept, document, n - 1);
    k := n - 1;
    if p < document.spans[k].startOffset {
      assert SpanAt(fragments, kept, document, n - 2);
      k := TextIsInSpan(fragments, kept, document, n - 1, p);
    }
  }

  lemma {:induction false} CharacterHasSpan(fragments: seq<Section>, kept: seq<nat>, document: NormalizedDocument,
                                            p: nat)
    returns (k: nat)
    requires Tiled(fragments, kept, document) && p < |document.text| && !IsSpace(document.text[p])
    ensures k < |document.spans| && InSpan(document.spans[k], p)
  {
    assert kept != [];
    assert SpanAt(fragments, kept, document, |kept| - 1);
    k := TextIsInSpan(fragments, kept, document, |kept|, p);
  }

  /** `min(pages)` and `max(pages)`, as stored with the durable chunk. */
  function Least(pages: seq<int>): (least: int)
    requires pages != []
    ensures least in pages && forall page <- pages :: least <= page
  {
    if |pages| == 1 then pages[0]
    else
      assert forall page <- pages :: page == pages[0] || page in pages[1..];
      Min(pages[0], Least(pages[1..]))
  }

  function Greatest(pages: seq<int>): (greatest: int)
    requires pages != []
    ensures greatest in pages && forall page <- pages :: page <= greatest
  {
    if |pages| == 1 then pages[0]
    else
      assert forall page <- pages :: page == pages[0] || page in pages[1..];
      Max(pages[0], Greatest(pages[1..]))
  }

  /** The page of the first character of a chunk is its least page, the page of the last its greatest. */
  lemma {:induction false} EndsGiveTheRange(spans: seq<SourceSpan>, w: Window, first: nat, last: nat)
    requires Ordered(spans) && w.start < w.end && first < |spans| && last < |spans|
    requires InSpan(spans[first], w.start) && InSpan(spans[last], w.end - 1)
    ensures var pages := PagesOf(spans, w.start, w.end);
            pages != [] && Least(pages) == spans[first].pageNumber.value
              && Greatest(pages) == spans[last].pageNumber.value
  {
    var pages := PagesOf(spans, w.start, w.end);
    var low, high := spans[first].pageNumber.value, spans[last].pageNumber.value;
    assert Contributes(spans, w.start, w.end, low, first) && Contributes(spans, w.start, w.end, high, last);
    PagesComeFromSpans(spans, w.start, w.end, low);
    PagesComeFromSpans(spans, w.start, w.end, high);
    forall page | page in pages
      ensures low <= page <= high
    {
      PagesComeFromSpans(spans, w.start, w.end, page);
      var k :| Contributes(spans, w.start, w.end, page, k);
      assert first <= k <= last;
    }
  }

  ghost predicate PdfChunks(sections: seq<Section>, document: NormalizedDocument, config: ChunkingConfig,
                            ws: seq<Window>) {
    && config.Valid() && IsPdf(sections)
    && Tiled(Fragments(sections), KeptIndexes(Fragments(sections), |sections|), document)
    && IsChunking(document.text, config, ws)
  }

  lemma {:induction false} SpansOfWindow(sections: seq<Section>, document: NormalizedDocument,
                                         config: ChunkingConfig, ws: seq<Window>, i: nat)
    returns (first: nat, last: nat)
    requires PdfChunks(sections, document, config, ws) && i < |ws|
    ensures first < |document.spans| && last < |document.spans| && ws[i].start < ws[i].end
    ensures InSpan(document.spans[first], ws[i].start) && InSpan(document.spans[last], ws[i].end - 1)
  {
    var fragments := Fragments(sections);
    var kept := KeptIndexes(fragments, |sections|);
    ChunkingIsGood(document.text, config, ws, i);
    first := CharacterHasSpan(fragments, kept, document, ws[i].start);
    last := CharacterHasSpan(fragments, kept, document, ws[i].end - 1);
  }

  /** Every chunk of a PDF has a non-empty, strictly increasing page list: exactly the pages that share
      a character with it. */
  lemma {:induction false} ChunkPagesAreItsPages(sections: seq<Section>, document: NormalizedDocument,
                                                 config: ChunkingConfig, ws: seq<Window>, i: nat)
    requires PdfChunks(sections, document, config, ws) && i < |ws|
    ensures var pages := PagesOf(document.spans, ws[i].start, ws[i].end);
            && pages != [] && Increasing(pages)
            && (forall page :: page in pages <==> SharesCharacter(document.spans, ws[i].start, ws[i].end, page))
  {
    var first, last := SpansOfWindow(sections, document, config, ws, i);
    PdfSpansAreOrdered(sections, document);
    EndsGiveTheRange(document.spans, ws[i], first, last);
    PagesIncrease(document.spans, ws[i].start, ws[i].end);
    forall page: int
      ensures page in PagesOf(document.spans, ws[i].start, ws[i].end)
        <==> SharesCharacter(document.spans, ws[i].start, ws[i].end, page)
    {
      PagesComeFromSpans(document.spans, ws[i].start, ws[i].end, page);
      OverlapIsSharing(document.spans, ws[i].start, ws[i].end, page);
    }
  }

  /** A later character lies in a later or the same span, so on a later or the same page. */
  lemma {:induction false} PagesFollowText(spans: seq<SourceSpan>, a: nat, b: nat, x: int, y: int)
    requires Ordered(spans) && a < |spans| && b < |spans| && x <= y && InSpan(spans[a], x) && InSpan(spans[b], y)
    ensures spans[a].pageNumber.value <= spans[b].pageNumber.value
  {
    assert a <= b;
  }

  /** `page_start` and `page_end` never decrease along the chunks of a PDF. */
  lemma {:induction false} PageRangeNeverGoesBack(sections: seq<Section>, document: NormalizedDocument,
                                                  config: ChunkingConfig, ws: seq<Window>, i: nat, j: nat)
    requires PdfChunks(sections, document, config, ws) && i < j < |ws|
    ensures var v, w := PagesOf(document.spans, ws[i].start, ws[i].end),
      PagesOf(document.spans, ws[j].start, ws[j].end);
            v != [] && w != [] && Least(v) <= Least(w) && Greatest(v) <= Greatest(w)
  {
    PdfSpansAreOrdered(sections, document);
    var first, last := SpansOfWindow(sections, document, config, ws, i);
    var first', last' := SpansOfWindow(sections, document, config, ws, j);
    EndsGiveTheRange(document.spans, ws[i], first, last);
    EndsGiveTheRange(document.spans, ws[j], first', last');
    StartsIncrease(document.text, config, ws, i, j);
    PagesFollowText(document.spans, first, first', ws[i].start, ws[j].start);
    PagesFollowText(document.spans, last, last', ws[i].end - 1, ws[j].end - 1);
  }
}
