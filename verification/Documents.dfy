/** Normalisation of a document of ordered sections, with the source span of every fragment. */
module Documents {
  import opened CodePoints
  import opened Chunking
  import opened Options
  import Normalization

  datatype Section = Section(text: Text, pageNumber: Option<int>)

  datatype NormalizeResult = EmptyDocument | Normal(document: NormalizedDocument)

  /** The sections with their text normalised. */
  function Fragments(sections: seq<Section>): (fragments: seq<Section>)
    ensures |fragments| == |sections|
  {
    seq(|sections|, i requires 0 <= i < |sections| =>
      Section(Normalization.NormalizeFragment(sections[i].text), sections[i].pageNumber))
  }

  /** Indexes of the first `n` fragments that are more than whitespace, in order. */
  function KeptIndexes(fragments: seq<Section>, n: nat): (kept: seq<nat>)
    requires n <= |fragments|
  {
    if n == 0 then []
    else
      var before := KeptIndexes(fragments, n - 1);
      if AllSpace(fragments[n - 1].text) then before else before + [n - 1]
  }

  lemma {:induction false} KeptAreTheNonBlank(fragments: seq<Section>, n: nat)
    requires n <= |fragments|
    ensures forall i :: i in KeptIndexes(fragments, n) <==> 0 <= i < n && !AllSpace(fragments[i].text)
    ensures forall j, k ::
      0 <= j < k < |KeptIndexes(fragments, n)| ==> KeptIndexes(fragments, n)[j] < KeptIndexes(fragments, n)[k]
  {
    if n > 0 {
      KeptAreTheNonBlank(fragments, n - 1);
      var before := KeptIndexes(fragments, n - 1);
      assert forall k :: 0 <= k < |before| ==> before[k] in before;
    }
  }

  const PARAGRAPH_BREAK: Text := [NEWLINE, NEWLINE]

  /** `"\n\n".join(texts)`. */
  function JoinParagraphs(texts: seq<Text>): Text {
    if texts == [] then []
    else if |texts| == 1 then texts[0]
    else JoinParagraphs(texts[..|texts| - 1]) + PARAGRAPH_BREAK + texts[|texts| - 1]
  }

  /** Span `k` is exactly the `k`-th kept fragment, two newlines after the span before it. */
  ghost predicate SpanAt(fragments: seq<Section>, kept: seq<nat>, document: NormalizedDocument, k: nat)
    requires k < |kept| && k < |document.spans|
  {
    var span, text := document.spans[k], document.text;
    && kept[k] < |fragments|
    && span.sectionIndex == kept[k] && span.pageNumber == fragments[kept[k]].pageNumber
    && span.startOffset < span.endOffset <= |text|
    && text[span.startOffset..span.endOffset] == fragments[kept[k]].text
    && span.startOffset == SpanStart(document.spans, k)
    && (k > 0 ==> text[span.startOffset - 2] == text[span.startOffset - 1] == NEWLINE)
  }

  function SpanStart(spans: seq<SourceSpan>, k: nat): nat
    requires k <= |spans|
  {
    if k == 0 then 0 else spans[k - 1].endOffset + 2
  }

  /** The spans tile the text with exactly two newlines between neighbours. */
  ghost predicate Tiled(fragments: seq<Section>, kept: seq<nat>, document: NormalizedDocument) {
    && |document.spans| == |kept|
    && (forall k {:trigger SpanAt(fragments, kept, document, k)} :: 0 <= k < |kept| ==>
      SpanAt(fragments, kept, document, k))
    && |document.text| == (if kept == [] then 0 else document.spans[|kept| - 1].endOffset)
  }

  lemma {:induction false} AddSpan(fragments: seq<Section>, kept: seq<nat>, document: NormalizedDocument, i: nat,
                                   larger: NormalizedDocument, span: SourceSpan)
    requires Tiled(fragments, kept, document) && i < |fragments| && fragments[i].text != []
    requires larger.text == (if kept == [] then [] else document.text + PARAGRAPH_BREAK) + fragments[i].text
    requires larger.spans == document.spans + [span]
    requires span == SourceSpan(|larger.text| - |fragments[i].text|, |larger.text|, i, fragments[i].pageNumber)
    ensures Tiled(fragments, kept + [i], larger)
  {
    var n := |kept|;
    assert n > 0 ==> SpanAt(fragments, kept, document, n - 1);
    forall k | 0 <= k < n + 1
      ensures SpanAt(fragments, kept + [i], larger, k)
    {
      if k < n {
        assert SpanAt(fragments, kept, document, k);
        assert SpanStart(larger.spans, k) == SpanStart(document.spans, k);
        var s := document.spans[k];
        assert larger.text[s.startOffset..s.endOffset] == document.text[s.startOffset..s.endOffset];
      }
    }
  }

  lemma {:induction false} SomeSpanIsText(text: Text, lo: nat, hi: nat)
    requires lo <= hi <= |text| && !AllSpace(text[lo..hi])
    ensures !AllSpace(text)
  {
    var c :| c in text[lo..hi] && !IsSpace(c);
    assert c in text;
  }

  method NormalizedSection(sections: seq<Section>, i: nat) returns (text: Text)
    requires i < |sections|
    ensures text == Fragments(sections)[i].text
  {
    text := Normalization.Normalized(sections[i].text);
  }

  lemma {:induction false} PagesCarryOver(sections: seq<Section>, i: nat)
    requires i < |sections|
    ensures Fragments(sections)[i].pageNumber == sections[i].pageNumber
  {
  }

  /** What the loop has built from the first `i` fragments. */
  ghost predicate Built(fragments: seq<Section>, i: nat, texts: seq<Text>, spans: seq<SourceSpan>, offset: nat)
    requires i <= |fragments|
  {
    var kept := KeptIndexes(fragments, i);
    && |texts| == |kept|
    && offset == |JoinParagraphs(texts)|
    && Tiled(fragments, kept, NormalizedDocument(JoinParagraphs(texts), spans))
  }

  lemma {:induction false} BuildNext(fragments: seq<Section>, i: nat, texts: seq<Text>, spans: seq<SourceSpan>,
                                     offset: nat, start: nat, span: SourceSpan)
    requires i < |fragments| && Built(fragments, i, texts, spans, offset) && !AllSpace(fragments[i].text)
    requires start == (if texts == [] then offset else offset + 2)
    requires span == SourceSpan(start, start + |fragments[i].text|, i, fragments[i].pageNumber)
    ensures Built(fragments, i + 1, texts + [fragments[i].text], spans + [span], span.endOffset)
  {
    var more := texts + [fragments[i].text];
    assert more[..|texts|] == texts;
    AddSpan(fragments, KeptIndexes(fragments, i), NormalizedDocument(JoinParagraphs(texts), spans), i,
            NormalizedDocument(JoinParagraphs(more), spans + [span]), span);
  }

  lemma {:induction false} BuiltIsText(fragments: seq<Section>, texts: seq<Text>, spans: seq<SourceSpan>, offset: nat)
    requires Built(fragments, |fragments|, texts, spans, offset)
    ensures AllSpace(JoinParagraphs(texts)) <==> KeptIndexes(fragments, |fragments|) == []
  {
    var kept, document := KeptIndexes(fragments, |fragments|), NormalizedDocument(JoinParagraphs(texts), spans);
    if kept != [] {
      KeptAreTheNonBlank(fragments, |fragments|);
      assert kept[0] in kept;
      assert SpanAt(fragments, kept, document, 0);
      SomeSpanIsText(document.text, spans[0].startOffset, spans[0].endOffset);
    }
  }

  /** The body of the loop over the sections. */
  method AddSection(sections: seq<Section>, sectionIndex: nat, texts: seq<Text>, sourceSpans: seq<SourceSpan>,
                    currentOffset: nat)
    returns (texts': seq<Text>, sourceSpans': seq<SourceSpan>, currentOffset': nat)
    requires sectionIndex < |sections| && Built(Fragments(sections), sectionIndex, texts, sourceSpans, currentOffset)
    ensures Built(Fragments(sections), sectionIndex + 1, texts', sourceSpans', currentOffset')
  {
    texts', sourceSpans', currentOffset' := texts, sourceSpans, currentOffset;
    var normalizedSection := NormalizedSection(sections, sectionIndex);
    if AllSpace(normalizedSection) {
      return;
    }
    if texts != [] {
      currentOffset' := currentOffset + 2;
    }
    var startOffset := currentOffset';
    currentOffset' := currentOffset' + |normalizedSection|;
    var span := SourceSpan(startOffset, currentOffset', sectionIndex, sections[sectionIndex].pageNumber);
    PagesCarryOver(sections, sectionIndex);
    BuildNext(Fragments(sections), sectionIndex, texts, sourceSpans, currentOffset, startOffset, span);
    texts' := texts + [normalizedSection];
    sourceSpans' := sourceSpans + [span];
  }

  lemma {:induction false} NothingBuilt(fragments: seq<Section>)
    ensures Built(fragments, 0, [], [], 0)
  {
  }

  lemma {:induction false} BuiltIsTiled(fragments: seq<Section>, texts: seq<Text>, spans: seq<SourceSpan>, offset: nat)
    requires Built(fragments, |fragments|, texts, spans, offset)
    ensures Tiled(fragments, KeptIndexes(fragments, |fragments|), NormalizedDocument(JoinParagraphs(texts), spans))
  {
  }

  method Normalize(sections: seq<Section>) returns (r: NormalizeResult)
    ensures r.EmptyDocument? <==> KeptIndexes(Fragments(sections), |sections|) == []
    ensures r.Normal? ==> Tiled(Fragments(sections), KeptIndexes(Fragments(sections), |sections|), r.document)
    ensures r.Normal? ==> !AllSpace(r.document.text)
  {
    ghost var fragments := Fragments(sections);
    var texts: seq<Text> := [];
    var sourceSpans: seq<SourceSpan> := [];
    var currentOffset: nat := 0;
    NothingBuilt(fragments);
    for sectionIndex: nat := 0 to |sections|
      invariant Built(fragments, sectionIndex, texts, sourceSpans, currentOffset)
    {
      texts, sourceSpans, currentOffset := AddSection(sections, sectionIndex, texts, sourceSpans, currentOffset);
    }
    BuiltIsText(fragments, texts, sourceSpans, currentOffset);
    BuiltIsTiled(fragments, texts, sourceSpans, currentOffset);
    var normalizedText := JoinParagraphs(texts);
    if AllSpace(normalizedText) {
      return EmptyDocument;
    }
    r := Normal(NormalizedDocument(normalizedText, sourceSpans));
  }

  /** Span by span: the slice with the normalised text of a section that is not blank, and with the section's page. */
  lemma {:induction false} SpanIsItsSection(sections: seq<Section>, document: NormalizedDocument, k: nat)
    requires Tiled(Fragments(sections), KeptIndexes(Fragments(sections), |sections|), document) && k < |document.spans|
    ensures
      var span := document.spans[k];
      && span.sectionIndex < |sections| && span.pageNumber == sections[span.sectionIndex].pageNumber
      && span.startOffset < span.endOffset <= |document.text|
      && document.text[span.startOffset..span.endOffset] ==
           Normalization.NormalizeFragment(sections[span.sectionIndex].text)
      && !AllSpace(Normalization.NormalizeFragment(sections[span.sectionIndex].text))
  {
    var kept := KeptIndexes(Fragments(sections), |sections|);
    KeptAreTheNonBlank(Fragments(sections), |sections|);
    assert SpanAt(Fragments(sections), kept, document, k);
    assert kept[k] in kept;
  }

  /** The first span begins the text, the last ends it, and two line feeds stand between neighbours; the spans are in
      section order. */
  lemma {:induction false} SpansInFull(sections: seq<Section>, document: NormalizedDocument, k: nat)
    requires Tiled(Fragments(sections), KeptIndexes(Fragments(sections), |sections|), document) && k < |document.spans|
    ensures k == 0 ==> document.spans[k].startOffset == 0
    ensures k > 0 ==>
      && document.spans[k - 1].sectionIndex < document.spans[k].sectionIndex
      && document.spans[k].startOffset == document.spans[k - 1].endOffset + 2 <= |document.text|
      && document.text[document.spans[k].startOffset - 2] == 0x0A
      && document.text[document.spans[k].startOffset - 1] == 0x0A
    ensures k == |document.spans| - 1 ==> document.spans[k].endOffset == |document.text|
  {
    var kept := KeptIndexes(Fragments(sections), |sections|);
    KeptAreTheNonBlank(Fragments(sections), |sections|);
    assert SpanAt(Fragments(sections), kept, document, k);
    assert k > 0 ==> SpanAt(Fragments(sections), kept, document, k - 1);
  }

  /** No section with text is missing. */
  lemma {:induction false} NoSectionIsMissing(sections: seq<Section>, document: NormalizedDocument, i: nat)
    requires Tiled(Fragments(sections), KeptIndexes(Fragments(sections), |sections|), document) && i < |sections|
    requires !AllSpace(Normalization.NormalizeFragment(sections[i].text))
    ensures exists k :: 0 <= k < |document.spans| && document.spans[k].sectionIndex == i
  {
    var fragments := Fragments(sections);
    var kept := KeptIndexes(fragments, |sections|);
    KeptAreTheNonBlank(fragments, |sections|);
    assert i in kept;
    var k :| 0 <= k < |kept| && kept[k] == i;
    assert SpanAt(fragments, kept, document, k);
  }
}
