/** Python text as sequences of Unicode code points, with the exact character classes
    that `str.isspace` and `unicodedata.category` give to the characters the pipeline tests. */
module CodePoints {

  type Text = seq<int>

  const TAB := 0x09
  const NEWLINE := 0x0A
  const CARRIAGE_RETURN := 0x0D
  const SPACE := 0x20
  const BYTE_ORDER_MARK := 0xFEFF
  const REPLACEMENT := 0xFFFD

  /** `str.isspace` for one character. */
  predicate IsSpace(c: int) {
    || 0x09 <= c <= 0x0D
    || 0x1C <= c <= 0x20
    || c in {0x85, 0xA0, 0x1680, 0x2028, 0x2029, 0x202F, 0x205F, 0x3000}
    || 0x2000 <= c <= 0x200A
  }

  /** The whitespace characters, one by one. */
  lemma {:induction false} WhitespaceIs(c: int)
    ensures IsSpace(c) <==> c in {
      0x09, 0x0A, 0x0B, 0x0C, 0x0D, 0x1C, 0x1D, 0x1E, 0x1F, 0x20, 0x85, 0xA0, 0x1680,
      0x2000, 0x2001, 0x2002, 0x2003, 0x2004, 0x2005, 0x2006, 0x2007, 0x2008, 0x2009, 0x200A,
      0x2028, 0x2029, 0x202F, 0x205F, 0x3000}
  {
  }

  /** General category Cc. */
  predicate IsControl(c: int) {
    0 <= c < 0x20 || 0x7F <= c < 0xA0
  }

  /** General category Cs. */
  predicate IsSurrogate(c: int) {
    0xD800 <= c < 0xE000
  }

  /** The set that `strip(" \t")` removes. */
  predicate IsBlank(c: int) {
    c == SPACE || c == TAB
  }

  /** True when `text.strip()` is empty. */
  predicate AllSpace(text: Text) {
    forall c <- text :: IsSpace(c)
  }

  predicate SpaceFree(text: Text) {
    forall c <- text :: !IsSpace(c)
  }

  /** The characters of `text` that are not whitespace, in order. */
  function NonSpace(text: Text): Text {
    if text == [] then []
    else (if IsSpace(text[0]) then [] else [text[0]]) + NonSpace(text[1..])
  }

  lemma {:induction false} NonSpaceConcat(a: Text, b: Text)
    ensures NonSpace(a + b) == NonSpace(a) + NonSpace(b)
  {
    if a == [] {
      assert a + b == b;
    } else {
      assert (a + b)[1..] == a[1..] + b;
      NonSpaceConcat(a[1..], b);
    }
  }

  lemma {:induction false} NonSpaceOfSpaces(a: Text)
    requires AllSpace(a)
    ensures NonSpace(a) == []
  {
    if a != [] {
      assert IsSpace(a[0]);
      NonSpaceOfSpaces(a[1..]);
    }
  }
}
