/** The streaming JSON depth scanner, against a grammar of nested brackets and against printed values. */
module JsonDepth {
  import opened Options
  import opened Sequences

  const MAX_JSON_DEPTH := 16

  // ---------------------------------------------------------------- specification of the scanner

  datatype ScannerState = ScannerState(containers: string, inString: bool, escaped: bool)

  const INITIAL := ScannerState([], false, false)

  predicate IsOpener(c: char) {
    c == '[' || c == '{'
  }

  predicate IsCloser(c: char) {
    c == ']' || c == '}'
  }

  function OpenerOf(closer: char): char {
    if closer == ']' then '[' else '{'
  }

  function CloserOf(opener: char): char {
    if opener == '[' then ']' else '}'
  }

  /** One bracket outside strings; None is a rejection. */
  function Bracket(containers: string, c: char): Option<string> {
    if IsOpener(c) then
      if |containers| >= MAX_JSON_DEPTH then None else Some(containers + [c])
    else if containers == [] || containers[|containers| - 1] != OpenerOf(c) then None
    else Some(containers[..|containers| - 1])
  }

  function Step(s: ScannerState, c: char): Option<ScannerState> {
    if s.inString then
      if s.escaped then Some(s.(escaped := false))
      else if c == '\\' then Some(s.(escaped := true))
      else if c == '\"' then Some(s.(inString := false))
      else Some(s)
    else if c == '\"' then Some(s.(inString := true))
    else if IsOpener(c) || IsCloser(c) then
      match Bracket(s.containers, c)
      case None => None
      case Some(containers) => Some(s.(containers := containers))
    else Some(s)
  }

  function Feed(s: ScannerState, text: string): Option<ScannerState>
    decreases |text|
  {
    if text == [] then Some(s)
    else
      match Step(s, text[0])
      case None => None
      case Some(t) => Feed(t, text[1..])
  }

  predicate Finished(s: ScannerState) {
    s.containers == [] && !s.inString
  }

  predicate Accepts(text: string) {
    var s := Feed(INITIAL, text);
    s.Some? && Finished(s.value)
  }

  // ---------------------------------------------------------------- the scanner object

  class JsonDepthScanner {
    var containers: string
    var inString: bool
    var escaped: bool

    ghost function State(): ScannerState
      reads this
    {
      ScannerState(containers, inString, escaped)
    }

    constructor ()
      ensures State() == INITIAL
    {
      containers, inString, escaped := [], false, false;
    }

    /** Returns false where the source raises; the state is then that of the text before the bad character. */
    method FeedText(text: string) returns (ok: bool)
      modifies this
      ensures ok ==> Feed(old(State()), text) == Some(State())
      ensures !ok ==> exists n ::
        0 <= n < |text| && Feed(old(State()), text[..n]) == Some(State()) && Step(State(), text[n]) == None
      ensures ok <==> Feed(old(State()), text).Some?
    {
      ghost var s0 := State();
      for i := 0 to |text|
        invariant Feed(s0, text[..i]) == Some(State())
      {
        ghost var before := State();
        var c := text[i];
        FeedSnoc(s0, text, i);
        if inString {
          if escaped {
            escaped := false;
          } else if c == '\\' {
            escaped := true;
          } else if c == '\"' {
            inString := false;
          }
          assert Step(before, c) == Some(State());
          continue;
        }
        if c == '\"' {
          inString := true;
        } else if IsOpener(c) {
          if |containers| >= MAX_JSON_DEPTH {
            FeedStops(s0, text, i);
            return false;
          }
          containers := containers + [c];
        } else if IsCloser(c) {
          var expectedOpener := OpenerOf(c);
          if containers == [] || containers[|containers| - 1] != expectedOpener {
            FeedStops(s0, text, i);
            return false;
          }
          containers := containers[..|containers| - 1];
        }
        assert Step(before, c) == Some(State());
      }
      assert text[..|text|] == text;
      return true;
    }

    method Finish() returns (ok: bool)
      ensures ok <==> Finished(State())
    {
      ok := !(containers != [] || inString);
    }
  }

  lemma {:induction false} FeedConcat(s: ScannerState, a: string, b: string)
    ensures Feed(s, a + b) == (var t := Feed(s, a); if t.None? then None else Feed(t.value, b))
    decreases |a|
  {
    if a == [] {
      assert a + b == b;
    } else {
      assert (a + b)[1..] == a[1..] + b;
      var t := Step(s, a[0]);
      if t.Some? {
        FeedConcat(t.value, a[1..], b);
      }
    }
  }

  lemma {:induction false} FeedSnoc(s: ScannerState, text: string, i: nat)
    requires i < |text|
    ensures Feed(s, text[..i + 1]) == (var t := Feed(s, text[..i]); if t.None? then None else Step(t.value, text[i]))
  {
    assert text[..i + 1] == text[..i] + [text[i]];
    FeedConcat(s, text[..i], [text[i]]);
  }

  lemma {:induction false} FeedStops(s: ScannerState, text: string, i: nat)
    requires i < |text| && Feed(s, text[..i + 1]) == None
    ensures Feed(s, text) == None
  {
    assert text == text[..i + 1] + text[i + 1..];
    FeedConcat(s, text[..i + 1], text[i + 1..]);
  }

  // ---------------------------------------------------------------- pieces and the whole

  function Concat(pieces: seq<string>): string {
    if pieces == [] then [] else Concat(pieces[..|pieces| - 1]) + pieces[|pieces| - 1]
  }

  /** The whole-text check made again on the joined body. */
  method ValidateJsonDepth(text: string) returns (ok: bool)
    ensures ok <==> Accepts(text)
  {
    var scanner := new JsonDepthScanner();
    ok := scanner.FeedText(text);
    if ok {
      ok := scanner.Finish();
    }
  }

  /** The streaming check: however the body is cut into pieces, the outcome is that of the whole. */
  method ScanPieces(pieces: seq<string>) returns (ok: bool)
    ensures ok <==> Accepts(Concat(pieces))
  {
    var scanner := new JsonDepthScanner();
    for i := 0 to |pieces|
      invariant Feed(INITIAL, Concat(pieces[..i])) == Some(scanner.State())
    {
      assert pieces[..i + 1][..i] == pieces[..i];
      FeedConcat(INITIAL, Concat(pieces[..i]), pieces[i]);
      ok := scanner.FeedText(pieces[i]);
      if !ok {
        RejectionIsFinal(INITIAL, pieces, i + 1);
        return false;
      }
    }
    assert pieces[..|pieces|] == pieces;
    ok := scanner.Finish();
  }

  lemma {:induction false} RejectionIsFinal(s: ScannerState, pieces: seq<string>, i: nat)
    requires i <= |pieces| && Feed(s, Concat(pieces[..i])) == None
    ensures Feed(s, Concat(pieces)) == None
    decreases |pieces| - i
  {
    if i == |pieces| {
      assert pieces[..i] == pieces;
    } else {
      assert pieces[..i + 1][..i] == pieces[..i];
      FeedConcat(s, Concat(pieces[..i]), pieces[i]);
      RejectionIsFinal(s, pieces, i + 1);
    }
  }

  // ---------------------------------------------------------------- the grammar

  /** The brackets outside strings, in order, from the given string state. */
  function Brackets(text: string, inString: bool, escaped: bool): string {
    if text == [] then []
    else
      var c, rest := text[0], text[1..];
      if inString then
        if escaped then Brackets(rest, true, false)
        else if c == '\\' then Brackets(rest, true, true)
        else Brackets(rest, c != '\"', false)
      else if c == '\"' then Brackets(rest, true, escaped)
      else (if IsOpener(c) || IsCloser(c) then [c] else []) + Brackets(rest, false, escaped)
  }

  /** Whether the text ends inside a string. */
  predicate EndsInString(text: string, inString: bool, escaped: bool) {
    if text == [] then inString
    else
      var c, rest := text[0], text[1..];
      if inString then
        if escaped then EndsInString(rest, true, false)
        else if c == '\\' then EndsInString(rest, true, true)
        else EndsInString(rest, c != '\"', false)
      else EndsInString(rest, c == '\"', escaped)
  }

  /** Properly nested brackets of two kinds. */
  datatype Forest = Empty | Group(opener: char, inside: Forest, rest: Forest)

  ghost predicate ValidForest(f: Forest) {
    f.Group? ==> IsOpener(f.opener) && ValidForest(f.inside) && ValidForest(f.rest)
  }

  function Flatten(f: Forest): string {
    match f
    case Empty => []
    case Group(opener, inside, rest) => [opener] + Flatten(inside) + [CloserOf(opener)] + Flatten(rest)
  }

  function Height(f: Forest): nat {
    match f
    case Empty => 0
    case Group(_, inside, rest) => if 1 + Height(inside) < Height(rest) then Height(rest) else 1 + Height(inside)
  }

  function Append(f: Forest, g: Forest): Forest {
    match f
    case Empty => g
    case Group(opener, inside, rest) => Group(opener, inside, Append(rest, g))
  }

  lemma {:induction false} FlattenAppend(f: Forest, g: Forest)
    requires ValidForest(f) && ValidForest(g)
    ensures Flatten(Append(f, g)) == Flatten(f) + Flatten(g) && ValidForest(Append(f, g))
  {
    if f.Group? {
      FlattenAppend(f.rest, g);
    }
  }

  /** The bracket machine alone. */
  function RunBrackets(containers: string, brackets: string): Option<string>
    decreases |brackets|
  {
    if brackets == [] then Some(containers)
    else
      match Bracket(containers, brackets[0])
      case None => None
      case Some(next) => RunBrackets(next, brackets[1..])
  }

  /** The scanner is the bracket machine on the brackets outside strings. */
  lemma {:induction false} ScannerRunsBrackets(s: ScannerState, text: string)
    ensures var r, b := Feed(s, text), RunBrackets(s.containers, Brackets(text, s.inString, s.escaped));
            && (r.None? <==> b.None?)
            && (r.Some? ==>
                  r.value.containers == b.value && r.value.inString == EndsInString(text, s.inString, s.escaped))
    decreases |text|
  {
    if text != [] {
      var t := Step(s, text[0]);
      if t.Some? {
        ScannerRunsBrackets(t.value, text[1..]);
      }
      var rest := Brackets(text[1..], false, s.escaped);
      assert [] + rest == rest;
      RunCons(s.containers, text[0], rest);
    }
  }

  lemma {:induction false} RunSnoc(containers: string, brackets: string, c: char)
    ensures RunBrackets(containers, brackets + [c]) ==
      (var t := RunBrackets(containers, brackets); if t.None? then None else Bracket(t.value, c))
    decreases |brackets|
  {
    if brackets == [] {
      assert brackets + [c] == [c];
    } else {
      assert (brackets + [c])[1..] == brackets[1..] + [c];
      var t := Bracket(containers, brackets[0]);
      if t.Some? {
        RunSnoc(t.value, brackets[1..], c);
      }
    }
  }

  lemma {:induction false} RunCons(containers: string, c: char, brackets: string)
    ensures RunBrackets(containers, [c] + brackets) ==
      (var t := Bracket(containers, c); if t.None? then None else RunBrackets(t.value, brackets))
  {
    assert ([c] + brackets)[1..] == brackets;
  }

  lemma {:induction false} GroupText(opener: char, inside: Forest, rest: Forest, tail: string)
    requires IsOpener(opener)
    ensures Flatten(Group(opener, inside, rest)) + tail ==
      [opener] + (Flatten(inside) + ([CloserOf(opener)] + (Flatten(rest) + tail)))
  {
    Regroup([opener] + Flatten(inside) + [CloserOf(opener)], Flatten(rest), tail);
    Regroup([opener] + Flatten(inside), [CloserOf(opener)], Flatten(rest) + tail);
    Regroup([opener], Flatten(inside), [CloserOf(opener)] + (Flatten(rest) + tail));
  }

  /** A nested group passes exactly when it fits under the depth limit, and leaves the stack as it was. */
  lemma {:induction false} RunFlatten(containers: string, f: Forest, tail: string)
    requires ValidForest(f) && |containers| <= MAX_JSON_DEPTH
    ensures RunBrackets(containers, Flatten(f) + tail) ==
      (if |containers| + Height(f) <= MAX_JSON_DEPTH then RunBrackets(containers, tail) else None)
    decreases f
  {
    match f
    case Empty =>
      assert Flatten(f) + tail == tail;
    case Group(opener, inside, rest) =>
      var afterGroup := Flatten(rest) + tail;
      var afterInside := [CloserOf(opener)] + afterGroup;
      GroupText(opener, inside, rest, tail);
      RunCons(containers, opener, Flatten(inside) + afterInside);
      if |containers| < MAX_JSON_DEPTH {
        var deeper := containers + [opener];
        RunFlatten(deeper, inside, afterInside);
        RunCons(deeper, CloserOf(opener), afterGroup);
        assert deeper[..|containers|] == containers;
        RunFlatten(containers, rest, tail);
      }
  }

  /** Nested groups with exactly the characters of `open` standing unclosed between them. */
  ghost function Interleave(groups: seq<Forest>, open: string): string
    requires |groups| == |open| + 1
  {
    var n := |open|;
    if n == 0 then Flatten(groups[0])
    else Interleave(groups[..n], open[..n - 1]) + [open[n - 1]] + Flatten(groups[n])
  }

  ghost predicate ValidGroups(groups: seq<Forest>) {
    forall i :: 0 <= i < |groups| ==> ValidForest(groups[i])
  }

  lemma {:induction false} InterleaveLast(groups: seq<Forest>, open: string)
    requires |groups| == |open| + 1 && open != []
    ensures var m := |open|;
      Interleave(groups, open) == Interleave(groups[..m], open[..m - 1]) + [open[m - 1]] + Flatten(groups[m])
  {
  }

  lemma {:induction false} InterleaveAppend(groups: seq<Forest>, open: string, g: Forest)
    requires |groups| == |open| + 1 && ValidGroups(groups) && ValidForest(g)
    ensures var n := |open|;
            var more := groups[n := Append(groups[n], g)];
            Interleave(more, open) == Interleave(groups, open) + Flatten(g) && ValidGroups(more)
  {
    var n := |open|;
    var more := groups[n := Append(groups[n], g)];
    FlattenAppend(groups[n], g);
    if n > 0 {
      InterleaveLast(groups, open);
      InterleaveLast(more, open);
      assert more[..n] == groups[..n];
      Regroup(Interleave(groups[..n], open[..n - 1]) + [open[n - 1]], Flatten(groups[n]), Flatten(g));
    }
  }

  /** What was read is nested groups with exactly the brackets of `open` standing unclosed between them. */
  ghost predicate OpenIn(brackets: string, open: string, groups: seq<Forest>) {
    && |groups| == |open| + 1 && ValidGroups(groups)
    && (forall c <- open :: IsOpener(c))
    && brackets == Interleave(groups, open)
  }

  lemma {:induction false} OpenOne(brackets: string, open: string, groups: seq<Forest>, c: char)
    requires OpenIn(brackets, open, groups) && IsOpener(c)
    ensures OpenIn(brackets + [c], open + [c], groups + [Empty])
  {
    assert (groups + [Empty])[..|open| + 1] == groups;
    assert (open + [c])[..|open|] == open;
    assert Interleave(groups + [Empty], open + [c]) == Interleave(groups, open) + [c] + [];
  }

  lemma {:induction false} FlattenGroup(opener: char, inside: Forest, c: char)
    requires IsOpener(opener) && CloserOf(opener) == c && ValidForest(inside)
    ensures ValidForest(Group(opener, inside, Empty))
    ensures Flatten(Group(opener, inside, Empty)) == [opener] + Flatten(inside) + [c]
  {
  }

  lemma {:induction false} CloseOne(brackets: string, open: string, groups: seq<Forest>,
                                    c: char) returns (fewer: seq<Forest>)
    requires OpenIn(brackets, open, groups) && open != [] && IsCloser(c) && open[|open| - 1] == OpenerOf(c)
    ensures OpenIn(brackets + [c], open[..|open| - 1], fewer)
  {
    var m := |open|;
    var opener, before, outer := open[m - 1], open[..m - 1], groups[..m];
    assert opener in open && CloserOf(opener) == c;
    FlattenGroup(opener, groups[m], c);
    var closed := Group(opener, groups[m], Empty);
    InterleaveAppend(outer, before, closed);
    fewer := outer[m - 1 := Append(outer[m - 1], closed)];
    InterleaveLast(groups, open);
    Regroup(Interleave(outer, before), [opener], Flatten(groups[m]));
    Regroup(Interleave(outer, before), [opener] + Flatten(groups[m]), [c]);
  }

  /** The stack is always exactly the brackets still open. */
  lemma {:induction false} StackIsOpenBrackets(brackets: string) returns (groups: seq<Forest>)
    requires RunBrackets([], brackets).Some? && forall c <- brackets :: IsOpener(c) || IsCloser(c)
    ensures OpenIn(brackets, RunBrackets([], brackets).value, groups)
    decreases |brackets|
  {
    if brackets == [] {
      groups := [Empty];
    } else {
      var n := |brackets| - 1;
      var before, c := brackets[..n], brackets[n];
      assert brackets == before + [c];
      RunSnoc([], before, c);
      groups := StackIsOpenBrackets(before);
      var open := RunBrackets([], before).value;
      if IsOpener(c) {
        OpenOne(before, open, groups, c);
        groups := groups + [Empty];
      } else {
        groups := CloseOne(before, open, groups, c);
      }
    }
  }

  /** The same for the scanner: after any accepted text its stack is what the text leaves open outside strings. */
  lemma {:induction false} ScannerStackIsOpenBrackets(text: string) returns (groups: seq<Forest>)
    requires Feed(INITIAL, text).Some?
    ensures OpenIn(Brackets(text, false, false), Feed(INITIAL, text).value.containers, groups)
  {
    ScannerRunsBrackets(INITIAL, text);
    BracketsAreBrackets(text, false, false);
    groups := StackIsOpenBrackets(Brackets(text, false, false));
  }

  lemma {:induction false} BracketsAreBrackets(text: string, inString: bool, escaped: bool)
    ensures forall c <- Brackets(text, inString, escaped) :: IsOpener(c) || IsCloser(c)
    decreases |text|
  {
    if text != [] {
      var c, rest := text[0], text[1..];
      BracketsAreBrackets(rest, true, false);
      BracketsAreBrackets(rest, true, true);
      BracketsAreBrackets(rest, true, escaped);
      BracketsAreBrackets(rest, false, escaped);
      BracketsAreBrackets(rest, false, false);
    }
  }

  ghost predicate InGrammar(text: string) {
    && !EndsInString(text, false, false)
    && exists f :: ValidForest(f) && Brackets(text, false, false) == Flatten(f) && Height(f) <= 16
  }

  /** For every text: the scanner accepts it exactly when every string is closed and the brackets outside
      strings nest properly, at most 16 deep. */
  lemma {:induction false} ScannerIsGrammar(text: string)
    ensures Accepts(text) <==> InGrammar(text)
  {
    var brackets := Brackets(text, false, false);
    ScannerRunsBrackets(INITIAL, text);
    BracketsAreBrackets(text, false, false);
    if Accepts(text) {
      var groups := StackIsOpenBrackets(brackets);
      assert Flatten(groups[0]) + [] == Flatten(groups[0]);
      RunFlatten([], groups[0], []);
    }
    if InGrammar(text) {
      var f :| ValidForest(f) && brackets == Flatten(f) && Height(f) <= MAX_JSON_DEPTH;
      assert Flatten(f) + [] == Flatten(f);
      RunFlatten([], f, []);
    }
  }

  // ---------------------------------------------------------------- printed values

  datatype Json = Scalar(lexeme: string) | Text(value: string) | Array(items: Items) | Object(members: Members)
  datatype Items = NoItems | Item(value: Json, rest: Items)
  datatype Members = NoMembers | Member(key: string, value: Json, rest: Members)

  /** Numbers, literals and whitespace: no quotes and no brackets. */
  predicate Plain(lexeme: string) {
    forall c <- lexeme :: c != '\"' && !IsOpener(c) && !IsCloser(c)
  }

  predicate ValidJson(v: Json) {
    match v
    case Scalar(lexeme) => Plain(lexeme)
    case Text(_) => true
    case Array(items) => ValidItems(items)
    case Object(members) => ValidMembers(members)
  }

  predicate ValidItems(items: Items) {
    items.Item? ==> ValidJson(items.value) && ValidItems(items.rest)
  }

  predicate ValidMembers(members: Members) {
    members.Member? ==> ValidJson(members.value) && ValidMembers(members.rest)
  }

  function Escape(value: string): string {
    if value == [] then []
    else (if value[0] == '\"' || value[0] == '\\' then ['\\', value[0]] else [value[0]]) + Escape(value[1..])
  }

  function Quote(value: string): string {
    "\"" + (Escape(value) + "\"")
  }

  function Print(v: Json): string {
    match v
    case Scalar(lexeme) => lexeme
    case Text(value) => Quote(value)
    case Array(items) => "[" + (PrintItems(items) + "]")
    case Object(members) => "{" + (PrintMembers(members) + "}")
  }

  function PrintItems(items: Items): string {
    match items
    case NoItems => ""
    case Item(value, NoItems) => Print(value)
    case Item(value, rest) => Print(value) + ("," + PrintItems(rest))
  }

  function PrintMembers(members: Members): string {
    match members
    case NoMembers => ""
    case Member(key, value, NoMembers) => Quote(key) + (":" + Print(value))
    case Member(key, value, rest) => Quote(key) + (":" + (Print(value) + ("," + PrintMembers(rest))))
  }

  function Larger(a: nat, b: nat): nat {
    if a < b then b else a
  }

  function Depth(v: Json): nat {
    match v
    case Scalar(_) => 0
    case Text(_) => 0
    case Array(items) => 1 + ItemsDepth(items)
    case Object(members) => 1 + MembersDepth(members)
  }

  function ItemsDepth(items: Items): nat {
    match items
    case NoItems => 0
    case Item(value, rest) => Larger(Depth(value), ItemsDepth(rest))
  }

  function MembersDepth(members: Members): nat {
    match members
    case NoMembers => 0
    case Member(_, value, rest) => Larger(Depth(value), MembersDepth(rest))
  }

  /** Outside strings, with this stack of open containers. */
  function Outside(containers: string): ScannerState {
    ScannerState(containers, false, false)
  }

  /** The scanner passes over `text`, which nests `depth` deep, exactly when it fits. */
  ghost predicate Passes(containers: string, text: string, depth: nat) {
    Feed(Outside(containers), text) == if |containers| + depth <= MAX_JSON_DEPTH then
      Some(Outside(containers)) else None
  }

  lemma {:induction false} PassesConcat(containers: string, a: string, m: nat, b: string, n: nat)
    requires Passes(containers, a, m) && Passes(containers, b, n)
    ensures Passes(containers, a + b, Larger(m, n))
  {
    FeedConcat(Outside(containers), a, b);
  }

  lemma {:induction false} PlainPasses(containers: string, lexeme: string)
    requires Plain(lexeme) && |containers| <= MAX_JSON_DEPTH
    ensures Passes(containers, lexeme, 0)
  {
    if lexeme != [] {
      assert lexeme[0] in lexeme;
      PlainPasses(containers, lexeme[1..]);
    }
  }

  lemma {:induction false} EscapedStays(containers: string, value: string)
    ensures Feed(ScannerState(containers, true, false), Escape(value)) == Some(ScannerState(containers, true, false))
  {
    if value != [] {
      var s, rest := ScannerState(containers, true, false), Escape(value[1..]);
      EscapedStays(containers, value[1..]);
      if value[0] == '\"' || value[0] == '\\' {
        var head := ['\\', value[0]];
        assert head == ['\\'] + [value[0]] && ['\\'][1..] == [] && [value[0]][1..] == [];
        FeedConcat(s, ['\\'], [value[0]]);
        FeedConcat(s, head, rest);
      } else {
        assert ([value[0]] + rest)[1..] == rest;
      }
    }
  }

  lemma {:induction false} QuotePasses(containers: string, value: string)
    requires |containers| <= MAX_JSON_DEPTH
    ensures Passes(containers, Quote(value), 0)
  {
    var s := ScannerState(containers, true, false);
    EscapedStays(containers, value);
    FeedConcat(s, Escape(value), "\"");
    assert "\""[1..] == "";
    assert Quote(value)[1..] == Escape(value) + "\"";
  }

  lemma {:induction false} BracketedPasses(containers: string, opener: char, inside: string, depth: nat)
    requires IsOpener(opener) && |containers| <= MAX_JSON_DEPTH
    requires |containers| < MAX_JSON_DEPTH ==> Passes(containers + [opener], inside, depth)
    ensures Passes(containers, [opener] + (inside + [CloserOf(opener)]), 1 + depth)
  {
    var text, closer := [opener] + (inside + [CloserOf(opener)]), [CloserOf(opener)];
    assert text[1..] == inside + closer;
    if |containers| < MAX_JSON_DEPTH {
      var deeper := containers + [opener];
      FeedConcat(Outside(deeper), inside, closer);
      assert closer[1..] == [] && deeper[..|containers|] == containers;
    }
  }

  lemma {:induction false} PrintPasses(containers: string, v: Json)
    requires ValidJson(v) && |containers| <= MAX_JSON_DEPTH
    ensures Passes(containers, Print(v), Depth(v))
    decreases v, 0
  {
    match v
    case Scalar(lexeme) =>
      PlainPasses(containers, lexeme);
    case Text(value) =>
      QuotePasses(containers, value);
    case Array(items) =>
      if |containers| < MAX_JSON_DEPTH {
        ItemsPass(containers + "[", items);
      }
      BracketedPasses(containers, '[', PrintItems(items), ItemsDepth(items));
    case Object(members) =>
      if |containers| < MAX_JSON_DEPTH {
        MembersPass(containers + "{", members);
      }
      BracketedPasses(containers, '{', PrintMembers(members), MembersDepth(members));
  }

  lemma {:induction false} ItemsPass(containers: string, items: Items)
    requires ValidItems(items) && |containers| <= MAX_JSON_DEPTH
    ensures Passes(containers, PrintItems(items), ItemsDepth(items))
    decreases items, 0
  {
    match items
    case NoItems =>
    case Item(value, rest) =>
      PrintPasses(containers, value);
      ItemsPass(containers, rest);
      PlainPasses(containers, ",");
      PassesConcat(containers, ",", 0, PrintItems(rest), ItemsDepth(rest));
      PassesConcat(containers, Print(value), Depth(value), "," + PrintItems(rest), ItemsDepth(rest));
  }

  lemma {:induction false} MembersPass(containers: string, members: Members)
    requires ValidMembers(members) && |containers| <= MAX_JSON_DEPTH
    ensures Passes(containers, PrintMembers(members), MembersDepth(members))
    decreases members, 0
  {
    match members
    case NoMembers =>
    case Member(key, value, rest) =>
      QuotePasses(containers, key);
      PrintPasses(containers, value);
      MembersPass(containers, rest);
      PlainPasses(containers, ":");
      PlainPasses(containers, ",");
      if rest.NoMembers? {
        PassesConcat(containers, ":", 0, Print(value), Depth(value));
        PassesConcat(containers, Quote(key), 0, ":" + Print(value), Depth(value));
      } else {
        var tail := "," + PrintMembers(rest);
        PassesConcat(containers, ",", 0, PrintMembers(rest), MembersDepth(rest));
        PassesConcat(containers, Print(value), Depth(value), tail, MembersDepth(rest));
        PassesConcat(containers, ":", 0, Print(value) + tail, MembersDepth(members));
        PassesConcat(containers, Quote(key), 0, ":" + (Print(value) + tail), MembersDepth(members));
      }
  }

  /** A printed JSON value is accepted exactly when its containers nest at most 16 deep. */
  lemma {:induction false} PrintedAcceptedWhenShallow(v: Json)
    requires ValidJson(v)
    ensures Accepts(Print(v)) <==> Depth(v) <= 16
  {
    PrintPasses([], v);
  }
}
